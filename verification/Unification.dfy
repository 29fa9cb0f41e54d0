/** The Python type checker's types, substitutions and unification. */
module Unification {
  /** What a type node is, apart from the types below it. */
  datatype Head =
    | Int(width: nat, signed: bool) | Float(width: nat) | Bool | Str | Char | Unit
    | Opaque(name: string)
    | Enum(name: string, variants: seq<string>)
    | Record(name: string, fields: seq<string>)   // arguments: the field types
    | Fn                                           // arguments: the parameters, then the result
    | Tuple | Array | Ref(mut: bool) | Result | Option

  datatype Ty = Var(id: int) | Any | Con(head: Head, args: seq<Ty>)

  type Subst = map<int, Ty>

  // ----- variables and sizes -----

  function Vars(t: Ty): set<int> {
    match t
    case Var(v) => {v}
    case Any => {}
    case Con(_, args) => VarsAll(args)
  }

  function VarsAll(ts: seq<Ty>): set<int> {
    if ts == [] then {} else Vars(ts[0]) + VarsAll(ts[1..])
  }

  function Size(t: Ty): nat {
    match t
    case Con(_, args) => 1 + SizeAll(args)
    case _ => 1
  }

  function SizeAll(ts: seq<Ty>): nat {
    if ts == [] then 0 else 1 + Size(ts[0]) + SizeAll(ts[1..])
  }

  // ----- acyclic substitutions -----

  function Max(a: nat, b: nat): nat { if a < b then b else a }

  /** One more than the largest rank of a variable in `t`; 0 without ranked ones. */
  function Height(rank: map<int, nat>, t: Ty): nat {
    match t
    case Var(v) => if v in rank then rank[v] + 1 else 0
    case Any => 0
    case Con(_, args) => HeightAll(rank, args)
  }

  function HeightAll(rank: map<int, nat>, ts: seq<Ty>): nat {
    if ts == [] then 0 else Max(Height(rank, ts[0]), HeightAll(rank, ts[1..]))
  }

  /** Every bound variable ranks above the bound variables of its type. */
  ghost predicate Ranked(s: Subst, rank: map<int, nat>) {
    rank.Keys == s.Keys && forall v :: v in s ==> Height(rank, s[v]) <= rank[v]
  }

  ghost predicate Acyclic(s: Subst) {
    exists rank :: Ranked(s, rank)
  }

  ghost function RankOf(s: Subst): (rank: map<int, nat>)
    requires Acyclic(s)
    ensures Ranked(s, rank)
  {
    var rank :| Ranked(s, rank); rank
  }

  /** Follows bindings to the end, everywhere in `t`. */
  function Apply(s: Subst, t: Ty): Ty
    requires Acyclic(s)
    decreases Height(RankOf(s), t), t
  {
    match t
    case Var(v) => if v in s then Apply(s, s[v]) else t
    case Any => t
    case Con(h, args) => Con(h, ApplyAll(s, args))
  }

  function ApplyAll(s: Subst, ts: seq<Ty>): (r: seq<Ty>)
    requires Acyclic(s)
    ensures |r| == |ts|
    decreases HeightAll(RankOf(s), ts), ts
  {
    if ts == [] then [] else [Apply(s, ts[0])] + ApplyAll(s, ts[1..])
  }

  /** Mentions no bound variable. */
  predicate Resolved(s: Subst, t: Ty) { Vars(t) !! s.Keys }

  function Scope(s: Subst): set<int> {
    s.Keys + set v, w | v in s && w in Vars(s[v]) :: w
  }

  lemma RangeInScope(s: Subst, v: int)
    requires v in s
    ensures Vars(s[v]) <= Scope(s)
  {
    forall w | w in Vars(s[v]) ensures w in Scope(s)
    {
      assert v in s && w in Vars(s[v]);
    }
  }

  lemma {:induction false} ApplyResolves(s: Subst, t: Ty)
    requires Acyclic(s)
    ensures Resolved(s, Apply(s, t)) && Vars(Apply(s, t)) <= Vars(t) + Scope(s)
    decreases Height(RankOf(s), t), t
  {
    match t
    case Var(v) => if v in s { ApplyResolves(s, s[v]); RangeInScope(s, v); }
    case Any =>
    case Con(_, args) => ApplyAllResolves(s, args);
  }

  lemma {:induction false} ApplyAllResolves(s: Subst, ts: seq<Ty>)
    requires Acyclic(s)
    ensures VarsAll(ApplyAll(s, ts)) !! s.Keys && VarsAll(ApplyAll(s, ts)) <= VarsAll(ts) + Scope(s)
    decreases HeightAll(RankOf(s), ts), ts
  {
    if ts != [] {
      ApplyResolves(s, ts[0]);
      ApplyAllResolves(s, ts[1..]);
      assert ApplyAll(s, ts)[1..] == ApplyAll(s, ts[1..]);
    }
  }

  lemma {:induction false} ApplyResolved(s: Subst, t: Ty)
    requires Acyclic(s) && Resolved(s, t)
    ensures Apply(s, t) == t
    decreases t
  {
    if t.Con? { ApplyAllResolved(s, t.args); }
  }

  lemma {:induction false} ApplyAllResolved(s: Subst, ts: seq<Ty>)
    requires Acyclic(s) && VarsAll(ts) !! s.Keys
    ensures ApplyAll(s, ts) == ts
    decreases ts
  {
    if ts != [] {
      ApplyResolved(s, ts[0]);
      ApplyAllResolved(s, ts[1..]);
    }
  }

  /** Only new bindings. */
  ghost predicate Extends(s': Subst, s: Subst) {
    forall v :: v in s ==> v in s' && s'[v] == s[v]
  }

  /** Resolving first with less changes nothing: `apply` is idempotent, and
      stays stable while bindings are added. */
  lemma {:induction false} ApplyExtends(s: Subst, s': Subst, t: Ty)
    requires Acyclic(s) && Acyclic(s') && Extends(s', s)
    ensures Apply(s', Apply(s, t)) == Apply(s', t)
    decreases Height(RankOf(s), t), t
  {
    match t
    case Var(v) => if v in s { ApplyExtends(s, s', s[v]); }
    case Any =>
    case Con(_, args) => ApplyAllExtends(s, s', args);
  }

  lemma {:induction false} ApplyAllExtends(s: Subst, s': Subst, ts: seq<Ty>)
    requires Acyclic(s) && Acyclic(s') && Extends(s', s)
    ensures ApplyAll(s', ApplyAll(s, ts)) == ApplyAll(s', ts)
    decreases HeightAll(RankOf(s), ts), ts
  {
    if ts != [] {
      ApplyExtends(s, s', ts[0]);
      ApplyAllExtends(s, s', ts[1..]);
      assert ApplyAll(s, ts)[1..] == ApplyAll(s, ts[1..]);
    }
  }

  // ----- binding a variable -----

  function Shifted(rank: map<int, nat>, v: int): map<int, nat> {
    map w | w in rank.Keys + {v} :: if w == v then 0 else rank[w] + 1
  }

  lemma {:induction false} ShiftedHeight(rank: map<int, nat>, v: int, t: Ty)
    requires v !in rank
    ensures Height(Shifted(rank, v), t) <= Height(rank, t) + 1
    ensures Vars(t) !! rank.Keys && v !in Vars(t) ==> Height(Shifted(rank, v), t) == 0
    decreases t
  {
    if t.Con? { ShiftedHeightAll(rank, v, t.args); }
  }

  lemma {:induction false} ShiftedHeightAll(rank: map<int, nat>, v: int, ts: seq<Ty>)
    requires v !in rank
    ensures HeightAll(Shifted(rank, v), ts) <= HeightAll(rank, ts) + 1
    ensures VarsAll(ts) !! rank.Keys && v !in VarsAll(ts) ==> HeightAll(Shifted(rank, v), ts) == 0
    decreases ts
  {
    if ts != [] {
      ShiftedHeight(rank, v, ts[0]);
      ShiftedHeightAll(rank, v, ts[1..]);
    }
  }

  /** The occurs check is what keeps the substitution acyclic. */
  lemma BindAcyclic(s: Subst, v: int, t: Ty)
    requires Acyclic(s) && v !in s && Resolved(s, t) && v !in Vars(t)
    ensures Acyclic(s[v := t])
  {
    var rank := RankOf(s);
    var rank', s' := Shifted(rank, v), s[v := t];
    ShiftedHeight(rank, v, t);
    forall w | w in s' ensures Height(rank', s'[w]) <= rank'[w]
    {
      if w != v { ShiftedHeight(rank, v, s[w]); }
    }
    assert Ranked(s', rank');
  }

  // ----- unification -----

  /** The substitution is updated in place, so it counts on failure as well. */
  datatype Outcome = Outcome(ok: bool, s: Subst)

  /** The variables a call may still bind. */
  function Free(vs: set<int>, s: Subst): set<int> { vs + Scope(s) - s.Keys }

  lemma Fewer(a: set<int>, b: set<int>)
    requires a <= b
    ensures |a| <= |b| && (a != b ==> |a| < |b|)
  {
    assert b == a + (b - a);
  }

  lemma ScopeBind(s: Subst, v: int, t: Ty)
    ensures Scope(s[v := t]) <= Scope(s) + {v} + Vars(t)
  {
  }

  /** What every call keeps: acyclicity, the old bindings, and no new names. */
  ghost predicate Keeps(s: Subst, s': Subst, vs: set<int>) {
    Acyclic(s') && Extends(s', s) && Scope(s') <= vs + Scope(s)
  }

  lemma BindKeeps(s: Subst, v: int, t: Ty, vs: set<int>)
    requires Acyclic(s) && v !in s && Resolved(s, t) && v !in Vars(t)
    requires v in vs + Scope(s) && Vars(t) <= vs + Scope(s)
    ensures Keeps(s, s[v := t], vs)
  {
    BindAcyclic(s, v, t);
    ScopeBind(s, v, t);
  }

  /** Robinson's algorithm with an absorbing `Any`, nominal records and enums,
      and reference mutability ignored. */
  function Unify(a: Ty, b: Ty, s: Subst): (r: Outcome)
    requires Acyclic(s)
    ensures Keeps(s, r.s, Vars(a) + Vars(b))
    decreases |Free(Vars(a) + Vars(b), s)|, Size(Apply(s, a)), 2
  {
    Opened(a, b, s);
    UnifyHeads(Apply(s, a), Apply(s, b), s)
  }

  /** Resolving both sides first leaves no more variables to bind. */
  lemma Opened(a: Ty, b: Ty, s: Subst)
    requires Acyclic(s)
    ensures
      var x, y := Apply(s, a), Apply(s, b);
      && Resolved(s, x) && Resolved(s, y) && Vars(x) + Vars(y) + Scope(s) <= Vars(a) + Vars(b) + Scope(s)
      && |Free(Vars(x) + Vars(y), s)| <= |Free(Vars(a) + Vars(b), s)|
  {
    var x, y := Apply(s, a), Apply(s, b);
    ApplyResolves(s, a);
    ApplyResolves(s, b);
    WithinScope(Vars(x) + Vars(y), Vars(a) + Vars(b), Scope(s), s.Keys);
  }

  lemma WithinScope(ws: set<int>, vs: set<int>, scope: set<int>, keys: set<int>)
    requires ws <= vs + scope
    ensures ws + scope <= vs + scope && |ws + scope - keys| <= |vs + scope - keys|
  {
    Fewer(ws + scope - keys, vs + scope - keys);
  }

  /** The case analysis, on resolved types. */
  function UnifyHeads(x: Ty, y: Ty, s: Subst): (r: Outcome)
    requires Acyclic(s) && Resolved(s, x) && Resolved(s, y)
    ensures Keeps(s, r.s, Vars(x) + Vars(y))
    decreases |Free(Vars(x) + Vars(y), s)|, Size(x), 1
  {
    if x.Any? || y.Any? then Outcome(true, s)
    else if x == y then Outcome(true, s)
    else if x.Var? then
      if x.id in Vars(y) then Outcome(false, s)
      else BindKeeps(s, x.id, y, Vars(x) + Vars(y)); Outcome(true, s[x.id := y])
    else if y.Var? then
      if y.id in Vars(x) then Outcome(false, s)
      else BindKeeps(s, y.id, x, Vars(x) + Vars(y)); Outcome(true, s[y.id := x])
    else if SameShape(x.head, y.head) then
      if |x.args| != |y.args| then Outcome(false, s)
      else
        ApplyAllResolved(s, x.args);
        UnifyAll(x.args, y.args, s)
    else Outcome(SameName(x.head, y.head), s)
  }

  function UnifyAll(xs: seq<Ty>, ys: seq<Ty>, s: Subst): (r: Outcome)
    requires Acyclic(s) && |xs| == |ys|
    ensures Keeps(s, r.s, VarsAll(xs) + VarsAll(ys))
    decreases |Free(VarsAll(xs) + VarsAll(ys), s)|, SizeAll(ApplyAll(s, xs)), 0
  {
    if xs == [] then Outcome(true, s)
    else
      FirstSmaller(xs, ys, s);
      var r := Unify(xs[0], ys[0], s);
      if !r.ok then r
      else
        RestSmaller(xs, ys, s, r.s);
        RestKeeps(xs, ys, s, r.s);
        UnifyAll(xs[1..], ys[1..], r.s)
  }

  lemma FirstSmaller(xs: seq<Ty>, ys: seq<Ty>, s: Subst)
    requires Acyclic(s) && |xs| == |ys| && xs != []
    ensures |Free(Vars(xs[0]) + Vars(ys[0]), s)| <= |Free(VarsAll(xs) + VarsAll(ys), s)|
    ensures Size(Apply(s, xs[0])) < SizeAll(ApplyAll(s, xs))
  {
    Fewer(Free(Vars(xs[0]) + Vars(ys[0]), s), Free(VarsAll(xs) + VarsAll(ys), s));
  }

  lemma RestKeeps(xs: seq<Ty>, ys: seq<Ty>, s: Subst, s': Subst)
    requires Acyclic(s) && |xs| == |ys| && xs != [] && Keeps(s, s', Vars(xs[0]) + Vars(ys[0]))
    ensures forall s'' :: Keeps(s', s'', VarsAll(xs[1..]) + VarsAll(ys[1..])) ==> Keeps(s, s'', VarsAll(xs) + VarsAll(ys))
  {
  }

  /** Either nothing was bound and the rest is smaller, or a variable was. */
  lemma RestSmaller(xs: seq<Ty>, ys: seq<Ty>, s: Subst, s': Subst)
    requires Acyclic(s) && |xs| == |ys| && xs != [] && Keeps(s, s', Vars(xs[0]) + Vars(ys[0]))
    ensures
      var before := Free(VarsAll(xs) + VarsAll(ys), s);
      var after := Free(VarsAll(xs[1..]) + VarsAll(ys[1..]), s');
      |after| < |before|
      || (|after| <= |before| && SizeAll(ApplyAll(s', xs[1..])) < SizeAll(ApplyAll(s, xs)))
  {
    FreeShrinks(VarsAll(xs) + VarsAll(ys), VarsAll(xs[1..]) + VarsAll(ys[1..]), s, s');
    if s' == s { assert ApplyAll(s, xs)[1..] == ApplyAll(s, xs[1..]); }
  }

  lemma FreeShrinks(vs: set<int>, ws: set<int>, s: Subst, s': Subst)
    requires ws <= vs && Extends(s', s) && Scope(s') <= vs + Scope(s)
    ensures |Free(ws, s')| <= |Free(vs, s)| && (s' == s || |Free(ws, s')| < |Free(vs, s)|)
  {
    SameKeys(s, s');
    Shrinks(vs, Scope(s), s.Keys, ws, Scope(s'), s'.Keys);
  }

  lemma Shrinks(vs: set<int>, scope: set<int>, keys: set<int>, ws: set<int>, scope': set<int>, keys': set<int>)
    requires ws <= vs && scope' <= vs + scope && keys <= keys' <= scope'
    ensures |ws + scope' - keys'| <= |vs + scope - keys|
    ensures keys == keys' || |ws + scope' - keys'| < |vs + scope - keys|
  {
    var after, before := ws + scope' - keys', vs + scope - keys;
    Fewer(after, before);
    assert keys' - keys <= before - after;
    assert keys' == keys + (keys' - keys);
  }

  lemma SameKeys(s: Subst, s': Subst)
    requires Extends(s', s)
    ensures s.Keys <= s'.Keys && (s.Keys == s'.Keys ==> s' == s)
  {
    forall v | v in s.Keys ensures v in s'.Keys
    {
      assert v in s;
    }
    if s.Keys == s'.Keys {
      forall v | v in s'.Keys ensures s'[v] == s[v]
      {
        assert v in s.Keys && v in s;
      }
      assert s' == s;
    }
  }

  /** Heads under which the arguments are unified pairwise. */
  predicate SameShape(h: Head, g: Head) {
    match (h, g)
    case (Fn, Fn) => true
    case (Tuple, Tuple) => true
    case (Array, Array) => true
    case (Ref(_), Ref(_)) => true
    case (Result, Result) => true
    case (Option, Option) => true
    case _ => false
  }

  /** Heads that match by name alone. */
  predicate SameName(h: Head, g: Head) {
    match (h, g)
    case (Record(m, _), Record(n, _)) => m == n
    case (Enum(m, _), Enum(n, _)) => m == n
    case (Opaque(m), Opaque(n)) => m == n
    case _ => false
  }
}
