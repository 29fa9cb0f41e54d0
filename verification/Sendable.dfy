/** Which types may cross between agents: a search over a type graph that may be
    cyclic through struct and enum fields. */
module Sendable {
  type TyId = nat

  /** `Scalar` stands for the primitives and the degenerate types that are always
      Copy, `Heap` for String and Bytes, `Abstract` for variables, parameters,
      capabilities and `dyn` values. */
  datatype Ty =
    | Scalar
    | Heap
    | Abstract
    | Tuple(xs: seq<TyId>)
    | Array(elem: TyId)
    | Ref(mutable: bool, inner: TyId)
    | RawPtr(pointee: TyId)
    | Fn
    | Adt(id: nat)

  datatype AdtKind = OpaqueKind | StructKind | EnumKind

  /** One list of field types per variant. */
  datatype AdtDef = AdtDef(kind: AdtKind, variants: seq<seq<TyId>>)

  datatype Types = Types(arena: seq<Ty>, adts: seq<AdtDef>, userCopy: set<nat>)

  /** Interning allocates the parts of a tuple or array before the whole; the
      fields of a struct or enum may be any types. */
  ghost predicate Interned(w: Types) {
    && (forall t, i :: 0 <= t < |w.arena| && w.arena[t].Tuple? && 0 <= i < |w.arena[t].xs| ==> w.arena[t].xs[i] < t)
    && (forall t :: 0 <= t < |w.arena| && w.arena[t].Array? ==> w.arena[t].elem < t)
    && (forall a :: 0 <= a < |w.adts| ==> FieldsKnown(w, w.adts[a]))
  }

  ghost predicate FieldsKnown(w: Types, def: AdtDef) {
    forall v, f :: 0 <= v < |def.variants| && 0 <= f < |def.variants[v]| ==> def.variants[v][f] < |w.arena|
  }

  predicate CopyAdt(w: Types, id: nat) {
    id in w.userCopy || id >= |w.adts| || w.adts[id].kind.OpaqueKind?
  }

  function IsCopy(w: Types, t: TyId): bool
    requires Interned(w) && t < |w.arena|
    decreases t
  {
    match w.arena[t]
    case Scalar => true
    case Heap => false
    case Abstract => false
    case Tuple(xs) => forall i :: 0 <= i < |xs| ==> IsCopy(w, xs[i])
    case Array(elem) => IsCopy(w, elem)
    case Ref(mutable, _) => !mutable
    case RawPtr(_) => true
    case Fn => true
    case Adt(id) => CopyAdt(w, id)
  }

  // ----- what the answer means -----

  ghost predicate Carrier(w: Types, t: TyId)
    requires t < |w.arena|
  {
    w.arena[t].Ref? || w.arena[t].RawPtr? || w.arena[t].Fn?
  }

  /** The parts a value of type `t` holds in itself: of a struct or enum its fields, if
      it is known, not opaque and not declared Copy. */
  ghost predicate Holds(w: Types, t: TyId, u: TyId)
    requires t < |w.arena|
  {
    match w.arena[t]
    case Tuple(xs) => u in xs
    case Array(elem) => u == elem
    case Adt(id) =>
      && id < |w.adts| && id !in w.userCopy && !w.adts[id].kind.OpaqueKind?
      && exists v :: 0 <= v < |w.adts[id].variants| && u in w.adts[id].variants[v]
    case _ => false
  }

  /** A chain of parts ending in a reference, raw pointer or function. */
  ghost predicate Chain(w: Types, p: seq<TyId>) {
    && p != [] && (forall i :: 0 <= i < |p| ==> p[i] < |w.arena|)
    && (forall i :: 0 <= i < |p| - 1 ==> Holds(w, p[i], p[i + 1]))
    && Carrier(w, p[|p| - 1])
  }

  ghost predicate Reaches(w: Types, t: TyId) { exists p :: Chain(w, p) && p[0] == t }

  // ----- the search -----

  ghost function Below(n: nat): (ids: set<TyId>)
    ensures forall t: TyId :: t in ids <==> t < n
  {
    if n == 0 then {} else Below(n - 1) + {n - 1}
  }

  ghost function Unvisited(w: Types, visiting: seq<TyId>): set<TyId> {
    Below(|w.arena|) - (set t | t in visiting)
  }

  lemma Narrows(w: Types, visiting: seq<TyId>, t: TyId)
    requires t < |w.arena| && t !in visiting
    ensures |Unvisited(w, visiting + [t])| < |Unvisited(w, visiting)|
  {
    var rest := Unvisited(w, visiting);
    assert t in rest && Unvisited(w, visiting + [t]) == rest - {t};
  }

  /** `is_sendable_inner` on values: `visiting` holds the tuples and data types on
      the way here, not arrays. */
  ghost function Search(w: Types, t: TyId, visiting: seq<TyId>): bool
    requires Interned(w) && t < |w.arena|
    decreases |Unvisited(w, visiting)|, t
  {
    if t in visiting then true
    else
      Narrows(w, visiting, t);
      match w.arena[t]
      case Ref(_, _) => false
      case RawPtr(_) => false
      case Fn => false
      case Tuple(xs) => forall i :: 0 <= i < |xs| ==> Search(w, xs[i], visiting + [t])
      case Array(elem) => Search(w, elem, visiting)
      case Adt(id) =>
        CopyAdt(w, id)
        || forall v, f :: 0 <= v < |w.adts[id].variants| && 0 <= f < |w.adts[id].variants[v]|
             ==> Search(w, w.adts[id].variants[v][f], visiting + [t])
      case _ => true
  }

  /** The search as it runs: one list, pushed on the way down and popped on the
      way back. */
  class Searcher {
    const types: Types
    var visiting: seq<TyId>

    constructor (w: Types)
      ensures types == w && visiting == []
    {
      types, visiting := w, [];
    }

    method Inner(t: TyId) returns (r: bool)
      requires Interned(types) && t < |types.arena|
      modifies this
      ensures visiting == old(visiting) && r == Search(types, t, old(visiting))
      decreases |Unvisited(types, visiting)|, t, 2
    {
      if t in visiting { return true; }
      Narrows(types, visiting, t);
      var ty := types.arena[t];
      if ty.Ref? || ty.RawPtr? || ty.Fn? { return false; }
      if ty.Tuple? {
        visiting := visiting + [t];
        r := All(ty.xs);
        visiting := visiting[..|visiting| - 1];
        return;
      }
      if ty.Array? {
        r := Inner(ty.elem);
        return;
      }
      if IsCopy(types, t) { return true; }
      if ty.Adt? && ty.id < |types.adts| && !types.adts[ty.id].kind.OpaqueKind? {
        visiting := visiting + [t];
        r := AllVariants(types.adts[ty.id].variants);
        visiting := visiting[..|visiting| - 1];
        return;
      }
      return true;
    }

    /** `all` over a list of parts, stopping at the first failure. */
    method All(xs: seq<TyId>) returns (r: bool)
      requires Interned(types) && forall i :: 0 <= i < |xs| ==> xs[i] < |types.arena|
      modifies this
      ensures visiting == old(visiting) && r == forall i :: 0 <= i < |xs| ==> Search(types, xs[i], old(visiting))
      decreases |Unvisited(types, visiting)|, |types.arena|, 0
    {
      for i := 0 to |xs|
        invariant visiting == old(visiting) && forall j :: 0 <= j < i ==> Search(types, xs[j], old(visiting))
      {
        var ok := Inner(xs[i]);
        if !ok { return false; }
      }
      return true;
    }

    method AllVariants(variants: seq<seq<TyId>>) returns (r: bool)
      requires Interned(types)
      requires forall v, f :: 0 <= v < |variants| && 0 <= f < |variants[v]| ==> variants[v][f] < |types.arena|
      modifies this
      ensures visiting == old(visiting)
      ensures r == forall v, f :: 0 <= v < |variants| && 0 <= f < |variants[v]| ==> Search(types, variants[v][f], old(visiting))
      decreases |Unvisited(types, visiting)|, |types.arena|, 1
    {
      for v := 0 to |variants|
        invariant visiting == old(visiting)
        invariant forall u, f :: 0 <= u < v && 0 <= f < |variants[u]| ==> Search(types, variants[u][f], old(visiting))
      {
        var ok := All(variants[v]);
        if !ok { return false; }
      }
      return true;
    }
  }

  // ----- the theorem -----

  /** A failed search has found a chain. */
  lemma {:induction false} FailureIsReal(w: Types, t: TyId, visiting: seq<TyId>)
    requires Interned(w) && t < |w.arena| && !Search(w, t, visiting)
    ensures Reaches(w, t)
    decreases |Unvisited(w, visiting)|, t
  {
    Narrows(w, visiting, t);
    match w.arena[t]
    case Tuple(xs) =>
      var i :| 0 <= i < |xs| && !Search(w, xs[i], visiting + [t]);
      FailureIsReal(w, xs[i], visiting + [t]);
      ChainFrom(w, t, xs[i]);
    case Array(elem) =>
      FailureIsReal(w, elem, visiting);
      ChainFrom(w, t, elem);
    case Adt(id) =>
      var v, f :| 0 <= v < |w.adts[id].variants| && 0 <= f < |w.adts[id].variants[v]|
                  && !Search(w, w.adts[id].variants[v][f], visiting + [t]);
      FailureIsReal(w, w.adts[id].variants[v][f], visiting + [t]);
      ChainFrom(w, t, w.adts[id].variants[v][f]);
    case Ref(_, _) => assert Chain(w, [t]);
    case RawPtr(_) => assert Chain(w, [t]);
    case Fn => assert Chain(w, [t]);
    case _ =>
  }

  lemma ChainFrom(w: Types, t: TyId, u: TyId)
    requires t < |w.arena| && Holds(w, t, u) && Reaches(w, u)
    ensures Reaches(w, t)
  {
    var p :| Chain(w, p) && p[0] == u;
    var q := [t] + p;
    forall i | 0 <= i < |q| - 1 ensures Holds(w, q[i], q[i + 1])
    {
      if i > 0 { assert q[i] == p[i - 1] && q[i + 1] == p[i]; }
    }
    assert Chain(w, q) && q[0] == t;
  }

  /** A chain that avoids the list is found: cut at the last visit of its start,
      it never meets that start again. */
  lemma {:induction false} ChainIsFound(w: Types, p: seq<TyId>, visiting: seq<TyId>)
    requires Interned(w) && Chain(w, p) && forall i :: 0 <= i < |p| ==> p[i] !in visiting
    ensures !Search(w, p[0], visiting)
    decreases |p|
  {
    var t := p[0];
    if i :| 0 < i < |p| && p[i] == t {
      ChainTail(w, p, i);
      ChainIsFound(w, p[i..], visiting);
    } else if |p| > 1 {
      var rest := p[1..];
      ChainTail(w, p, 1);
      assert Holds(w, t, p[1]);
      forall i | 0 <= i < |rest| ensures rest[i] !in visiting && rest[i] !in visiting + [t]
      {
        assert rest[i] == p[i + 1];
      }
      ChainIsFound(w, rest, if w.arena[t].Array? then visiting else visiting + [t]);
    }
  }

  lemma ChainTail(w: Types, p: seq<TyId>, i: nat)
    requires Chain(w, p) && i < |p|
    ensures Chain(w, p[i..])
  {
    var q := p[i..];
    forall j | 0 <= j < |q| - 1 ensures Holds(w, q[j], q[j + 1])
    {
      assert q[j] == p[i + j] && q[j + 1] == p[i + j + 1];
    }
  }

  /** `is_sendable` rejects a type exactly when a reference, a raw pointer or a
      function is reachable through its parts. */
  method IsSendable(w: Types, t: TyId) returns (r: bool)
    requires Interned(w) && t < |w.arena|
    ensures r <==> !Reaches(w, t)
  {
    var s := new Searcher(w);
    r := s.Inner(t);
    if !r { FailureIsReal(w, t, []); }
    if p :| Chain(w, p) && p[0] == t { ChainIsFound(w, p, []); }
  }
}
