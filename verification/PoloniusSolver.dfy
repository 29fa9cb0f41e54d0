/** The Datalog solver of the Polonius pass, and why 32 rounds are enough. */
module PoloniusSolver {
  import opened Powers

  const LOANS := 0x1_0000_0000

  type Loan = n: int | 0 <= n < 0x1_0000_0000
  type Point = nat

  datatype LoanKind = Shared | Mut | TwoPhaseMut

  datatype LoanInfo = LoanInfo(kind: LoanKind, root: string)

  datatype Fact =
    | BorrowAt(loan: Loan, point: Point)
    | LoanInvalidated(loan: Loan, point: Point)
    | Subset(outer: Loan, inner: Loan, point: Point)
    | Conflict(one: Loan, other: Loan, point: Point)
    | Error(loan: Loan, point: Point)

  predicate LoansConflict(a: LoanKind, b: LoanKind) {
    match (a, b)
    case (Shared, Shared) => false
    case (TwoPhaseMut, Shared) => false
    case (Shared, TwoPhaseMut) => false
    case _ => true
  }

  datatype Rule = Transitivity | Invalidation | Collision

  /** What a rule derives from an ordered pair of facts. */
  function Fire(rule: Rule, loans: map<Loan, LoanInfo>, f: Fact, g: Fact): set<Fact> {
    match rule
    case Transitivity =>
      if f.Subset? && g.Subset? && f.inner == g.outer && f.point == g.point then {Subset(f.outer, g.inner, f.point)} else {}
    case Invalidation =>
      if f.BorrowAt? && g.LoanInvalidated? && f.loan == g.loan && g.point >= f.point then {Error(f.loan, g.point)} else {}
    case Collision =>
      if f.BorrowAt? && g.BorrowAt? && f.loan != g.loan && f.point == g.point
         && f.loan in loans && g.loan in loans
         && loans[f.loan].root == loans[g.loan].root && LoansConflict(loans[f.loan].kind, loans[g.loan].kind)
      then {Conflict(f.loan, g.loan, f.point), Error(f.loan, f.point)} else {}
  }

  function Fired(rule: Rule, loans: map<Loan, LoanInfo>, fs: set<Fact>): set<Fact> {
    set f, g, h | f in fs && g in fs && h in Fire(rule, loans, f, g) :: h
  }

  /** Only `Subset`, `Conflict` and `Error` facts are ever derived. */
  function Round(loans: map<Loan, LoanInfo>, fs: set<Fact>): (r: set<Fact>)
    ensures fs <= r
    ensures forall f :: f in r && (f.BorrowAt? || f.LoanInvalidated?) ==> f in fs
  {
    fs + Fired(Transitivity, loans, fs) + Fired(Invalidation, loans, fs) + Fired(Collision, loans, fs)
  }

  function Rounds(loans: map<Loan, LoanInfo>, fs: set<Fact>, k: nat): (r: set<Fact>)
    ensures fs <= r
    ensures forall f :: f in r && (f.BorrowAt? || f.LoanInvalidated?) ==> f in fs
  {
    if k == 0 then fs else Round(loans, Rounds(loans, fs, k - 1))
  }

  /** No rule derives anything new. */
  ghost predicate Closed(loans: map<Loan, LoanInfo>, fs: set<Fact>) {
    forall rule, f, g :: f in fs && g in fs ==> Fire(rule, loans, f, g) <= fs
  }

  /** The least closed set above the initial facts. */
  ghost predicate LeastModel(loans: map<Loan, LoanInfo>, initial: set<Fact>, fs: set<Fact>) {
    && initial <= fs && Closed(loans, fs)
    && forall other :: initial <= other && Closed(loans, other) ==> fs <= other
  }

  class Solver {
    var facts: set<Fact>
    var loans: map<Loan, LoanInfo>

    constructor (facts: set<Fact>, loans: map<Loan, LoanInfo>)
      ensures this.facts == facts && this.loans == loans
    {
      this.facts, this.loans := facts, loans;
    }

    /** Every ordered pair of the snapshot is tried, whatever its order. */
    method FireAll(rule: Rule, snapshot: seq<Fact>) returns (out: set<Fact>)
      ensures forall h :: h in out <==> exists f, g :: f in snapshot && g in snapshot && h in Fire(rule, loans, f, g)
    {
      out := {};
      for i := 0 to |snapshot|
        invariant forall h :: h in out <==> exists f, g :: f in snapshot[..i] && g in snapshot && h in Fire(rule, loans, f, g)
      {
        ghost var before := out;
        for j := 0 to |snapshot|
          invariant forall h :: h in out <==>
                      h in before || exists g :: g in snapshot[..j] && h in Fire(rule, loans, snapshot[i], g)
        {
          out := out + Fire(rule, loans, snapshot[i], snapshot[j]);
          assert snapshot[..j + 1] == snapshot[..j] + [snapshot[j]];
        }
        assert snapshot[..|snapshot|] == snapshot;
        assert snapshot[..i + 1] == snapshot[..i] + [snapshot[i]];
        assert snapshot[i] in snapshot[..i + 1];
      }
      assert snapshot[..|snapshot|] == snapshot;
    }

    method ApplyRules()
      modifies this`facts
      ensures facts == Round(loans, old(facts))
    {
      var snapshot := Listed(facts);
      var one := FireAll(Transitivity, snapshot);
      var two := FireAll(Invalidation, snapshot);
      var four := FireAll(Collision, snapshot);
      facts := facts + one + two + four;
    }

    /** At most 32 rounds, fewer if a round adds nothing; always the least model. */
    method Solve()
      modifies this`facts
      ensures LeastModel(loans, old(facts), facts)
    {
      ghost var initial := facts;
      var k := 0;
      while k < 32
        invariant 0 <= k <= 32 && facts == Rounds(loans, initial, k)
      {
        var before := |facts|;
        ghost var was := facts;
        ApplyRules();
        assert was <= facts;
        if |facts| == before {
          SameSize(was, facts);
          FixpointIsLeast(loans, initial, k);
          return;
        }
        k := k + 1;
      }
      ThirtyTwoSuffice(loans, initial);
      RoundsAreDerived(loans, initial, 32);
    }
  }

  method Listed(fs: set<Fact>) returns (s: seq<Fact>)
    ensures forall f :: f in s <==> f in fs
  {
    s := [];
    var rest := fs;
    while rest != {}
      invariant rest <= fs && forall f :: f in s <==> f in fs - rest
      decreases rest
    {
      var f :| f in rest;
      s := s + [f];
      rest := rest - {f};
    }
  }

  lemma {:induction false} SubsetSize<T>(a: set<T>, b: set<T>)
    requires a <= b
    ensures |a| <= |b|
    decreases b
  {
    if a != b {
      var x :| x in b && x !in a;
      SubsetSize(a, b - {x});
    }
  }

  lemma SameSize<T>(a: set<T>, b: set<T>)
    requires a <= b && |a| == |b|
    ensures a == b
  {
    if a != b {
      var x :| x in b && x !in a;
      SubsetSize(a, b - {x});
    }
  }

  // ----- soundness of the rounds -----

  lemma RoundHas(loans: map<Loan, LoanInfo>, fs: set<Fact>, rule: Rule, f: Fact, g: Fact, h: Fact)
    requires f in fs && g in fs && h in Fire(rule, loans, f, g)
    ensures h in Round(loans, fs)
  {
    assert h in Fired(rule, loans, fs);
  }

  lemma {:induction false} RoundFrom(loans: map<Loan, LoanInfo>, fs: set<Fact>, h: Fact) returns (rule: Rule, f: Fact, g: Fact)
    requires h in Round(loans, fs) && h !in fs
    ensures f in fs && g in fs && h in Fire(rule, loans, f, g)
  {
    rule :| h in Fired(rule, loans, fs);
    f, g :| f in fs && g in fs && h in Fire(rule, loans, f, g);
  }

  lemma RoundInside(loans: map<Loan, LoanInfo>, fs: set<Fact>, other: set<Fact>)
    requires fs <= other && Closed(loans, other)
    ensures Round(loans, fs) <= other
  {
    forall h | h in Round(loans, fs) && h !in fs ensures h in other
    {
      var rule, f, g := RoundFrom(loans, fs, h);
      assert Fire(rule, loans, f, g) <= other;
    }
  }

  /** A round from inside stays inside. */
  ghost predicate Absorbs(loans: map<Loan, LoanInfo>, other: set<Fact>) {
    forall fs :: fs <= other ==> Round(loans, fs) <= other
  }

  lemma ClosedAbsorbs(loans: map<Loan, LoanInfo>, other: set<Fact>)
    requires Closed(loans, other)
    ensures Absorbs(loans, other)
  {
    forall fs | fs <= other ensures Round(loans, fs) <= other
    {
      RoundInside(loans, fs, other);
    }
  }

  lemma {:induction false} RoundsInside(loans: map<Loan, LoanInfo>, fs: set<Fact>, k: nat, other: set<Fact>)
    requires fs <= other && Absorbs(loans, other)
    ensures Rounds(loans, fs, k) <= other
    decreases k
  {
    if k == 0 {
      assert Rounds(loans, fs, k) == fs;
    } else {
      var before := Rounds(loans, fs, k - 1);
      RoundsInside(loans, fs, k - 1, other);
      assert Round(loans, before) <= other;
      assert Rounds(loans, fs, k) == Round(loans, before);
    }
  }

  /** Rounds add only what every closed set above the facts holds. */
  lemma RoundsAreDerived(loans: map<Loan, LoanInfo>, fs: set<Fact>, k: nat)
    ensures fs <= Rounds(loans, fs, k)
    ensures forall other :: fs <= other && Closed(loans, other) ==> Rounds(loans, fs, k) <= other
  {
    forall other | fs <= other && Closed(loans, other) ensures Rounds(loans, fs, k) <= other
    {
      ClosedAbsorbs(loans, other);
      RoundsInside(loans, fs, k, other);
    }
  }

  lemma FixpointIsLeast(loans: map<Loan, LoanInfo>, fs: set<Fact>, k: nat)
    requires Round(loans, Rounds(loans, fs, k)) == Rounds(loans, fs, k)
    ensures LeastModel(loans, fs, Rounds(loans, fs, k))
  {
    RoundsAreDerived(loans, fs, k);
    var m := Rounds(loans, fs, k);
    forall rule, f, g | f in m && g in m ensures Fire(rule, loans, f, g) <= m
    {
      forall h | h in Fire(rule, loans, f, g) ensures h in m
      {
        RoundHas(loans, m, rule, f, g, h);
      }
    }
  }

  lemma NextKeeps(loans: map<Loan, LoanInfo>, fs: set<Fact>, k: nat, f: Fact)
    requires k > 0 && f in Rounds(loans, fs, k - 1)
    ensures f in Rounds(loans, fs, k)
  {
    assert Rounds(loans, fs, k) == Round(loans, Rounds(loans, fs, k - 1));
  }

  lemma {:induction false} RoundsGrow(loans: map<Loan, LoanInfo>, fs: set<Fact>, j: nat, k: nat, f: Fact)
    requires j <= k && f in Rounds(loans, fs, j)
    ensures f in Rounds(loans, fs, k)
    decreases k - j
  {
    if j < k {
      NextKeeps(loans, fs, j + 1, f);
      RoundsGrow(loans, fs, j + 1, k, f);
    }
  }

  // ----- subset walks -----

  /** `vs` steps along `Subset` facts at `p`. */
  ghost predicate Chain(fs: set<Fact>, p: Point, vs: seq<Loan>) {
    |vs| >= 2 && forall i :: 0 <= i < |vs| - 1 ==> Subset(vs[i], vs[i + 1], p) in fs
  }

  lemma {:induction false} ChainSplit(fs: set<Fact>, p: Point, vs: seq<Loan>, i: nat) returns (left: seq<Loan>, right: seq<Loan>)
    requires Chain(fs, p, vs) && 0 < i < |vs| - 1
    ensures |left| == i + 1 && |right| == |vs| - i && Chain(fs, p, left) && Chain(fs, p, right)
    ensures left[0] == vs[0] && left[i] == right[0] == vs[i] && right[|right| - 1] == vs[|vs| - 1]
  {
    left, right := vs[..i + 1], vs[i..];
    forall j | 0 <= j < |right| - 1 ensures Subset(right[j], right[j + 1], p) in fs
    {
      assert right[j] == vs[i + j] && right[j + 1] == vs[i + j + 1];
    }
  }

  /** After k rounds every walk of at most 2^k steps is short-cut. */
  lemma {:induction false} WalkShortcut(loans: map<Loan, LoanInfo>, fs: set<Fact>, k: nat, p: Point, vs: seq<Loan>)
    requires Chain(fs, p, vs) && |vs| - 1 <= Pow2(k)
    ensures Subset(vs[0], vs[|vs| - 1], p) in Rounds(loans, fs, k)
    decreases k
  {
    if |vs| > 2 {
      var half := if |vs| - 1 <= Pow2(k - 1) then |vs| - 2 else Pow2(k - 1);
      var left, right := ChainSplit(fs, p, vs, half);
      WalkShortcut(loans, fs, k - 1, p, left);
      WalkShortcut(loans, fs, k - 1, p, right);
      TwoSteps(loans, fs, k, p, vs[0], vs[half], vs[|vs| - 1]);
    }
  }

  /** One more round joins two steps into one. */
  lemma {:induction false} TwoSteps(loans: map<Loan, LoanInfo>, fs: set<Fact>, k: nat, p: Point, a: Loan, b: Loan, c: Loan)
    requires k > 0 && Subset(a, b, p) in Rounds(loans, fs, k - 1) && Subset(b, c, p) in Rounds(loans, fs, k - 1)
    ensures Subset(a, c, p) in Rounds(loans, fs, k)
  {
    var prev := Rounds(loans, fs, k - 1);
    RoundHas(loans, prev, Transitivity, Subset(a, b, p), Subset(b, c, p), Subset(a, c, p));
  }

  ghost predicate Behind(fs: set<Fact>, f: Fact, vs: seq<Loan>)
    requires f.Subset?
  {
    Chain(fs, f.point, vs) && vs[0] == f.outer && vs[|vs| - 1] == f.inner
  }

  /** Every `Subset` fact of `all` comes from a walk over the initial facts. */
  ghost predicate Backed(fs: set<Fact>, all: set<Fact>) {
    forall f :: f in all && f.Subset? ==> exists vs :: Behind(fs, f, vs)
  }

  lemma BackedRound(loans: map<Loan, LoanInfo>, fs: set<Fact>, all: set<Fact>)
    requires Backed(fs, all)
    ensures Backed(fs, Round(loans, all))
  {
    forall f | f in Round(loans, all) && f.Subset? && f !in all ensures exists vs :: Behind(fs, f, vs)
    {
      var g, h := SubsetFrom(loans, all, f);
      var left :| Behind(fs, g, left);
      var right :| Behind(fs, h, right);
      var vs := Joined(fs, f.point, left, right);
      assert Behind(fs, f, vs);
    }
  }

  lemma {:induction false} BackedRounds(loans: map<Loan, LoanInfo>, fs: set<Fact>, k: nat)
    ensures Backed(fs, Rounds(loans, fs, k))
  {
    if k == 0 {
      forall f | f in fs && f.Subset? ensures exists vs :: Behind(fs, f, vs)
      {
        assert Behind(fs, f, [f.outer, f.inner]);
      }
    } else {
      BackedRounds(loans, fs, k - 1);
      BackedRound(loans, fs, Rounds(loans, fs, k - 1));
    }
  }

  lemma {:induction false} SubsetFrom(loans: map<Loan, LoanInfo>, fs: set<Fact>, f: Fact) returns (g: Fact, h: Fact)
    requires f in Round(loans, fs) && f !in fs && f.Subset?
    ensures g in fs && h in fs && g.Subset? && h.Subset? && g.point == h.point == f.point
    ensures g.outer == f.outer && g.inner == h.outer && h.inner == f.inner
  {
    var rule;
    rule, g, h := RoundFrom(loans, fs, f);
  }

  lemma {:induction false} Joined(fs: set<Fact>, p: Point, left: seq<Loan>, right: seq<Loan>) returns (vs: seq<Loan>)
    requires Chain(fs, p, left) && Chain(fs, p, right) && left[|left| - 1] == right[0]
    ensures Chain(fs, p, vs) && vs[0] == left[0] && vs[|vs| - 1] == right[|right| - 1]
  {
    vs := left + right[1..];
    forall i | 0 <= i < |vs| - 1 ensures Subset(vs[i], vs[i + 1], p) in fs
    {
      if i < |left| - 1 {
        assert Subset(left[i], left[i + 1], p) in fs;
      } else {
        var j := i - (|left| - 1);
        assert Subset(right[j], right[j + 1], p) in fs;
      }
    }
  }

  // ----- short walks -----

  function Range(n: nat): (r: set<int>)
    ensures |r| == n && forall i :: i in r <==> 0 <= i < n
  {
    if n == 0 then {} else Range(n - 1) + {n - 1}
  }

  function Elements(s: seq<Loan>): (r: set<int>)
    ensures forall x :: x in r <==> x in s
  {
    if s == [] then {} else Elements(s[..|s| - 1]) + {s[|s| - 1]}
  }

  lemma {:induction false} DistinctSize(s: seq<Loan>)
    requires forall i, j :: 0 <= i < j < |s| ==> s[i] != s[j]
    ensures |Elements(s)| == |s|
    decreases |s|
  {
    if s != [] {
      DistinctSize(s[..|s| - 1]);
      assert s[|s| - 1] !in Elements(s[..|s| - 1]);
    }
  }

  /** More entries than loans: two of them are the same loan. */
  lemma {:induction false} Pigeonhole(s: seq<Loan>) returns (i: nat, j: nat)
    requires |s| > LOANS
    ensures i < j < |s| && s[i] == s[j]
  {
    if forall i, j :: 0 <= i < j < |s| ==> s[i] != s[j] {
      DistinctSize(s);
      SubsetSize(Elements(s), Range(LOANS));
      assert false;
    }
    i, j :| 0 <= i < j < |s| && s[i] == s[j];
  }

  /** Cutting cycles leaves a walk of at most 2^32 steps. */
  lemma {:induction false} Shortened(fs: set<Fact>, p: Point, vs: seq<Loan>) returns (ws: seq<Loan>)
    requires Chain(fs, p, vs)
    ensures Chain(fs, p, ws) && |ws| - 1 <= LOANS && ws[0] == vs[0] && ws[|ws| - 1] == vs[|vs| - 1]
    decreases |vs|
  {
    if |vs| - 1 <= LOANS {
      ws := vs;
    } else {
      var i, j := Pigeonhole(vs[1..]);
      var cut := vs[..i + 2] + vs[j + 2..];
      assert vs[i + 1] == vs[j + 1];
      forall n | 0 <= n < |cut| - 1 ensures Subset(cut[n], cut[n + 1], p) in fs
      {
        if n < i + 1 {
          assert Subset(vs[n], vs[n + 1], p) in fs;
        } else {
          assert Subset(vs[n + (j - i)], vs[n + (j - i) + 1], p) in fs;
        }
      }
      ws := Shortened(fs, p, cut);
    }
  }

  lemma TwoTo32()
    ensures Pow2(32) == LOANS
  {
    assert Pow2(8) == 256;
    assert Pow2(16) == 65536;
    assert Pow2(24) == 16777216;
  }

  /** The cap of 32 rounds loses nothing: `Loan` is a 32-bit number. */
  lemma ThirtyTwoSuffice(loans: map<Loan, LoanInfo>, fs: set<Fact>)
    ensures Closed(loans, Rounds(loans, fs, 32))
  {
    var m := Rounds(loans, fs, 32);
    forall rule, f, g | f in m && g in m ensures Fire(rule, loans, f, g) <= m
    {
      forall h | h in Fire(rule, loans, f, g) ensures h in m
      {
        if rule.Transitivity? {
          BackedRounds(loans, fs, 32);
          var left :| Behind(fs, f, left);
          var right :| Behind(fs, g, right);
          var vs := Joined(fs, f.point, left, right);
          var ws := Shortened(fs, f.point, vs);
          TwoTo32();
          WalkShortcut(loans, fs, 32, f.point, ws);
        } else {
          RoundHas(loans, fs, rule, f, g, h);
          assert Rounds(loans, fs, 1) == Round(loans, Rounds(loans, fs, 0));
          RoundsGrow(loans, fs, 1, 32, h);
        }
      }
    }
  }
}
