/** What the solved facts say, fact by fact and in terms of the initial ones alone. */
module PoloniusMeaning {
  import opened PoloniusSolver

  /** Two loans cannot stand together if one is mutable, or both are two-phase. */
  predicate Incompatible(a: LoanKind, b: LoanKind) { a.Mut? || b.Mut? || (a.TwoPhaseMut? && b.TwoPhaseMut?) }

  /** Both loans are taken at the point, of one place, and cannot stand together. */
  ghost predicate Clashing(loans: map<Loan, LoanInfo>, fs: set<Fact>, l: Loan, m: Loan, p: Point) {
    && l != m && BorrowAt(l, p) in fs && BorrowAt(m, p) in fs && l in loans && m in loans
    && loans[l].root == loans[m].root && Incompatible(loans[l].kind, loans[m].kind)
  }

  /** The loan is invalidated at the point, and has been taken by then. */
  ghost predicate Killed(fs: set<Fact>, l: Loan, p: Point) {
    LoanInvalidated(l, p) in fs && exists q :: 0 <= q <= p && BorrowAt(l, q) in fs
  }

  /** A chain of initial subset facts at the point leads from one loan to the other. */
  ghost predicate Leads(fs: set<Fact>, a: Loan, b: Loan, p: Point) {
    exists vs :: Chain(fs, p, vs) && vs[0] == a && vs[|vs| - 1] == b
  }

  ghost predicate Means(loans: map<Loan, LoanInfo>, initial: set<Fact>, f: Fact) {
    f in initial
    || match f
       case BorrowAt(_, _) => false
       case LoanInvalidated(_, _) => false
       case Subset(a, b, p) => Leads(initial, a, b, p)
       case Conflict(l, m, p) => Clashing(loans, initial, l, m, p)
       case Error(l, p) => Killed(initial, l, p) || exists m :: Clashing(loans, initial, l, m, p)
  }

  lemma OneStepLeads(fs: set<Fact>, a: Loan, b: Loan, p: Point)
    requires Subset(a, b, p) in fs
    ensures Leads(fs, a, b, p)
  {
    assert Chain(fs, p, [a, b]) && [a, b][0] == a && [a, b][1] == b;
  }

  lemma {:induction false} LeadsOn(fs: set<Fact>, a: Loan, b: Loan, c: Loan, p: Point)
    requires Leads(fs, a, b, p) && Leads(fs, b, c, p)
    ensures Leads(fs, a, c, p)
  {
    var us :| Chain(fs, p, us) && us[0] == a && us[|us| - 1] == b;
    var vs :| Chain(fs, p, vs) && vs[0] == b && vs[|vs| - 1] == c;
    var ws := Joined(fs, p, us, vs);
    assert Chain(fs, p, ws);
  }

  /** What a rule derives from facts with a meaning has one. */
  lemma {:induction false} FireMeans(loans: map<Loan, LoanInfo>, initial: set<Fact>, rule: Rule, f: Fact, g: Fact, h: Fact)
    requires Means(loans, initial, f) && Means(loans, initial, g) && h in Fire(rule, loans, f, g)
    ensures Means(loans, initial, h)
  {
    match rule
    case Transitivity =>
      if f in initial { OneStepLeads(initial, f.outer, f.inner, f.point); }
      if g in initial { OneStepLeads(initial, g.outer, g.inner, g.point); }
      LeadsOn(initial, f.outer, f.inner, g.inner, f.point);
    case Invalidation =>
    case Collision =>
      assert Clashing(loans, initial, f.loan, g.loan, f.point);
  }

  lemma {:induction false} OnlyMeant(loans: map<Loan, LoanInfo>, initial: set<Fact>, fs: set<Fact>)
    requires LeastModel(loans, initial, fs)
    ensures forall f :: f in fs ==> Means(loans, initial, f)
  {
    var meant := set f | f in fs && Means(loans, initial, f);
    forall rule, f, g | f in meant && g in meant ensures Fire(rule, loans, f, g) <= meant {
      assert Fire(rule, loans, f, g) <= fs;
      forall h | h in Fire(rule, loans, f, g) ensures h in meant { FireMeans(loans, initial, rule, f, g, h); }
    }
    assert Closed(loans, meant);
    assert fs <= meant;
  }

  lemma {:induction false} ChainSolved(loans: map<Loan, LoanInfo>, fs: set<Fact>, p: Point, vs: seq<Loan>)
    requires Closed(loans, fs) && Chain(fs, p, vs)
    ensures Subset(vs[0], vs[|vs| - 1], p) in fs
    decreases |vs|
  {
    if |vs| > 2 {
      var left, right := ChainSplit(fs, p, vs, 1);
      ChainSolved(loans, fs, p, right);
      var f, g := Subset(vs[0], vs[1], p), Subset(vs[1], vs[|vs| - 1], p);
      assert Fire(Transitivity, loans, f, g) <= fs;
      assert Subset(vs[0], vs[|vs| - 1], p) in Fire(Transitivity, loans, f, g);
    }
  }

  /** Everything meant is derived. */
  lemma {:induction false} AllDerived(loans: map<Loan, LoanInfo>, initial: set<Fact>, fs: set<Fact>, f: Fact)
    requires LeastModel(loans, initial, fs) && Means(loans, initial, f)
    ensures f in fs
  {
    if f !in initial {
      match f
      case Subset(a, b, p) =>
        var vs :| Chain(initial, p, vs) && vs[0] == a && vs[|vs| - 1] == b;
        assert Chain(fs, p, vs);
        ChainSolved(loans, fs, p, vs);
      case Conflict(l, m, p) => ClashDerived(loans, initial, fs, l, m, p);
      case Error(l, p) =>
        if Killed(initial, l, p) {
          var q :| 0 <= q <= p && BorrowAt(l, q) in initial;
          assert Fire(Invalidation, loans, BorrowAt(l, q), LoanInvalidated(l, p)) <= fs;
        } else {
          var m :| Clashing(loans, initial, l, m, p);
          ClashDerived(loans, initial, fs, l, m, p);
        }
    }
  }

  lemma ClashDerived(loans: map<Loan, LoanInfo>, initial: set<Fact>, fs: set<Fact>, l: Loan, m: Loan, p: Point)
    requires LeastModel(loans, initial, fs) && Clashing(loans, initial, l, m, p)
    ensures Conflict(l, m, p) in fs && Error(l, p) in fs
  {
    assert Fire(Collision, loans, BorrowAt(l, p), BorrowAt(m, p)) <= fs;
  }

  /** The solved facts are exactly those with a meaning: subset facts are chains of
      initial ones, conflicts are pairs of incompatible loans of one place taken at one
      point, and errors are such loans and those invalidated after they were taken. */
  lemma SolvedMeans(loans: map<Loan, LoanInfo>, initial: set<Fact>, fs: set<Fact>, f: Fact)
    requires LeastModel(loans, initial, fs)
    ensures f in fs <==> Means(loans, initial, f)
  {
    OnlyMeant(loans, initial, fs);
    if Means(loans, initial, f) { AllDerived(loans, initial, fs, f); }
  }
}
