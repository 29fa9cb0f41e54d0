/** What single statements do to a borrow that other names may hold: through the
    checker, and along a path. */
module FlowSteps {
  import opened Wrappers
  import opened Hir
  import opened Places
  import opened Nll
  import opened FlowState
  import opened FlowActs
  import opened FlowPaths
  import opened FlowTheorems
  import opened FlowBodies
  import F = Flow

  /** A `let` of a reference. */
  function LetRef(y: string, mutable: bool, init: Expr): Stmt {
    Let(Named(y, RefTy(mutable, PlainTy(false)), Real(!mutable, true, true)), Some(init), false)
  }

  function Lend(x: string, mutable: bool): Expr { Borrow(mutable, Var(x)) }

  /** A `let mut` of a value that can hold a reference. */
  function LetHolder(v: string): Stmt { Let(Named(v, PlainTy(false), Real(false, false, true)), Some(Literal), true) }

  // ----- reads -----

  lemma StmtReads(x: string, y: string, mutable: bool)
    ensures ReadsStmt(LetRef(y, mutable, Lend(x, mutable))) == [x] && ReadsStmt(LetRef(y, mutable, Var(x))) == [x]
    ensures ReadsStmt(ExprStmt(Move(Var(x)))) == [x] && ReadsStmt(ExprStmt(Var(x))) == [x]
    ensures ReadsStmt(LetHolder(y)) == []
  {
    assert Reads(Var(x)) == [x] && Reads(Lend(x, mutable)) == [x] && Reads(Move(Var(x))) == [x];
  }

  lemma ValueReads(x: string, copy: bool, mutable: bool)
    ensures ReadsStmt(LetValue(x, copy, mutable)) == []
  {
  }

  lemma FirstReads(s: Stmt, rest: seq<Stmt>)
    ensures ReadsStmts([s] + rest) == ReadsStmt(s) + ReadsStmts(rest)
  {
    assert ([s] + rest)[1..] == rest;
  }

  lemma LastReads(b: Block, i: nat)
    requires i < |ReadsBlock(b)| && ReadsBlock(b)[i] !in ReadsBlock(b)[i + 1..]
    ensures var x := ReadsBlock(b)[i]; x in LastUses(b) && LastUses(b)[x] == i
  {
    var names, x := ReadsBlock(b), ReadsBlock(b)[i];
    LastOccurrence(names, x);
    var n := LastUses(b)[x];
    assert forall k :: n < k < |names| ==> names[k] == names[n + 1..][k - n - 1];
    assert forall k :: i < k < |names| ==> names[k] == names[i + 1..][k - i - 1];
  }

  // ----- a path only adds holders -----

  predicate Outgrows(k: Held, l: Held) { k.place == l.place && k.kind == l.kind && l.holders <= k.holders && l.until <= k.until }

  ghost predicate Grown(ps: PathState, r: PathState) {
    && r.lastUse == ps.lastUse && ps.ties <= r.ties && r.point >= ps.point && (ps.closures == [] ==> r.closures == [])
    && forall l :: l in ps.live ==> exists k :: k in r.live && Outgrows(k, l)
  }

  lemma GrownTwice(a: PathState, b: PathState, c: PathState)
    requires Grown(a, b) && Grown(b, c)
    ensures Grown(a, c)
  {
    forall l | l in a.live ensures exists k :: k in c.live && Outgrows(k, l)
    {
      var k :| k in b.live && Outgrows(k, l);
      var j :| j in c.live && Outgrows(j, k);
      assert Outgrows(j, l);
    }
  }

  /** `y` may hold a borrow of the whole of `x`. */
  ghost predicate Has(ps: PathState, x: string, kind: F.BorrowKind, y: string) {
    exists l :: l in ps.live && l.place == Place(x, []) && l.kind == kind && y in l.holders
  }

  /** A value being computed holds a borrow of the whole of `x`. */
  ghost predicate Pinned(ps: PathState, x: string, kind: F.BorrowKind, until: nat) {
    exists l :: l in ps.live && l.place == Place(x, []) && l.kind == kind && until <= l.until
  }

  lemma StillHas(ps: PathState, r: PathState, x: string, kind: F.BorrowKind, y: string)
    requires Grown(ps, r) && Has(ps, x, kind, y)
    ensures Has(r, x, kind, y)
  {
    var l :| l in ps.live && l.place == Place(x, []) && l.kind == kind && y in l.holders;
    var k :| k in r.live && Outgrows(k, l);
    assert y in k.holders;
  }

  lemma StillPinned(ps: PathState, r: PathState, x: string, kind: F.BorrowKind, until: nat)
    requires Grown(ps, r) && Pinned(ps, x, kind, until)
    ensures Pinned(r, x, kind, until)
  {
    var l :| l in ps.live && l.place == Place(x, []) && l.kind == kind && until <= l.until;
    var k :| k in r.live && Outgrows(k, l);
    assert until <= k.until;
  }

  /** A borrow of `x` that is alive clashes with a mutable one. */
  lemma HasClashes(ps: PathState, x: string, kind: F.BorrowKind, y: string, again: F.BorrowKind)
    requires Has(ps, x, kind, y) && Later(ps.lastUse, y, ps.point) && (kind == F.Mut || again == F.Mut)
    ensures Clashes(ps, Place(x, []), again)
  {
    var l :| l in ps.live && l.place == Place(x, []) && l.kind == kind && y in l.holders;
    assert Alive(l, ps.lastUse, ps.point) && Meets(l.place, Place(x, []));
  }

  lemma PinnedClashes(ps: PathState, x: string, kind: F.BorrowKind, until: nat, again: F.BorrowKind)
    requires Pinned(ps, x, kind, until) && ps.point < until && (kind == F.Mut || again == F.Mut)
    ensures Clashes(ps, Place(x, []), again)
  {
    var l :| l in ps.live && l.place == Place(x, []) && l.kind == kind && until <= l.until;
    assert Alive(l, ps.lastUse, ps.point) && Meets(l.place, Place(x, []));
  }

  /** Reading `a` hands its borrows on, and pins them. */
  lemma FollowGrows(ps: PathState, a: string)
    ensures Grown(ps, Follow(ps, a))
    ensures forall x, kind :: Has(ps, x, kind, a) ==> Pinned(Follow(ps, a), x, kind, ps.limit)
    ensures forall x, kind, y :: Has(ps, x, kind, a) && y in ps.passing && y != x ==> Has(Follow(ps, a), x, kind, y)
  {
    var r := Follow(ps, a);
    forall l | l in ps.live ensures exists k :: k in r.live && Outgrows(k, l) && k == HandOn(l, a, ps.passing, ps.limit)
    {
      var i :| 0 <= i < |ps.live| && ps.live[i] == l;
      assert r.live[i] in r.live && Outgrows(r.live[i], l);
    }
    forall x, kind | Has(ps, x, kind, a)
      ensures Pinned(r, x, kind, ps.limit) && forall y :: y in ps.passing && y != x ==> Has(r, x, kind, y)
    {
      var l :| l in ps.live && l.place == Place(x, []) && l.kind == kind && a in l.holders;
      var k :| k in r.live && Outgrows(k, l) && k == HandOn(l, a, ps.passing, ps.limit);
      assert ps.limit <= k.until && forall y :: y in ps.passing && y != x ==> y in k.holders;
    }
  }

  lemma TakeGrows(ps: PathState, x: string, kind: F.BorrowKind)
    ensures Grown(ps, Take(ps, Place(x, []), kind))
    ensures forall y :: y in ps.passing && y != x ==> Has(Take(ps, Place(x, []), kind), x, kind, y)
    ensures Lookup(ps.frames, x).Some? && Lookup(ps.frames, x).value.carries
            ==> forall y :: y in ps.passing ==> (x, y) in Take(ps, Place(x, []), kind).ties
  {
    var r, n := Take(ps, Place(x, []), kind), |ps.live|;
    forall l | l in ps.live ensures exists k :: k in r.live && Outgrows(k, l)
    {
      assert l in r.live && Outgrows(l, l);
    }
    assert r.live[n] in r.live;
  }

  /** Every live borrow is shared. */
  predicate AllShared(ps: PathState) { forall l :: l in ps.live ==> l.kind == F.Shared }

  lemma FollowShared(ps: PathState, a: string)
    requires AllShared(ps)
    ensures AllShared(Follow(ps, a))
  {
    var r := Follow(ps, a);
    forall l | l in r.live ensures l.kind == F.Shared
    {
      var i :| 0 <= i < |r.live| && r.live[i] == l;
      assert ps.live[i] in ps.live;
    }
  }

  /** A call of the lambdas it is given changes neither borrows nor ties. */
  lemma {:induction false} InvokeKeeps(ps: PathState, cs: seq<Closure>, names: set<string>)
    ensures var r := Invoke(ps, cs, names); r == ps.(frames := r.frames, misuse := r.misuse, torn := r.torn)
    decreases |cs|
  {
    if cs != [] {
      var ps0 := ReadAll(ps, cs[0].uses);
      MoveAllKeeps(ps0, cs[0].moves);
      InvokeKeeps(if Called(cs[0], names, ps.point) then MoveAll(ps0, cs[0].moves) else ps, cs[1..], names);
    }
  }

  lemma {:induction false} MoveAllKeeps(ps: PathState, xs: seq<string>)
    ensures var r := MoveAll(ps, xs); r == ps.(frames := r.frames, misuse := r.misuse, torn := r.torn)
    decreases |xs|
  {
    if xs != [] { MoveAllKeeps(MoveOut(ps, xs[0]), xs[1..]); }
  }

  // ----- statements on a path -----

  lemma LetRefRuns(y: string, mutable: bool, init: Expr, ps: PathState)
    ensures
      var ps1 := Back(Run(init, F.Use, Whole(ps, {y}, |Reads(init)|)), ps);
      RunStmt(LetRef(y, mutable, init), ps) == ps1.(frames := Declare(ps1.frames, y, Slot(Ready, !mutable, true, true)))
  {
    var ty, actual := RefTy(mutable, PlainTy(false)), Real(!mutable, true, true);
    var ps1, cx := RunFor(init, {y}, ps), F.Cx(map[], [], [], map[], 0, None, []);
    NamedBinds(y, ty, actual);
    LetUnfolds(Named(y, ty, actual), init, false, cx, ps);
    ForSteps(init, {y}, ps);
    BindOne(F.BindingOf(y, ty, actual), false, cx, ps1);
  }

  lemma LentRun(x: string, mutable: bool, ps: PathState)
    requires x in InScope(ps.frames)
    ensures Run(Lend(x, mutable), F.Use, ps) == Tick(Follow(Take(ps, Place(x, []), Kind(mutable)), x))
  {
    RootPlace(x, InScope(ps.frames));
    assert RunBorrow(Lend(x, mutable), ps) == PlaceReads(Var(x), Take(ps, Place(x, []), Kind(mutable)));
    BorrowSteps(Lend(x, mutable), F.Cx(map[], [], [], map[], 0, None, []), ps);
  }

  /** A borrow of a whole local, on the way to some names. */
  lemma {:induction false} LendRun(x: string, mutable: bool, ps: PathState) returns (r: PathState)
    requires x in InScope(ps.frames)
    ensures r == Run(Lend(x, mutable), F.Use, ps) && Grown(ps, r) && r.frames == ps.frames && r.point == ps.point + 1
    ensures r.clash <==> ps.clash || Clashes(ps, Place(x, []), Kind(mutable))
    ensures forall y :: y in ps.passing && y != x ==> Has(r, x, Kind(mutable), y)
    ensures Lookup(ps.frames, x).value.carries ==> forall y :: y in ps.passing ==> (x, y) in r.ties
    ensures AllShared(ps) && !mutable ==> AllShared(r)
  {
    var ps1 := Take(ps, Place(x, []), Kind(mutable));
    var ps2 := Follow(ps1, x);
    LentRun(x, mutable, ps);
    TakeGrows(ps, x, Kind(mutable));
    FollowGrows(ps1, x);
    GrownTwice(ps, ps1, ps2);
    forall y | y in ps.passing && y != x ensures Has(ps2, x, Kind(mutable), y)
    {
      StillHas(ps1, ps2, x, Kind(mutable), y);
    }
    if AllShared(ps) && !mutable { FollowShared(ps1, x); }
    r := Tick(ps2);
  }

  lemma DeclareLookup(fs: Frames, y: string, slot: Slot, x: string)
    requires fs != []
    ensures Lookup(Declare(fs, y, slot), x) == if x == y then Some(slot) else Lookup(fs, x)
  {
    assert Declare(fs, y, slot)[..|fs| - 1] == fs[..|fs| - 1];
  }

  /** `let y = &mut x;` or `let y = &x;` */
  lemma {:induction false} LendRuns(x: string, y: string, mutable: bool, ps: PathState) returns (r: PathState)
    requires x != y && x in InScope(ps.frames)
    ensures r == RunStmt(LetRef(y, mutable, Lend(x, mutable)), ps) && Grown(ps, r) && r.point == ps.point + 1
    ensures r.clash <==> ps.clash || Clashes(ps, Place(x, []), Kind(mutable))
    ensures Has(r, x, Kind(mutable), y) && r.frames == Declare(ps.frames, y, Slot(Ready, !mutable, true, true))
    ensures Lookup(ps.frames, x).value.carries ==> (x, y) in r.ties
    ensures AllShared(ps) && !mutable ==> AllShared(r)
  {
    var ps0 := Whole(ps, {y}, |Reads(Lend(x, mutable))|);
    LetRefRuns(y, mutable, Lend(x, mutable), ps);
    assert Clashes(ps0, Place(x, []), Kind(mutable)) <==> Clashes(ps, Place(x, []), Kind(mutable));
    var ps1 := LendRun(x, mutable, ps0);
    assert Has(ps1, x, Kind(mutable), y);
    r := RunStmt(LetRef(y, mutable, Lend(x, mutable)), ps);
    assert r.live == ps1.live && r.ties == ps1.ties;
  }

  /** A path that reads a name. */
  lemma {:induction false} ReadRun(y: string, ps: PathState) returns (r: PathState)
    ensures r == Run(Var(y), F.Use, ps) && Grown(ps, r) && r.frames == ps.frames && r.point == ps.point + 1 && r.clash == ps.clash
    ensures forall x, kind :: Has(ps, x, kind, y) ==> Pinned(r, x, kind, ps.limit)
    ensures forall x, kind, z :: Has(ps, x, kind, y) && z in ps.passing && z != x ==> Has(r, x, kind, z)
    ensures AllShared(ps) ==> AllShared(r)
  {
    r := Run(Var(y), F.Use, ps);
    ReadFollows(y, ps);
    FollowGrows(ps, y);
    if AllShared(ps) { FollowShared(ps, y); }
  }

  lemma ReadFollows(y: string, ps: PathState)
    ensures
      var r, f := Run(Var(y), F.Use, ps), Follow(ps, y);
      r.live == f.live && r.closures == f.closures && r.ties == f.ties && r.leaks == f.leaks
      && r.frames == ps.frames && r.point == ps.point + 1 && r.clash == ps.clash && r.lastUse == ps.lastUse
  {
    PathSteps(Var(y), F.Use, F.Cx(map[], [], [], map[], 0, None, []), ps);
    assert Run(Var(y), F.Use, ps) == OnPath(ps, [y], F.Use);
  }

  /** `let z = y;` */
  lemma {:induction false} CopyRuns(x: string, y: string, z: string, kind: F.BorrowKind, ps: PathState) returns (r: PathState)
    requires Has(ps, x, kind, y) && z != x
    ensures r == RunStmt(LetRef(z, true, Var(y)), ps) && Grown(ps, r) && r.point == ps.point + 1 && r.clash == ps.clash
    ensures Has(r, x, kind, z) && r.frames == Declare(ps.frames, z, Slot(Ready, false, true, true))
  {
    var ps0 := Whole(ps, {z}, |Reads(Var(y))|);
    LetRefRuns(z, true, Var(y), ps);
    assert Has(ps0, x, kind, y);
    var ps1 := ReadRun(y, ps0);
    r := RunStmt(LetRef(z, true, Var(y)), ps);
    assert Has(ps1, x, kind, z) && r.live == ps1.live;
  }

  /** `y;` */
  lemma {:induction false} ReadRuns(y: string, ps: PathState) returns (r: PathState)
    ensures r == RunStmt(ExprStmt(Var(y)), ps) && Grown(ps, r) && r.frames == ps.frames && r.point == ps.point + 1 && r.clash == ps.clash
  {
    var ps0 := Whole(ps, {}, |Reads(Var(y))|);
    ExprSteps(Var(y), F.Cx(map[], [], [], map[], 0, None, []), ps);
    ForSteps(Var(y), {}, ps);
    var ps1 := ReadRun(y, ps0);
    r := Back(ps1, ps);
  }

  lemma {:induction false} HolderRuns(v: string, cx: F.Cx, ps: PathState) returns (r: PathState)
    requires ps.frames != []
    ensures r == RunStmt(LetHolder(v), ps) && r == ps.(frames := Declare(ps.frames, v, Slot(Ready, false, false, true)))
    ensures F.WalkStmt(LetHolder(v), cx) == F.Bind(cx, v, F.Local(F.Owned, true, false, false))
  {
    var ty, actual := PlainTy(false), Real(false, false, true);
    NamedBinds(v, ty, actual);
    LetSteps(Named(v, ty, actual), Literal, true, cx, ps);
    BindOne(F.BindingOf(v, ty, actual), true, cx, ps);
    r := RunStmt(LetHolder(v), ps);
  }

  // ----- statements through the checker -----

  /** Nothing reported, everything usable. */
  ghost predicate Fine(cx: F.Cx) {
    && cx.diag == [] && cx.pending.None?
    && forall y :: y in cx.locals ==> !cx.locals[y].state.Moved? && !cx.locals[y].state.Uninit?
  }

  predicate Mutable(cx: F.Cx, x: string) { x in cx.locals && cx.locals[x].mutable }

  /** Same names, same declarations. */
  ghost predicate SameLocals(cx: F.Cx, r: F.Cx) {
    cx.locals.Keys <= r.locals.Keys
    && forall x :: x in cx.locals ==> r.locals[x].mutable == cx.locals[x].mutable && r.locals[x].reference == cx.locals[x].reference
  }

  lemma DecayIsFine(y: string, cx: F.Cx)
    requires Fine(cx.(pending := None))
    ensures var r := F.DecayAfterUse(cx, y); Fine(r.(pending := None)) && SameLocals(cx, r) && r.locals.Keys == cx.locals.Keys
  {
    var r := F.DecayAfterUse(cx, y);
    forall z | z in r.locals ensures F.SameButBorrows(cx.locals[z], r.locals[z])
    {
      assert z in cx.locals;
    }
  }

  /** No record of `x`, and none under its name. */
  predicate Unlent(ledger: F.Ledger, x: string) { forall r :: r in ledger ==> r.place.root != x && r.borrower != Some(x) }

  lemma {:induction false} NoneHeld(ledger: F.Ledger, x: string)
    requires forall r :: r in ledger ==> r.borrower != Some(x)
    ensures F.Without(ledger, {x}) == ledger && F.Held(ledger, {x}) == []
    decreases |ledger|
  {
    if ledger != [] { NoneHeld(ledger[1..], x); }
  }

  lemma {:induction false} DropLast(ledger: F.Ledger, l: F.Loan, x: string)
    requires (forall r :: r in ledger ==> r.borrower != Some(x)) && l.borrower == Some(x)
    ensures F.Without(ledger + [l], {x}) == ledger
    decreases |ledger|
  {
    if ledger == [] {
      assert ledger + [l] == [l] && F.Without([], {x}) == [];
    } else {
      assert (ledger + [l])[1..] == ledger[1..] + [l];
      DropLast(ledger[1..], l, x);
    }
  }

  lemma WithoutFirst(l: F.Loan, ledger: F.Ledger, x: string)
    ensures F.Without([l] + ledger, {x}) == (if l.borrower == Some(x) then [] else [l]) + F.Without(ledger, {x})
  {
    assert ([l] + ledger)[1..] == ledger;
  }

  lemma LetRefWalks(y: string, mutable: bool, init: Expr, cx: F.Cx)
    ensures
      F.WalkStmt(LetRef(y, mutable, init), cx)
      == F.Bind(F.Walk(init, F.Use, cx.(pending := Some(y))).(pending := cx.pending), y, F.Local(F.Owned, false, !mutable, true))
  {
    var ty, actual := RefTy(mutable, PlainTy(false)), Real(!mutable, true, true);
    var cx1 := F.Walk(init, F.Use, cx.(pending := Some(y))).(pending := cx.pending);
    var ps := Blank([], Block([], None), []);
    NamedBinds(y, ty, actual);
    LetUnfolds(Named(y, ty, actual), init, false, cx, ps);
    BindOne(F.BindingOf(y, ty, actual), false, cx1, ps);
  }

  lemma LentWalk(x: string, mutable: bool, cx: F.Cx)
    requires x in cx.locals
    ensures F.Walk(Lend(x, mutable), F.Use, cx) == F.DecayAfterUse(F.Advance(F.TryBorrow(cx, Place(x, []), Kind(mutable))), x)
  {
    var e := Lend(x, mutable);
    RootPlace(x, cx.locals.Keys);
    assert F.WalkBorrow(e, cx) == F.PointsOnly(Var(x), F.TryBorrow(cx, Place(x, []), Kind(mutable)));
    assert F.Walk(e, F.Use, cx) == F.WalkBorrow(e, cx);
  }

  /** A borrow of a whole local that no record is of. */
  lemma {:induction false} LendWalk(x: string, mutable: bool, cx: F.Cx) returns (r: F.Cx)
    requires Fine(cx.(pending := None)) && Mutable(cx, x) && Unlent(cx.ledger, x) && cx.pending != Some(x)
    ensures r == F.Walk(Lend(x, mutable), F.Use, cx) && Fine(r.(pending := None)) && r.pending == cx.pending
    ensures r.ledger == cx.ledger + [F.Loan(Place(x, []), Kind(mutable), cx.pending)]
    ensures r.point == cx.point + 1 && r.lastUse == cx.lastUse && SameLocals(cx, r) && r.locals.Keys == cx.locals.Keys
  {
    var cx1 := F.TryBorrow(cx, Place(x, []), Kind(mutable));
    LentWalk(x, mutable, cx);
    NoConflict(cx.ledger, x, Kind(mutable));
    assert cx1.diag == [] && SameLocals(cx, cx1);
    DecayIsFine(x, F.Advance(cx1));
    NoneHeld(cx1.ledger, x);
    r := F.DecayAfterUse(F.Advance(cx1), x);
  }

  lemma NoConflict(ledger: F.Ledger, x: string, kind: F.BorrowKind)
    requires Unlent(ledger, x)
    ensures F.Conflict(ledger, Place(x, []), kind) == []
  {
  }

  /** `let y = &mut x;` or `let y = &x;` */
  lemma {:induction false} LendWalks(x: string, y: string, mutable: bool, cx: F.Cx) returns (r: F.Cx)
    requires x != y && Fine(cx) && Mutable(cx, x) && Unlent(cx.ledger, x)
    ensures r == F.WalkStmt(LetRef(y, mutable, Lend(x, mutable)), cx) && Fine(r)
    ensures r.ledger == cx.ledger + [F.Loan(Place(x, []), Kind(mutable), Some(y))]
    ensures r.point == cx.point + 1 && r.lastUse == cx.lastUse && r.locals.Keys == cx.locals.Keys + {y} && r.locals[y].reference
    ensures forall z :: z != y && Mutable(cx, z) ==> Mutable(r, z) && r.locals[z].reference == cx.locals[z].reference
  {
    LetRefWalks(y, mutable, Lend(x, mutable), cx);
    var cx1 := LendWalk(x, mutable, cx.(pending := Some(y)));
    r := F.WalkStmt(LetRef(y, mutable, Lend(x, mutable)), cx);
  }

  /** A use of any name. */
  lemma {:induction false} ReadWalk(y: string, cx: F.Cx) returns (r: F.Cx)
    requires Fine(cx.(pending := None))
    ensures r == F.Walk(Var(y), F.Use, cx) && r == F.DecayAfterUse(F.Advance(cx), y)
    ensures Fine(r.(pending := None)) && SameLocals(cx, r) && r.locals.Keys == cx.locals.Keys
    ensures r.point == cx.point + 1 && r.lastUse == cx.lastUse && r.pending == cx.pending
    ensures (forall l :: l in cx.ledger ==> l.borrower != Some(y)) ==> r.ledger == cx.ledger
  {
    r := F.Walk(Var(y), F.Use, cx);
    assert F.Walk(Var(y), F.Use, cx) == F.WalkPath(cx, [y], F.Use);
    assert F.TouchPath(F.Advance(cx), [y], F.Use) == F.Advance(cx);
    DecayIsFine(y, F.Advance(cx));
    if forall l :: l in cx.ledger ==> l.borrower != Some(y) { NoneHeld(cx.ledger, y); }
  }

  /** The last read of the holder of the newest record. */
  lemma {:induction false} LastReadWalk(y: string, l: F.Loan, ledger: F.Ledger, cx: F.Cx) returns (r: F.Cx)
    requires Fine(cx.(pending := None)) && cx.ledger == ledger + [l] && l.borrower == Some(y)
    requires (forall k :: k in ledger ==> k.borrower != Some(y)) && y in cx.lastUse && cx.lastUse[y] <= cx.point
    ensures r == F.Walk(Var(y), F.Use, cx) && r.ledger == ledger
    ensures Fine(r.(pending := None)) && SameLocals(cx, r) && r.locals.Keys == cx.locals.Keys
    ensures r.point == cx.point + 1 && r.lastUse == cx.lastUse && r.pending == cx.pending
  {
    r := ReadWalk(y, cx);
    DropLast(ledger, l, y);
  }

  /** `let z = y;` */
  lemma {:induction false} CopyWalks(y: string, z: string, cx: F.Cx) returns (r: F.Cx)
    requires Fine(cx)
    ensures r == F.WalkStmt(LetRef(z, true, Var(y)), cx) && Fine(r) && r.point == cx.point + 1 && r.lastUse == cx.lastUse
    ensures r.ledger == F.DecayAfterUse(F.Advance(cx), y).ledger
    ensures forall x :: x != z && Mutable(cx, x) ==> Mutable(r, x)
  {
    LetRefWalks(z, true, Var(y), cx);
    var cx1 := ReadWalk(y, cx.(pending := Some(z)));
    r := F.WalkStmt(LetRef(z, true, Var(y)), cx);
  }

  lemma StmtWalks(e: Expr, cx: F.Cx)
    ensures F.WalkStmt(ExprStmt(e), cx) == F.Walk(e, F.Use, cx)
  {
  }

  lemma FirstWalk(s: Stmt, rest: seq<Stmt>, cx: F.Cx)
    ensures F.WalkStmts([s] + rest, cx) == F.WalkStmts(rest, F.WalkStmt(s, cx))
  {
    assert ([s] + rest)[0] == s && ([s] + rest)[1..] == rest;
  }

  lemma FirstRun(s: Stmt, rest: seq<Stmt>, ps: PathState)
    ensures RunStmts([s] + rest, ps) == RunStmts(rest, RunStmt(s, ps))
  {
    assert ([s] + rest)[0] == s && ([s] + rest)[1..] == rest;
  }

  lemma TwoReadsRun(y: string, z: string, ps: PathState)
    ensures RunStmts([ExprStmt(Var(y))] + ([ExprStmt(Var(z))] + []), ps).clash == ps.clash
  {
    var ps1 := ReadRuns(y, ps);
    var ps2 := ReadRuns(z, ps1);
    FirstRun(ExprStmt(Var(y)), [ExprStmt(Var(z))] + [], ps);
    FirstRun(ExprStmt(Var(z)), [], ps1);
    assert RunStmts([], ps2) == ps2;
  }

  /** The two last reads of a body, the second of the only named record. */
  lemma {:induction false} TwoReadsWalk(y: string, z: string, l: F.Loan, ledger: F.Ledger, cx: F.Cx)
    requires Fine(cx) && cx.ledger == ledger + [l] && l.borrower == Some(z) && y != z
    requires (forall k :: k in ledger ==> k.borrower.None?) && z in cx.lastUse && cx.lastUse[z] <= cx.point + 1
    ensures var r := F.WalkStmts([ExprStmt(Var(y))] + ([ExprStmt(Var(z))] + []), cx); r.diag == [] && r.ledger == ledger
  {
    var cx1 := ReadWalk(y, cx);
    var cx2 := LastReadWalk(z, l, ledger, cx1);
    StmtWalks(Var(y), cx);
    StmtWalks(Var(z), cx1);
    FirstWalk(ExprStmt(Var(y)), [ExprStmt(Var(z))] + [], cx);
    FirstWalk(ExprStmt(Var(z)), [], cx1);
    assert F.WalkStmts([], cx2) == cx2;
  }

  // ----- the start of a body -----

  lemma {:induction false} Opens(ss: seq<Stmt>, choices: seq<nat>) returns (cx: F.Cx, ps: PathState)
    ensures Entered(ss, choices, cx, ps) && Fine(cx) && cx.locals == map[] && cx.ledger == [] && cx.point == 0
    ensures cx.lastUse == ps.lastUse == LastUses(Block(ss, None))
    ensures ps.frames != [] && Calm(ps) && ps.point == 0 && !ps.clash && !ps.misuse && AllShared(ps)
  {
    cx, ps := F.Cx(map[], [[], []], [], LastUses(Block(ss, None)), 0, None, []), Open(Blank([], Block(ss, None), choices));
  }

  /** `let mut x = ..;` */
  lemma {:induction false} ValueStarts(x: string, cx: F.Cx, ps: PathState) returns (cx1: F.Cx, ps1: PathState)
    requires Fine(cx) && ps.frames != []
    ensures cx1 == F.WalkStmt(LetValue(x, false, true), cx) && ps1 == RunStmt(LetValue(x, false, true), ps)
    ensures Fine(cx1) && cx1 == cx.(locals := cx.locals[x := F.Local(F.Owned, true, false, false)], scopes := cx1.scopes)
    ensures ps1 == ps.(frames := Declare(ps.frames, x, Slot(Ready, false, false, false))) && ps1.frames != []
    ensures Lookup(ps1.frames, x) == Some(Slot(Ready, false, false, false))
  {
    LetValueStep(x, false, true, cx, ps);
    cx1, ps1 := F.WalkStmt(LetValue(x, false, true), cx), RunStmt(LetValue(x, false, true), ps);
    DeclareLookup(ps.frames, x, Slot(Ready, false, false, false), x);
  }
}
