/** What the walk accepts is safe on every path. */
module FlowSafety {
  import opened Wrappers
  import opened Hir
  import opened Places
  import opened Nll
  import opened FlowState
  import opened FlowActs
  import opened FlowPaths
  import opened FlowFit
  import F = Flow

  // ----- the simulation relation -----

  /** The diagnostics that matter to a claim. The first includes a borrow that is
      refused outright: such a borrow never reaches the ledger. */
  predicate Rejects(m: Plan, d: F.Diag) {
    match d
    case TwoMutBorrows(_) => true
    case MutBorrowWhileShared(_) => true
    case SharedBorrowWhileMut(_) => true
    case BorrowAfterMove(_) => true
    case UseOfUninit(_) => true
    case UseAfterMove(_) => m.Strict() || m.Owners()
    case MoveOutOfBorrow(_) => m.Strict() || m.Owners()
    case CannotMoveBorrowed(_) => m.Strict() || m.Owners()
    case BorrowOutlivesOwner(_) => m.Scoped()
    case _ => false
  }

  ghost predicate Rejected(m: Plan, diag: seq<F.Diag>) { exists d :: d in diag && Rejects(m, d) }

  /** The walker's view of a local is at least as bad as the path's. */
  predicate LocalOk(m: Plan, l: F.Local, s: Slot) {
    && (l.reference ==> s.reference)
    && (m.Strict() ==> (s.status != Ready ==> l.state.Moved? || l.state.Uninit?) && (l.copy ==> s.copy))
  }

  ghost predicate LocalsOk(m: Plan, locals: F.Locals, fs: Frames) {
    && locals.Keys == InScope(fs)
    && forall x :: x in locals ==> LocalOk(m, locals[x], Lookup(fs, x).value)
  }

  ghost predicate FramesOk(scopes: seq<seq<string>>, fs: Frames) {
    |scopes| == |fs| && forall d :: 0 <= d < |fs| ==> F.NameSet(scopes[d]) == fs[d].Keys
  }

  /** No name is declared in two open frames. */
  ghost predicate Unshadowed(fs: Frames)
    decreases |fs|
  {
    fs == [] || (Unshadowed(fs[..|fs| - 1]) && fs[|fs| - 1].Keys !! InScope(fs[..|fs| - 1]))
  }

  /** Steady locals hold a value, and moving Copy ones out leaves it. */
  predicate SlotOk(m: Plan, x: string, s: Slot) {
    && (x in m.steady ==> s.status == Ready) && (x in m.copies ==> s.copy) && (s.carries ==> x in m.may)
  }

  ghost predicate SlotsOk(m: Plan, fs: Frames) { forall x :: Lookup(fs, x).Some? ==> SlotOk(m, x, Lookup(fs, x).value) }

  function HoldOf(l: Held): Hold { Hold(l.place.root, l.kind) }

  /** A record for the borrow that stands at `t`; at the end of a scope, under a name. */
  ghost predicate Backs(m: Plan, r: F.Loan, l: Held, t: Event) {
    && r.place == Truncate(l.place) && r.kind == l.kind && (t.EndAt? ==> r.borrower.Some?)
    && (r.borrower.Some? ==> var b := r.borrower.value; b in m.may && HoldOf(l) in m.may[b] && Reaches(m, t, b))
  }

  ghost predicate Recorded(m: Plan, ledger: F.Ledger, l: Held, t: Event) {
    exists r :: r in ledger && Backs(m, r, l, t)
  }

  /** The borrow lives at `t`; at the end of a scope, through a name that stays. */
  ghost predicate Felt(m: Plan, l: Held, t: Event) {
    if !t.EndAt? then Alive(l, m.lastUse, t.point) else exists h :: h in l.holders && Reaches(m, t, h)
  }

  ghost predicate HoldsOk(m: Plan, l: Held) { Regular(m, l.place) && forall x :: x in l.holders ==> x in m.may && HoldOf(l) in m.may[x] }

  /** A guard that started before `point` lasts until the move `t`. */
  ghost predicate Promised(m: Plan, t: Event, point: nat)
    requires t.MoveAt?
  {
    exists g :: g in m.guards && g.root == t.root && g.until == t.point && g.from < point
  }

  /** Wherever something that conflicts with a borrow is taken while it lives, and
      wherever its local departs, there is a record; wherever its local is moved, a guard. */
  ghost predicate LoanOk(m: Plan, ledger: F.Ledger, l: Held, point: nat) {
    HoldsOk(m, l) && forall t :: t in m.events && t.point >= point ==> Met(m, ledger, l, t, point)
  }

  ghost predicate Met(m: Plan, ledger: F.Ledger, l: Held, t: Event, point: nat) {
    Hits(HoldOf(l), t) && Felt(m, l, t) ==> if t.MoveAt? then Promised(m, t, point) else Recorded(m, ledger, l, t)
  }

  // ----- guards -----

  /** A record that counts as long as the guard. */
  ghost predicate Keeps(m: Plan, r: F.Loan, g: Guard) {
    r.place.root == g.root
    && (r.borrower.Some? ==> var b := r.borrower.value;
                             b in m.may && Hold(g.root, r.kind) in m.may[b] && Later(m.lastUse, b, g.until))
  }

  /** The walker knows that the local is borrowed. */
  ghost predicate Guarded(m: Plan, locals: F.Locals, ledger: F.Ledger, g: Guard) {
    g.root in locals ==> !locals[g.root].state.Owned? && exists r :: r in ledger && Keeps(m, r, g)
  }

  /** Between the borrow and the move. */
  predicate Active(m: Plan, g: Guard, point: nat) {
    g in m.guards && g.from < point <= g.until && MoveAt(g.root, g.until) in m.events
  }

  ghost predicate GuardsOk(m: Plan, locals: F.Locals, ledger: F.Ledger, point: nat) {
    m.Owners() ==> forall g :: Active(m, g, point) ==> Guarded(m, locals, ledger, g)
  }

  /** The ledger covers the live borrows from `point` on, up to truncation. */
  ghost predicate CoverOk(m: Plan, ledger: F.Ledger, live: seq<Held>, point: nat) {
    forall l :: l in live ==> LoanOk(m, ledger, l, point)
  }

  /** Names are tied within their groups only, and lead outside from open ones only. */
  ghost predicate TiesOk(m: Plan, ties: set<(string, string)>, leaks: set<string>) {
    (forall t :: t in ties ==> m.Clan(t.0) == m.Clan(t.1)) && forall x :: x in leaks ==> m.Clan(x) in m.open
  }

  predicate ClosureOk(m: Plan, c: Closure) { c.moves == [] && (m.Strict() ==> forall x :: x in c.uses ==> x in m.steady) }

  ghost predicate ClosuresOk(m: Plan, cs: seq<Closure>) { forall i :: 0 <= i < |cs| ==> ClosureOk(m, cs[i]) }

  /** What the path alone keeps. */
  ghost predicate PathOk(m: Plan, ps: PathState) {
    && Unshadowed(ps.frames) && SlotsOk(m, ps.frames) && TiesOk(m, ps.ties, ps.leaks) && ClosuresOk(m, ps.closures)
    && ps.lastUse == m.lastUse && ps.horizon == m.horizon && !ps.clash && (m.Strict() ==> !ps.misuse) && (m.Scoped() ==> !ps.dangling) && (m.Owners() ==> !ps.torn)
  }

  /** The walker covers the path, its borrows from `from` on. */
  ghost predicate SimFrom(m: Plan, cx: F.Cx, ps: PathState, from: nat) {
    && PathOk(m, ps) && FramesOk(cx.scopes, ps.frames) && LocalsOk(m, cx.locals, ps.frames)
    && CoverOk(m, cx.ledger, ps.live, from) && cx.point == ps.point && cx.lastUse == m.lastUse
    && GuardsOk(m, cx.locals, cx.ledger, from)
  }

  ghost predicate Sim(m: Plan, cx: F.Cx, ps: PathState) { SimFrom(m, cx, ps, ps.point) }

  /** The value being computed goes where `w` says, and lasts no longer. */
  ghost predicate Under(w: Where, ps: PathState) {
    ps.passing <= w.carry && ps.limit <= w.limit && w.point <= ps.point
  }

  ghost predicate At(w: Where, cx: F.Cx, ps: PathState) {
    w.pend == cx.pending && w.point == ps.point && Under(w, ps)
  }

  /** After a step that took `n` points. */
  lemma Onward(cx: F.Cx, ps: PathState, cx1: F.Cx, ps1: PathState, w: Where, n: nat)
    requires F.Framed(cx, cx1) && Settled(ps, ps1) && Alike(ps.frames, ps1.frames) && ps1.point == ps.point + n && At(w, cx, ps)
    ensures InScope(ps1.frames) == InScope(ps.frames) && At(On(w, n), cx1, ps1)
  {
    AlikeScope(ps.frames, ps1.frames);
  }

  // ----- coverage -----

  lemma CoverLater(m: Plan, ledger: F.Ledger, live: seq<Held>, p: nat, q: nat)
    requires CoverOk(m, ledger, live, p) && p <= q
    ensures CoverOk(m, ledger, live, q)
  {
    forall l, t | l in live && t in m.events && t.point >= q ensures HoldsOk(m, l) && Met(m, ledger, l, t, q)
    {
      assert LoanOk(m, ledger, l, p) && Met(m, ledger, l, t, p);
    }
    assert forall l :: l in live ==> LoanOk(m, ledger, l, q);
  }

  lemma CoverMore(m: Plan, ledger: F.Ledger, more: F.Ledger, live: seq<Held>, point: nat)
    requires CoverOk(m, ledger, live, point) && forall r :: r in ledger ==> r in more
    ensures CoverOk(m, more, live, point)
  {
    forall l, t | l in live && t in m.events && t.point >= point ensures HoldsOk(m, l) && Met(m, more, l, t, point)
    {
      assert LoanOk(m, ledger, l, point) && Met(m, ledger, l, t, point);
      if Recorded(m, ledger, l, t) {
        var r :| r in ledger && Backs(m, r, l, t);
        assert r in more;
      }
    }
    assert forall l :: l in live ==> LoanOk(m, ledger, l, point);
  }

  /** A new borrow is covered by its own record. */
  lemma TakeCovered(m: Plan, ledger: F.Ledger, place: Place, kind: F.BorrowKind, ps: PathState, w: Where)
    requires CoverOk(m, ledger, ps.live, ps.point) && FitTake(m, place, kind, w) && Under(w, ps) && w.point == ps.point
    ensures CoverOk(m, ledger + [F.Loan(Truncate(place), kind, w.pend)], Take(ps, place, kind).live, ps.point + 1)
  {
    var r, l := F.Loan(Truncate(place), kind, w.pend), Held(place, kind, ps.passing - {place.root}, ps.limit);
    var more := ledger + [r];
    CoverLater(m, ledger, ps.live, ps.point, ps.point + 1);
    CoverMore(m, ledger, more, ps.live, ps.point + 1);
    forall t | t in m.events && t.point >= ps.point + 1 ensures Met(m, more, l, t, ps.point + 1)
    {
      if Hits(HoldOf(l), t) && Felt(m, l, t) {
        assert Extends(m, t, place.root, w);
        if t.MoveAt? {
          assert Guard(place.root, w.point, t.point) in m.guards;
        } else {
          assert r in more && Backs(m, r, l, t);
        }
      }
    }
    assert LoanOk(m, more, l, ps.point + 1);
  }

  /** Handing borrows on keeps them covered. */
  lemma ShareCovered(m: Plan, ledger: F.Ledger, ps: PathState, x: string, bound: set<string>, w: Where, from: nat)
    requires CoverOk(m, ledger, ps.live, from) && FitRead(m, x, bound, w) && Under(w, ps) && w.point <= from
    ensures CoverOk(m, ledger, Shared(ps.live, x, ps.passing, ps.limit), from)
  {
    var after := Shared(ps.live, x, ps.passing, ps.limit);
    forall l | l in after ensures LoanOk(m, ledger, l, from)
    {
      var i :| 0 <= i < |after| && after[i] == l;
      assert ps.live[i] in ps.live;
      HandOnCovered(m, ledger, ps.live[i], ps, x, bound, w, from);
    }
  }

  lemma HandOnCovered(m: Plan, ledger: F.Ledger, l: Held, ps: PathState, x: string, bound: set<string>, w: Where, from: nat)
    requires LoanOk(m, ledger, l, from) && FitRead(m, x, bound, w) && Under(w, ps) && w.point <= from
    ensures LoanOk(m, ledger, HandOn(l, x, ps.passing, ps.limit), from)
  {
    if x in l.holders {
      var after := HandOn(l, x, ps.passing, ps.limit);
      assert Outlasts(m, x, HoldOf(l), w);
      forall t | t in m.events && t.point >= from ensures Met(m, ledger, after, t, from)
      {
        assert Met(m, ledger, l, t, from);
        if Hits(HoldOf(l), t) && Felt(m, after, t) && !t.MoveAt? {
          assert Felt(m, l, t) || Extends(m, t, l.place.root, w);
          assert Felt(m, l, t);
          var r :| r in ledger && Backs(m, r, l, t);
          assert Backs(m, r, after, t);
        }
      }
    }
  }

  /** Ending the records of a name whose last read has passed loses nothing. */
  lemma DecayCovered(m: Plan, ledger: F.Ledger, live: seq<Held>, x: string, point: nat)
    requires CoverOk(m, ledger, live, point) && x in m.lastUse && point > m.lastUse[x]
    ensures CoverOk(m, F.Without(ledger, {x}), live, point)
  {
    var rest := F.Without(ledger, {x});
    forall l, t | l in live && t in m.events && t.point >= point ensures HoldsOk(m, l) && Met(m, rest, l, t, point)
    {
      assert LoanOk(m, ledger, l, point) && Met(m, ledger, l, t, point);
      if Recorded(m, ledger, l, t) {
        var r :| r in ledger && Backs(m, r, l, t);
        assert r in rest;
      }
    }
    assert forall l :: l in live ==> LoanOk(m, ledger, l, point);
  }

  lemma EndOf(m: Plan, names: set<string>, point: nat, x: string)
    requires FitEnd(m, names, point) && x in names
    ensures FitLast(m, x, names, point)
  {
    assert x !in Unfit(m, names, point);
  }

  /** Nor does the end of a scope after which its names are not read when it matters. */
  lemma CloseCovered(m: Plan, ledger: F.Ledger, live: seq<Held>, names: set<string>, point: nat)
    requires CoverOk(m, ledger, live, point) && FitEnd(m, names, point)
    ensures CoverOk(m, F.NotRootedIn(F.Without(ledger, names), names), Survivors(live, names), point)
  {
    var rest := F.NotRootedIn(F.Without(ledger, names), names);
    forall l | l in Survivors(live, names) ensures LoanOk(m, rest, l, point)
    {
      var k :| k in live && k.place.root !in names && l == k.(holders := k.holders - names);
      assert LoanOk(m, ledger, k, point);
      forall t | t in m.events && t.point >= point ensures Met(m, rest, l, t, point)
      {
        assert Met(m, ledger, k, t, point);
        assert Felt(m, l, t) ==> Felt(m, k, t);
        if Hits(HoldOf(l), t) && Felt(m, l, t) && !t.MoveAt? {
          var r :| r in ledger && Backs(m, r, k, t);
          if r.borrower.Some? && r.borrower.value in names { EndOf(m, names, point, r.borrower.value); }
          assert r in rest && Backs(m, r, l, t);
        }
      }
    }
  }

  ghost predicate SafeFrom(m: Plan, cx: F.Cx, ps: PathState, from: nat) { Rejected(m, cx.diag) || SimFrom(m, cx, ps, from) }

  ghost predicate Safe(m: Plan, cx: F.Cx, ps: PathState) { Rejected(m, cx.diag) || Sim(m, cx, ps) }

  lemma StaysRejected(m: Plan, a: F.Cx, b: F.Cx)
    requires Rejected(m, a.diag) && a.diag <= b.diag
    ensures Rejected(m, b.diag)
  {
    var d :| d in a.diag && Rejects(m, d);
    assert d in b.diag;
  }

  lemma Reported(m: Plan, cx: F.Cx, d: F.Diag)
    requires Rejects(m, d)
    ensures Rejected(m, F.Report(cx, d).diag)
  {
    assert d in F.Report(cx, d).diag;
  }

  // ----- frames -----

  lemma {:induction false} SetLookup(fs: Frames, x: string, st: Status, y: string)
    ensures Lookup(SetStatus(fs, x, st), y)
         == (if y == x && Lookup(fs, x).Some? then Some(Lookup(fs, x).value.(status := st)) else Lookup(fs, y))
    decreases |fs|
  {
    if fs != [] {
      var n := |fs| - 1;
      var gs := SetStatus(fs, x, st);
      if x in fs[n] {
        assert gs[..n] == fs[..n];
      } else {
        SetLookup(fs[..n], x, st, y);
        assert gs[..n] == SetStatus(fs[..n], x, st);
      }
    }
  }

  lemma {:induction false} AlikeLookup(f: Frames, g: Frames, x: string)
    requires Alike(f, g)
    ensures Lookup(f, x).Some? <==> Lookup(g, x).Some?
    ensures Lookup(f, x).Some? ==> Lookup(f, x).value.(status := Ready) == Lookup(g, x).value.(status := Ready)
    decreases |f|
  {
    if f != [] {
      var n := |f| - 1;
      assert AlikeFrame(f[n], g[n]);
      AlikeLookup(f[..n], g[..n], x);
    }
  }

  lemma AlikeScope(f: Frames, g: Frames)
    requires Alike(f, g)
    ensures InScope(f) == InScope(g)
  {
    forall x ensures x in InScope(f) <==> x in InScope(g)
    {
      AlikeLookup(f, g, x);
    }
  }

  lemma {:induction false} AlikeUnshadowed(f: Frames, g: Frames)
    requires Alike(f, g) && Unshadowed(f)
    ensures Unshadowed(g)
    decreases |f|
  {
    if f != [] {
      var n := |f| - 1;
      AlikeUnshadowed(f[..n], g[..n]);
      AlikeScope(f[..n], g[..n]);
      assert AlikeFrame(f[n], g[n]);
    }
  }

  lemma AlikeFrames(scopes: seq<seq<string>>, f: Frames, g: Frames)
    requires Alike(f, g) && FramesOk(scopes, f)
    ensures FramesOk(scopes, g)
  {
    forall d | 0 <= d < |g| ensures F.NameSet(scopes[d]) == g[d].Keys
    {
      assert AlikeFrame(f[d], g[d]);
    }
  }

  // ----- guards -----

  /** A new state for one local, which is not forgotten to be borrowed while that counts. */
  lemma GuardsKeep(m: Plan, locals: F.Locals, ledger: F.Ledger, x: string, state: F.Ownership, point: nat)
    requires GuardsOk(m, locals, ledger, point) && x in locals
    requires state.Owned? ==> locals[x].state.Owned? || Unguarded(m, {x}, point)
    ensures GuardsOk(m, locals[x := locals[x].(state := state)], ledger, point)
  {
    var after := locals[x := locals[x].(state := state)];
    forall g | m.Owners() && Active(m, g, point) ensures Guarded(m, after, ledger, g)
    {
      assert Guarded(m, locals, ledger, g);
    }
  }

  lemma GuardsLater(m: Plan, locals: F.Locals, ledger: F.Ledger, p: nat, q: nat)
    requires GuardsOk(m, locals, ledger, p) && p <= q && (NoStarts(m, p, q) || NoCross(m, p, q))
    ensures GuardsOk(m, locals, ledger, q)
  {
    forall g | m.Owners() && Active(m, g, q) ensures Guarded(m, locals, ledger, g)
    {
      assert Active(m, g, p);
    }
  }

  lemma {:induction false} CountSome(ledger: F.Ledger, r: F.Loan)
    requires r in ledger && r.kind == F.Shared
    ensures F.CountShared(ledger, r.place.root) > 0
    decreases |ledger|
  {
    if ledger[0] != r { CountSome(ledger[1..], r); }
  }

  /** Recomputing from a ledger that still has a record of `x` leaves it borrowed. */
  lemma {:induction false} StaysBorrowed(locals: F.Locals, ledger: F.Ledger, removed: F.Ledger, r: F.Loan)
    requires r in ledger && r.place.root in locals && !locals[r.place.root].state.Owned?
    ensures r.place.root in F.RecomputeAll(locals, ledger, removed)
    ensures !F.RecomputeAll(locals, ledger, removed)[r.place.root].state.Owned?
    decreases |removed|
  {
    if removed != [] {
      if r.kind == F.Shared { CountSome(ledger, r); }
      StaysBorrowed(F.Recompute(locals, ledger, removed[0].place.root), ledger, removed[1..], r);
    }
  }

  /** The records that count are among those kept. */
  lemma GuardsRecomputed(m: Plan, locals: F.Locals, ledger: F.Ledger, kept: F.Ledger, removed: F.Ledger, point: nat)
    requires GuardsOk(m, locals, ledger, point)
    requires forall g, r :: Active(m, g, point) && r in ledger && Keeps(m, r, g) ==> r in kept
    ensures GuardsOk(m, F.RecomputeAll(locals, kept, removed), kept, point)
  {
    var after := F.RecomputeAll(locals, kept, removed);
    forall g | m.Owners() && Active(m, g, point) ensures Guarded(m, after, kept, g)
    {
      assert Guarded(m, locals, ledger, g);
      if g.root in locals {
        var r :| r in ledger && Keeps(m, r, g);
        assert r in kept;
        StaysBorrowed(locals, kept, removed, r);
      }
    }
  }

  lemma GuardsMore(m: Plan, locals: F.Locals, ledger: F.Ledger, more: F.Ledger, point: nat)
    requires GuardsOk(m, locals, ledger, point) && forall r :: r in ledger ==> r in more
    ensures GuardsOk(m, locals, more, point)
  {
    forall g | m.Owners() && Active(m, g, point) ensures Guarded(m, locals, more, g)
    {
      assert Guarded(m, locals, ledger, g);
    }
  }

  // ----- events on one local -----

  /** A status change on the path, matched by one in the walker. */
  lemma StatusSim(m: Plan, cx: F.Cx, ps: PathState, x: string, state: F.Ownership, st: Status)
    requires Sim(m, cx, ps) && x in cx.locals
    requires st != Ready ==> x !in m.steady && (m.Strict() ==> state.Moved?)
    requires state.Owned? ==> cx.locals[x].state.Owned? || Unguarded(m, {x}, ps.point)
    ensures Sim(m, cx.(locals := cx.locals[x := cx.locals[x].(state := state)]), ps.(frames := SetStatus(ps.frames, x, st)))
  {
    var gs := SetStatus(ps.frames, x, st);
    AlikeScope(ps.frames, gs);
    AlikeUnshadowed(ps.frames, gs);
    AlikeFrames(cx.scopes, ps.frames, gs);
    var locals := cx.locals[x := cx.locals[x].(state := state)];
    assert locals.Keys == cx.locals.Keys;
    GuardsKeep(m, cx.locals, cx.ledger, x, state, ps.point);
    forall y ensures y in locals ==> LocalOk(m, locals[y], Lookup(gs, y).value)
      ensures Lookup(gs, y)
           == (if y == x && Lookup(ps.frames, x).Some? then Some(Lookup(ps.frames, x).value.(status := st)) else Lookup(ps.frames, y))
      ensures Lookup(gs, y).Some? ==> SlotOk(m, y, Lookup(gs, y).value)
    {
      SetLookup(ps.frames, x, st, y);
    }
  }

  /** Any borrow state is as good as any other for a path. */
  lemma RefreshSim(m: Plan, cx: F.Cx, ps: PathState, locals: F.Locals, from: nat)
    requires SimFrom(m, cx, ps, from) && F.Refreshed(cx.locals, locals) && GuardsOk(m, locals, cx.ledger, from)
    ensures SimFrom(m, cx.(locals := locals), ps, from)
  {
    forall x | x in locals ensures LocalOk(m, locals[x], Lookup(ps.frames, x).value)
    {
      assert x in cx.locals && F.SameButBorrows(cx.locals[x], locals[x]);
    }
  }

  lemma UseSim(m: Plan, cx: F.Cx, ps: PathState, x: string)
    requires Sim(m, cx, ps) && x in cx.locals
    ensures Safe(m, F.DoUse(cx, x), Read(ps, x))
  {
    if m.Strict() && cx.locals[x].state.Moved? {
      Reported(m, cx, F.UseAfterMove(x));
    } else if m.Strict() && cx.locals[x].state.Uninit? {
      Reported(m, cx, F.UseOfUninit(x));
    }
  }

  lemma MoveSim(m: Plan, cx: F.Cx, ps: PathState, x: string)
    requires Sim(m, cx, ps) && x in cx.locals
    requires FitMove(m, x, ps.point)
    ensures Safe(m, F.DoMove(cx, x), MoveOut(ps, x))
  {
    if (m.Strict() || m.Owners()) && !cx.locals[x].state.Owned? {
      MoveRefused(m, cx, x);
    } else {
      if m.Owners() && Pledged(ps, x) { PledgedIsKnown(m, cx, ps, x); }
      if m.Strict() { MoveOwnedSim(m, cx, ps, x); } else { MoveAnywhereSim(m, cx, ps, x); }
    }
  }

  predicate FitMove(m: Plan, x: string, point: nat) {
    (x in m.steady ==> x in m.copies) && (m.Owners() ==> MoveAt(x, point) in m.events)
  }

  /** What is borrowed on the path when it is moved the walker does not take for owned. */
  lemma PledgedIsKnown(m: Plan, cx: F.Cx, ps: PathState, x: string)
    requires Sim(m, cx, ps) && m.Owners() && MoveAt(x, ps.point) in m.events && x in cx.locals && Pledged(ps, x)
    ensures !cx.locals[x].state.Owned?
  {
    var l :| l in ps.live && l.place.root == x && Alive(l, ps.lastUse, ps.point);
    var t := MoveAt(x, ps.point);
    assert LoanOk(m, cx.ledger, l, ps.point) && Met(m, cx.ledger, l, t, ps.point);
    var g :| g in m.guards && g.root == x && g.until == ps.point && g.from < ps.point;
    assert Active(m, g, ps.point) && Guarded(m, cx.locals, cx.ledger, g);
  }

  /** A move takes no borrow and ends none. */
  lemma MoveAnywhereSim(m: Plan, cx: F.Cx, ps: PathState, x: string)
    requires !m.Strict() && Sim(m, cx, ps) && x in cx.locals
    requires x in m.steady ==> x in m.copies
    requires m.Owners() ==> cx.locals[x].state.Owned? && !Pledged(ps, x)
    ensures Sim(m, F.DoMove(cx, x), MoveOut(ps, x))
  {
    MoveTouches(cx, x);
    MovedSim(m, cx, Read(ps, x), x, F.DoMove(cx, x).locals[x].state);
    assert MoveOut(ps, x).torn ==> ps.torn || Pledged(ps, x);
  }

  lemma MovedSim(m: Plan, cx: F.Cx, ps: PathState, x: string, state: F.Ownership)
    requires !m.Strict() && Sim(m, cx, ps) && x in cx.locals
    requires x in m.steady ==> x in m.copies
    requires state.Owned? ==> cx.locals[x].state.Owned?
    ensures
      var cx1, s := cx.(locals := cx.locals[x := cx.locals[x].(state := state)]), Lookup(ps.frames, x).value;
      Sim(m, cx1, ps) && (s.copy || Sim(m, cx1, ps.(frames := SetStatus(ps.frames, x, MovedOut))))
  {
    assert SlotOk(m, x, Lookup(ps.frames, x).value);
    if !Lookup(ps.frames, x).value.copy { StatusSim(m, cx, ps, x, state, MovedOut); }
    GuardsKeep(m, cx.locals, cx.ledger, x, state, ps.point);
    RefreshAny(m, cx, ps, cx.locals[x := cx.locals[x].(state := state)]);
  }

  lemma MoveTouches(cx: F.Cx, x: string)
    requires x in cx.locals
    ensures
      var r := F.DoMove(cx, x);
      r == cx.(locals := cx.locals[x := cx.locals[x].(state := r.locals[x].state)], diag := r.diag)
      && (r.locals[x].state.Owned? ==> cx.locals[x].state.Owned?)
  {
    assert cx.locals[x := cx.locals[x].(state := cx.locals[x].state)] == cx.locals;
  }

  lemma RefreshAny(m: Plan, cx: F.Cx, ps: PathState, locals: F.Locals)
    requires !m.Strict() && Sim(m, cx, ps) && locals.Keys == cx.locals.Keys
    requires forall x :: x in locals ==> locals[x].reference == cx.locals[x].reference
    requires GuardsOk(m, locals, cx.ledger, ps.point)
    ensures Sim(m, cx.(locals := locals), ps)
  {
    forall x | x in locals ensures LocalOk(m, locals[x], Lookup(ps.frames, x).value)
    {
      assert LocalOk(m, cx.locals[x], Lookup(ps.frames, x).value);
    }
  }

  lemma MoveRefused(m: Plan, cx: F.Cx, x: string)
    requires (m.Strict() || m.Owners()) && x in cx.locals && !cx.locals[x].state.Owned?
    ensures Rejected(m, F.DoMove(cx, x).diag)
  {
    var d := F.DoMove(cx, x).diag;
    assert Rejects(m, d[|d| - 1]) && d[|d| - 1] in d;
  }

  lemma MoveOwnedSim(m: Plan, cx: F.Cx, ps: PathState, x: string)
    requires m.Strict() && Sim(m, cx, ps) && x in cx.locals && cx.locals[x].state.Owned?
    requires (x in m.steady ==> x in m.copies) && (m.Owners() ==> !Pledged(ps, x))
    ensures Safe(m, F.DoMove(cx, x), MoveOut(ps, x))
  {
    var l := cx.locals[x];
    var sub := exists r :: r in cx.ledger && r.place.root == x && r.place.projs != [];
    if sub {
      Reported(m, cx, F.MoveOutOfBorrow(x));
    } else {
      assert LocalOk(m, l, Lookup(ps.frames, x).value);
      assert Read(ps, x) == ps;
      if !l.copy {
        StatusSim(m, cx, ps, x, F.Moved, Ready);
        KeepsReady(ps.frames, x);
        if !Lookup(ps.frames, x).value.copy { StatusSim(m, cx, ps, x, F.Moved, MovedOut); }
      }
    }
  }

  lemma {:induction false} KeepsReady(fs: Frames, x: string)
    requires Lookup(fs, x).Some? && Lookup(fs, x).value.status == Ready
    ensures SetStatus(fs, x, Ready) == fs
    decreases |fs|
  {
    var n := |fs| - 1;
    if x in fs[n] {
      assert fs[n][x := fs[n][x].(status := Ready)] == fs[n];
    } else {
      KeepsReady(fs[..n], x);
    }
  }

  lemma AssignSim(m: Plan, cx: F.Cx, ps: PathState, x: string)
    requires Sim(m, cx, ps) && x in cx.locals && Unguarded(m, {x}, ps.point)
    ensures Safe(m, F.DoAssign(cx, x), Assigned(ps, x))
  {
    var cx1 := if cx.locals[x].mutable then cx else F.Report(cx, F.AssignToImmut(x));
    assert Sim(m, cx1, ps);
    StatusSim(m, cx1, ps, x, F.Owned, Ready);
  }

  /** A borrow that clashes on the path is reported, truncated or not. */
  lemma ClashReported(m: Plan, ledger: F.Ledger, ps: PathState, place: Place, kind: F.BorrowKind)
    requires CoverOk(m, ledger, ps.live, ps.point) && ps.lastUse == m.lastUse && Clashes(ps, place, kind)
    requires TakeAt(place.root, kind, ps.point) in m.events && Regular(m, place)
    ensures exists d :: d in F.Conflict(ledger, Truncate(place), kind) && Rejects(m, d)
  {
    var l :| l in ps.live && Alive(l, ps.lastUse, ps.point) && Meets(l.place, place) && (l.kind == F.Mut || kind == F.Mut);
    assert LoanOk(m, ledger, l, ps.point) && Met(m, ledger, l, TakeAt(place.root, kind, ps.point), ps.point);
    var r :| r in ledger && Backs(m, r, l, TakeAt(place.root, kind, ps.point));
    MeetsTruncated(l.place, place);
    assert F.AnyOverlap(ledger, Truncate(place), l.kind);
    var d := F.Conflict(ledger, Truncate(place), kind)[0];
    assert d in F.Conflict(ledger, Truncate(place), kind) && Rejects(m, d);
  }

  lemma BorrowSim(m: Plan, cx: F.Cx, ps: PathState, place: Place, kind: F.BorrowKind, w: Where)
    requires Sim(m, cx, ps) && place.root in cx.locals && FitTake(m, place, kind, w) && At(w, cx, ps)
    ensures SafeFrom(m, F.TryBorrow(cx, Truncate(place), kind), Take(ps, place, kind), ps.point + 1)
  {
    var x, p := place.root, Truncate(place);
    var l := cx.locals[x];
    var cx1 := if kind == F.Mut && !l.mutable then F.Report(cx, F.MutBorrowOfImmut(x)) else cx;
    if l.state.Moved? {
      Reported(m, cx1, F.BorrowAfterMove(x));
    } else if l.state.Uninit? {
      Reported(m, cx1, F.UseOfUninit(x));
    } else {
      RecordIsKept(cx, p, kind);
      RecordedSim(m, cx, ps, place, kind, w, F.TryBorrow(cx, p, kind));
    }
  }

  /** One local is known to be borrowed, and the others are as they were. */
  ghost predicate Marked(a: F.Locals, b: F.Locals, x: string)
    requires a.Keys == b.Keys && x in a
  {
    !b[x].state.Owned? && forall y :: y in a && y != x ==> a[y] == b[y]
  }

  /** After a borrow the guards that start with it stand. */
  lemma TakeGuards(m: Plan, cx: F.Cx, place: Place, kind: F.BorrowKind, w: Where, r: F.Cx)
    requires GuardsOk(m, cx.locals, cx.ledger, w.point) && FitTake(m, place, kind, w) && w.pend == cx.pending
    requires place.root in cx.locals && cx.locals.Keys == r.locals.Keys && Marked(cx.locals, r.locals, place.root)
    requires r.ledger == cx.ledger + [F.Loan(Truncate(place), kind, cx.pending)]
    ensures GuardsOk(m, r.locals, r.ledger, w.point + 1)
  {
    var loan := F.Loan(Truncate(place), kind, cx.pending);
    forall g | m.Owners() && Active(m, g, w.point + 1) ensures Guarded(m, r.locals, r.ledger, g)
    {
      if g.from == w.point {
        assert loan in r.ledger && Keeps(m, loan, g);
      } else {
        assert Active(m, g, w.point) && Guarded(m, cx.locals, cx.ledger, g);
        if g.root in cx.locals {
          var k :| k in cx.ledger && Keeps(m, k, g);
          assert k in r.ledger;
        }
      }
    }
  }

  /** The rest of what a borrow leaves as it was. */
  lemma TakeRefreshed(m: Plan, cx: F.Cx, ps: PathState, locals: F.Locals)
    requires Sim(m, cx, ps) && F.Refreshed(cx.locals, locals)
    ensures LocalsOk(m, locals, ps.frames)
  {
    forall x | x in locals ensures LocalOk(m, locals[x], Lookup(ps.frames, x).value)
    {
      assert x in cx.locals && F.SameButBorrows(cx.locals[x], locals[x]);
    }
  }

  /** A borrow of a usable local is recorded, and a conflict reported. */
  lemma RecordIsKept(cx: F.Cx, place: Place, kind: F.BorrowKind)
    requires place.root in cx.locals && F.Refusal(cx, place.root) == []
    ensures
      var r := F.TryBorrow(cx, place, kind);
      && r == cx.(locals := r.locals, ledger := cx.ledger + [F.Loan(place, kind, cx.pending)], diag := r.diag)
      && F.Refreshed(cx.locals, r.locals) && (forall d :: d in F.Conflict(cx.ledger, place, kind) ==> d in r.diag)
      && Marked(cx.locals, r.locals, place.root)
  {
  }

  lemma {:induction false} RecordedSim(m: Plan, cx: F.Cx, ps: PathState, place: Place, kind: F.BorrowKind, w: Where, r: F.Cx)
    requires Sim(m, cx, ps) && place.root in cx.locals && F.Refusal(cx, place.root) == []
    requires FitTake(m, place, kind, w) && At(w, cx, ps)
    requires r == cx.(locals := r.locals, ledger := cx.ledger + [F.Loan(Truncate(place), kind, cx.pending)], diag := r.diag)
    requires F.Refreshed(cx.locals, r.locals) && forall d :: d in F.Conflict(cx.ledger, Truncate(place), kind) ==> d in r.diag
    requires Marked(cx.locals, r.locals, place.root)
    ensures SafeFrom(m, r, Take(ps, place, kind), ps.point + 1)
  {
    ReadIsQuiet(m, cx, ps, place.root);
    if Clashes(ps, place, kind) {
      ClashReported(m, cx.ledger, ps, place, kind);
    } else {
      TakeGuards(m, cx, place, kind, w, r);
      TakeRefreshed(m, cx, ps, r.locals);
      TakeCovered(m, cx.ledger, place, kind, ps, w);
      TieOk(m, ps, place.root, w);
    }
  }

  /** What goes to names of one group is tied within it. */
  lemma TieOk(m: Plan, ps: PathState, x: string, w: Where)
    requires PathOk(m, ps) && Under(w, ps) && (x in m.may ==> Kindred(m, x, w.carry))
    ensures TiesOk(m, Tie(ps, x), ps.leaks)
  {
  }

  lemma ReadIsQuiet(m: Plan, cx: F.Cx, ps: PathState, x: string)
    requires Sim(m, cx, ps) && x in cx.locals && !cx.locals[x].state.Moved? && !cx.locals[x].state.Uninit?
    ensures m.Strict() ==> Read(ps, x) == ps
  {
    assert LocalOk(m, cx.locals[x], Lookup(ps.frames, x).value);
  }

  lemma SimLater(m: Plan, cx: F.Cx, ps: PathState)
    requires Safe(m, cx, ps) && NoStarts(m, ps.point, ps.point + 1)
    ensures SafeFrom(m, cx, ps, ps.point + 1)
  {
    if Sim(m, cx, ps) {
      CoverLater(m, cx.ledger, ps.live, ps.point, ps.point + 1);
      GuardsLater(m, cx.locals, cx.ledger, ps.point, ps.point + 1);
    }
  }

  /** What a bare local in a position asks for. */
  predicate FitTouch(m: Plan, x: string, pos: F.Position, w: Where) {
    && (pos.Moving? ==> FitMove(m, x, w.point)) && (pos.Target? ==> Unguarded(m, {x}, w.point)) && NoStarts(m, w.point, w.point + 1)
    && (pos.ForShared? || pos.ForMut? ==> FitTake(m, Place(x, []), Kind(pos.ForMut?), w))
  }

  lemma UseLater(m: Plan, cx: F.Cx, ps: PathState, x: string)
    requires Sim(m, cx, ps) && x in cx.locals && NoStarts(m, ps.point, ps.point + 1)
    ensures SafeFrom(m, F.DoUse(cx, x), Read(ps, x), ps.point + 1)
  {
    UseSim(m, cx, ps, x);
    SimLater(m, F.DoUse(cx, x), Read(ps, x));
  }

  lemma MoveLater(m: Plan, cx: F.Cx, ps: PathState, x: string)
    requires Sim(m, cx, ps) && x in cx.locals && FitMove(m, x, ps.point) && NoStarts(m, ps.point, ps.point + 1)
    ensures SafeFrom(m, F.DoMove(cx, x), MoveOut(ps, x), ps.point + 1)
  {
    MoveSim(m, cx, ps, x);
    SimLater(m, F.DoMove(cx, x), MoveOut(ps, x));
  }

  lemma AssignLater(m: Plan, cx: F.Cx, ps: PathState, x: string)
    requires Sim(m, cx, ps) && x in cx.locals && Unguarded(m, {x}, ps.point) && NoStarts(m, ps.point, ps.point + 1)
    ensures SafeFrom(m, F.DoAssign(cx, x), Assigned(ps, x), ps.point + 1)
  {
    AssignSim(m, cx, ps, x);
    SimLater(m, F.DoAssign(cx, x), Assigned(ps, x));
  }

  lemma TouchSim(m: Plan, cx: F.Cx, ps: PathState, x: string, pos: F.Position, w: Where)
    requires Sim(m, cx, ps) && x in cx.locals && FitTouch(m, x, pos, w) && At(w, cx, ps)
    ensures SafeFrom(m, F.Touch(cx, x, pos), OnLocal(ps, x, pos), ps.point + 1)
  {
    match pos
    case Use => UseLater(m, cx, ps, x);
    case Moving => MoveLater(m, cx, ps, x);
    case ForShared => LendSim(m, cx, ps, x, F.Shared, w);
    case ForMut => LendSim(m, cx, ps, x, F.Mut, w);
    case Target => AssignLater(m, cx, ps, x);
  }

  lemma LendSim(m: Plan, cx: F.Cx, ps: PathState, x: string, kind: F.BorrowKind, w: Where)
    requires Sim(m, cx, ps) && x in cx.locals && FitTake(m, Place(x, []), kind, w) && At(w, cx, ps)
    requires NoStarts(m, ps.point, ps.point + 1)
    ensures SafeFrom(m, F.DoBorrow(cx, x, kind), TakeLocal(ps, x, kind), ps.point + 1)
  {
    assert LocalOk(m, cx.locals[x], Lookup(ps.frames, x).value);
    if cx.locals[x].reference {
      UseLater(m, cx, ps, x);
    } else {
      BorrowSim(m, cx, ps, Place(x, []), kind, w);
      LendLess(m, F.DoBorrow(cx, x, kind), ps, x, kind);
    }
  }

  /** A read alone is covered by what covers a borrow. */
  lemma LendLess(m: Plan, cx: F.Cx, ps: PathState, x: string, kind: F.BorrowKind)
    requires SafeFrom(m, cx, Take(ps, Place(x, []), kind), ps.point + 1) && PathOk(m, ps)
    ensures SafeFrom(m, cx, TakeLocal(ps, x, kind), ps.point + 1)
  {
  }

  lemma PartSim(m: Plan, cx: F.Cx, ps: PathState, x: string, pos: F.Position)
    requires Sim(m, cx, ps) && x in cx.locals && (pos.Moving? ==> FitMove(m, x, ps.point)) && NoStarts(m, ps.point, ps.point + 1)
    ensures SafeFrom(m, F.TouchPart(cx, x, pos), OnPart(ps, x, pos), ps.point + 1)
  {
    match pos
    case Moving => MoveLater(m, cx, ps, x);
    case Target => SimLater(m, F.TouchPart(cx, x, pos), ps);
    case _ => UseLater(m, cx, ps, x);
  }

  /** Decay leaves every live borrow covered. */
  lemma DecaySim(m: Plan, cx: F.Cx, ps: PathState, x: string)
    requires Sim(m, cx, ps)
    ensures Sim(m, F.DecayAfterUse(cx, x), ps)
  {
    if x in cx.lastUse && cx.point > cx.lastUse[x] {
      var kept := F.Without(cx.ledger, {x});
      var locals := F.RecomputeAll(cx.locals, kept, F.Held(cx.ledger, {x}));
      GuardsRecomputed(m, cx.locals, cx.ledger, kept, F.Held(cx.ledger, {x}), ps.point);
      GuardsMore(m, locals, kept, cx.ledger, ps.point);
      RefreshSim(m, cx, ps, locals, ps.point);
      DecayCovered(m, cx.ledger, ps.live, x, ps.point);
    }
  }

  /** Handing borrows, lambdas and ties on keeps the path covered. */
  lemma FollowSim(m: Plan, cx: F.Cx, ps: PathState, x: string, w: Where, from: nat)
    requires SimFrom(m, cx, ps, from) && FitRead(m, x, InScope(ps.frames), w) && Under(w, ps) && w.point <= from
    ensures SimFrom(m, cx, Follow(ps, x), from)
  {
    ShareCovered(m, cx.ledger, ps, x, InScope(ps.frames), w, from);
    TieOk(m, ps, x, w);
    LentOk(m, ps.closures, x, ps.passing, ps.limit);
  }

  lemma LentOk(m: Plan, cs: seq<Closure>, x: string, names: set<string>, limit: nat)
    requires ClosuresOk(m, cs)
    ensures ClosuresOk(m, Lent(cs, x, names, limit))
  {
    var after := Lent(cs, x, names, limit);
    forall i | 0 <= i < |after| ensures ClosureOk(m, after[i])
    {
      assert ClosureOk(m, cs[i]);
    }
  }

  lemma {:induction false} FollowAllSim(m: Plan, cx: F.Cx, ps: PathState, xs: seq<string>, w: Where)
    requires Sim(m, cx, ps) && FitReads(m, xs, InScope(ps.frames), w) && Under(w, ps)
    ensures Sim(m, cx, FollowAll(ps, xs))
    decreases |xs|
  {
    if xs != [] {
      FollowSim(m, cx, ps, xs[0], w, ps.point);
      FollowAllSim(m, cx, Follow(ps, xs[0]), xs[1..], w);
    }
  }

  lemma TickSim(m: Plan, cx: F.Cx, ps: PathState)
    requires SimFrom(m, cx, ps, ps.point + 1)
    ensures Sim(m, F.Advance(cx), Tick(ps))
  {
  }

  lemma MoveAnyTime(cx: F.Cx, x: string)
    ensures F.DoMove(F.Advance(cx), x) == F.Advance(F.DoMove(cx, x))
  {
  }

  lemma BorrowAnyTime(cx: F.Cx, x: string, kind: F.BorrowKind)
    ensures F.DoBorrow(F.Advance(cx), x, kind) == F.Advance(F.DoBorrow(cx, x, kind))
  {
  }

  /** A touch does not look at the point. */
  lemma TouchAnyTime(cx: F.Cx, segs: seq<string>, pos: F.Position)
    requires segs != []
    ensures F.TouchPath(F.Advance(cx), segs, pos) == F.Advance(F.TouchPath(cx, segs, pos))
  {
    MoveAnyTime(cx, segs[0]);
    BorrowAnyTime(cx, segs[0], F.Shared);
    BorrowAnyTime(cx, segs[0], F.Mut);
  }

  lemma PathSim(m: Plan, cx: F.Cx, ps: PathState, segs: seq<string>, pos: F.Position, w: Where)
    requires Sim(m, cx, ps) && segs != [] && FitPath(m, segs, pos, InScope(ps.frames), w) && At(w, cx, ps)
    ensures Safe(m, F.WalkPath(cx, segs, pos), OnPath(ps, segs, pos))
  {
    var x, ps1 := segs[0], Seen(ps, segs, pos);
    if !Stored(segs, pos) { FollowSim(m, cx, ps, x, w, ps.point); }
    OnceSeen(m, cx, ps1, segs, pos, w);
    TouchAnyTime(cx, segs, pos);
    var cx1, ps2 := F.TouchPath(cx, segs, pos), OnPath(ps, segs, pos);
    if Rejected(m, cx1.diag) {
      StaysRejected(m, cx1, F.WalkPath(cx, segs, pos));
    } else {
      TickSim(m, cx1, Touched(ps1, segs, pos));
      DecaySim(m, F.Advance(cx1), ps2, x);
    }
  }

  function Touched(ps: PathState, segs: seq<string>, pos: F.Position): (r: PathState)
    requires segs != []
    ensures r.point == ps.point
  {
    if Lookup(ps.frames, segs[0]).None? then ps
    else if |segs| == 1 then OnLocal(ps, segs[0], pos) else OnPart(ps, segs[0], pos)
  }

  lemma OnceSeen(m: Plan, cx: F.Cx, ps: PathState, segs: seq<string>, pos: F.Position, w: Where)
    requires Sim(m, cx, ps) && segs != [] && FitPath(m, segs, pos, InScope(ps.frames), w) && At(w, cx, ps)
    ensures SafeFrom(m, F.TouchPath(cx, segs, pos), Touched(ps, segs, pos), ps.point + 1)
  {
    var x := segs[0];
    assert x in cx.locals <==> Lookup(ps.frames, x).Some?;
    if x !in cx.locals {
      SimLater(m, cx, ps);
    } else if |segs| == 1 {
      TouchSim(m, cx, ps, x, pos, w);
    } else {
      PartSim(m, cx, ps, x, pos);
    }
  }

  /** A read that only follows and counts. */
  lemma SeenSim(m: Plan, cx: F.Cx, ps: PathState, x: string, w: Where, from: nat)
    requires SimFrom(m, cx, ps, from) && FitRead(m, x, InScope(ps.frames), w) && Under(w, ps) && w.point <= from <= ps.point + 1
    requires NoStarts(m, from, ps.point + 1)
    ensures Sim(m, F.DecayAfterUse(F.Advance(cx), x), Tick(Follow(ps, x)))
  {
    FollowSim(m, cx, ps, x, w, from);
    GuardsLater(m, cx.locals, cx.ledger, from, ps.point + 1);
    CoverLater(m, cx.ledger, Follow(ps, x).live, from, ps.point + 1);
    TickSim(m, cx, Follow(ps, x));
    DecaySim(m, F.Advance(cx), Tick(Follow(ps, x)), x);
  }

  /** What the operands of a borrowed place may read. */
  ghost predicate OperandsOk(m: Plan, xs: seq<string>, ps: PathState) {
    m.Strict() ==> SteadyOperands(m, xs, InScope(ps.frames))
  }

  lemma {:induction false} OperandSim(m: Plan, e: Expr, cx: F.Cx, ps: PathState, w: Where)
    requires F.Visible(e) && Sim(m, cx, ps) && Under(w, ps)
    requires FitReads(m, Reads(e), InScope(ps.frames), w) && OperandsOk(m, Reads(e), ps)
    requires NoStarts(m, ps.point, ps.point + |Reads(e)|)
    ensures Sim(m, F.PointsOnly(e, cx), OperandReads(e, ps))
    decreases e
  {
    match e
    case Path(segs) => if segs != [] { NameSim(m, e, cx, ps, w); }
    case Field(r, _) => OperandSim(m, r, cx, ps, w);
    case Unary(_, _, r) => OperandSim(m, r, cx, ps, w);
    case Index(r, i) =>
      FitReadsSplit(m, Reads(r), Reads(i), InScope(ps.frames), w);
      OperandSim(m, r, cx, ps, w);
      OperandSim(m, i, F.PointsOnly(r, cx), OperandReads(r, ps), w);
    case _ =>
  }

  lemma NameSim(m: Plan, e: Expr, cx: F.Cx, ps: PathState, w: Where)
    requires e.Path? && e.segs != [] && Sim(m, cx, ps) && Under(w, ps)
    requires FitReads(m, Reads(e), InScope(ps.frames), w) && OperandsOk(m, Reads(e), ps) && NoStarts(m, ps.point, ps.point + |Reads(e)|)
    ensures Sim(m, F.PointsOnly(e, cx), OperandReads(e, ps))
  {
    var x := e.segs[0];
    assert Reads(e) == [x] && FitRead(m, x, InScope(ps.frames), w);
    SeenSim(m, cx, ps, x, w, ps.point);
    assert x in Reads(e);
    assert m.Strict() ==> Usable(ps, x);
  }

  lemma {:induction false} FitReadsSplit(m: Plan, a: seq<string>, b: seq<string>, bound: set<string>, w: Where)
    requires FitReads(m, a + b, bound, w)
    ensures FitReads(m, a, bound, w) && FitReads(m, b, bound, w)
    decreases |a|
  {
    if a == [] {
      assert a + b == b;
    } else {
      assert (a + b)[1..] == a[1..] + b;
      FitReadsSplit(m, a[1..], b, bound, w);
    }
  }

  lemma {:induction false} ShapedReads(e: Expr)
    requires F.PlaceShaped(e)
    ensures |Reads(e)| >= 1
    decreases e
  {
    match e
    case Path(_) =>
    case Field(r, _) => ShapedReads(r);
    case Unary(_, _, r) => ShapedReads(r);
    case Index(r, _) => ShapedReads(r);
  }

  /** The reads of a place that has just been borrowed. */
  lemma {:induction false} PlaceReadsSim(m: Plan, e: Expr, cx: F.Cx, ps: PathState, w: Where)
    requires F.Visible(e) && F.PlaceShaped(e) && SimFrom(m, cx, ps, ps.point + 1) && Under(w, ps)
    requires FitReads(m, Reads(e), InScope(ps.frames), w) && OperandsOk(m, OperandNames(e), ps)
    requires NoStarts(m, ps.point + 1, ps.point + |Reads(e)|)
    ensures Sim(m, F.PointsOnly(e, cx), PlaceReads(e, ps))
    decreases e
  {
    match e
    case Path(segs) =>
      assert FitRead(m, segs[0], InScope(ps.frames), w);
      SeenSim(m, cx, ps, segs[0], w, ps.point + 1);
    case Field(r, _) => PlaceReadsSim(m, r, cx, ps, w);
    case Unary(_, _, r) => PlaceReadsSim(m, r, cx, ps, w);
    case Index(r, i) =>
      FitReadsSplit(m, Reads(r), Reads(i), InScope(ps.frames), w);
      ShapedReads(r);
      PlaceReadsSim(m, r, cx, ps, w);
      OperandSim(m, i, F.PointsOnly(r, cx), PlaceReads(r, ps), w);
  }

  // ----- scopes -----

  lemma OpenSim(m: Plan, cx: F.Cx, ps: PathState)
    requires Sim(m, cx, ps)
    ensures Sim(m, F.Push(cx), Open(ps)) && InScope(Open(ps).frames) == InScope(ps.frames)
  {
    var fs, gs := ps.frames, Open(ps).frames;
    assert gs[..|fs|] == fs;
    assert forall x :: Lookup(gs, x) == Lookup(fs, x);
    forall d | 0 <= d < |gs| ensures F.NameSet(F.Push(cx).scopes[d]) == gs[d].Keys
    {
      if d < |fs| { assert gs[d] == fs[d] && F.Push(cx).scopes[d] == cx.scopes[d]; }
    }
  }

  /** The innermost names are those added since the scope was opened. */
  lemma InnerNames(fs: Frames, base: Frames, names: set<string>)
    requires fs != [] && Unshadowed(fs) && Alike(base, fs[..|fs| - 1]) && InScope(fs) == InScope(base) + names && names !! InScope(base)
    ensures fs[|fs| - 1].Keys == names
  {
    AlikeScope(base, fs[..|fs| - 1]);
  }

  /** Leaving the scope that `base` opened, whose names are `names`. */
  lemma CloseSim(m: Plan, cx: F.Cx, ps: PathState, base: Frames, names: set<string>)
    requires Sim(m, cx, ps) && ps.frames != [] && Alike(base, Close(ps).frames)
    requires InScope(ps.frames) == InScope(base) + names && names !! InScope(base) && FitEnd(m, names, ps.point)
    ensures Safe(m, F.Pop(cx), Close(ps))
  {
    InnerNames(ps.frames, base, names);
    LeaveSim(m, cx, ps);
  }

  lemma {:induction false} OutlivesListed(ledger: F.Ledger, names: set<string>, x: string)
    ensures F.BorrowOutlivesOwner(x) in F.OutlivesDiags(ledger, names) <==> exists r :: r in ledger && F.Outlives(r, names) && r.place.root == x
    decreases |ledger|
  {
    if ledger != [] {
      OutlivesListed(ledger[1..], names, x);
      if F.BorrowOutlivesOwner(x) in F.OutlivesDiags(ledger, names) && !(F.Outlives(ledger[0], names) && ledger[0].place.root == x) {
        var r :| r in ledger[1..] && F.Outlives(r, names) && r.place.root == x;
        assert r in ledger;
      }
    }
  }

  /** A borrow that escapes the scope of its local is recorded under a name that stays,
      and so reported. */
  lemma EscapeReported(m: Plan, cx: F.Cx, ps: PathState, names: set<string>)
    requires Sim(m, cx, ps) && m.Scoped() && FitEnd(m, names, ps.point) && Dangles(ps, names)
    ensures exists d :: d in F.OutlivesDiags(cx.ledger, names) && Rejects(m, d)
  {
    var l, t :| l in ps.live && Escapes(l, names, ps.lastUse, ps.point) && t == EndAt(names, ps.point);
    EndOf(m, names, ps.point, l.place.root);
    assert LoanOk(m, cx.ledger, l, ps.point);
    assert Met(m, cx.ledger, l, t, ps.point);
    var h :| h in l.holders && h !in names && Later(ps.lastUse, h, ps.point);
    assert Reaches(m, t, h) && Felt(m, l, t);
    var r :| r in cx.ledger && Backs(m, r, l, t);
    assert F.Outlives(r, names);
    OutlivesListed(cx.ledger, names, l.place.root);
    assert Rejects(m, F.BorrowOutlivesOwner(l.place.root));
  }

  lemma LeaveSim(m: Plan, cx: F.Cx, ps: PathState)
    requires Sim(m, cx, ps) && ps.frames != [] && FitEnd(m, ps.frames[|ps.frames| - 1].Keys, ps.point)
    ensures Safe(m, F.Pop(cx), Close(ps))
  {
    var names := F.NameSet(cx.scopes[|cx.scopes| - 1]);
    if m.Scoped() && Dangles(ps, names) {
      EscapeReported(m, cx, ps, names);
    } else {
      QuietLeaveSim(m, cx, ps, names);
    }
  }

  /** The end of a scope after which its names are not read when it matters. */
  lemma PopGuards(m: Plan, cx: F.Cx, point: nat, names: set<string>)
    requires cx.scopes != [] && names == F.NameSet(cx.scopes[|cx.scopes| - 1])
    requires GuardsOk(m, cx.locals, cx.ledger, point) && FitEnd(m, names, point)
    ensures
      var kept := F.Without(cx.ledger, names);
      var locals := F.RecomputeAll(cx.locals, kept, F.Held(cx.ledger, names));
      GuardsOk(m, locals, cx.ledger, point) && GuardsOk(m, locals - names, F.NotRootedIn(kept, names), point)
  {
    var kept := F.Without(cx.ledger, names);
    var locals := F.RecomputeAll(cx.locals, kept, F.Held(cx.ledger, names));
    forall g, r | Active(m, g, point) && r in cx.ledger && Keeps(m, r, g) ensures r in kept
    {
      if F.HeldBy(r, names) {
        EndOf(m, names, point, r.borrower.value);
        assert Ended(m, r.borrower.value, Hold(g.root, r.kind), point);
        assert Hits(Hold(g.root, r.kind), MoveAt(g.root, g.until));
      }
    }
    GuardsRecomputed(m, cx.locals, cx.ledger, kept, F.Held(cx.ledger, names), point);
    GuardsMore(m, locals, kept, cx.ledger, point);
    var rest := F.NotRootedIn(kept, names);
    forall g | m.Owners() && Active(m, g, point) ensures Guarded(m, locals - names, rest, g)
    {
      assert Guarded(m, locals, kept, g);
    }
  }

  lemma QuietLeaveSim(m: Plan, cx: F.Cx, ps: PathState, names: set<string>)
    requires Sim(m, cx, ps) && ps.frames != [] && names == F.NameSet(cx.scopes[|cx.scopes| - 1])
    requires FitEnd(m, ps.frames[|ps.frames| - 1].Keys, ps.point) && (m.Scoped() ==> !Dangles(ps, names))
    ensures Sim(m, F.Pop(cx), Close(ps))
  {
    var n := |ps.frames| - 1;
    assert names == ps.frames[n].Keys;
    var kept := F.Without(cx.ledger, names);
    var locals := F.RecomputeAll(cx.locals, kept, F.Held(cx.ledger, names));
    PopGuards(m, cx, ps.point, names);
    RefreshSim(m, cx, ps, locals, ps.point);
    CloseLocals(m, locals, ps.frames, Close(ps).frames, names);
    CloseFrames(cx.scopes, ps.frames, F.Pop(cx).scopes, Close(ps).frames);
    CloseCovered(m, cx.ledger, ps.live, names, ps.point);
    ReleasedOk(m, ps.closures, names);
  }

  lemma ReleasedOk(m: Plan, cs: seq<Closure>, names: set<string>)
    requires ClosuresOk(m, cs)
    ensures ClosuresOk(m, Released(cs, names))
  {
    var after := Released(cs, names);
    forall i | 0 <= i < |after| ensures ClosureOk(m, after[i])
    {
      assert ClosureOk(m, cs[i]);
    }
  }

  lemma CloseLocals(m: Plan, locals: F.Locals, fs: Frames, gs: Frames, names: set<string>)
    requires fs != [] && LocalsOk(m, locals, fs) && Unshadowed(fs) && names == fs[|fs| - 1].Keys && gs == fs[..|fs| - 1]
    ensures LocalsOk(m, locals - names, gs)
    ensures SlotsOk(m, fs) ==> SlotsOk(m, gs)
  {
    forall x | x in locals && x !in names ensures LocalOk(m, locals[x], Lookup(gs, x).value)
    {
      assert Lookup(fs, x) == Lookup(gs, x);
    }
    forall x | Lookup(gs, x).Some? ensures Lookup(fs, x) == Lookup(gs, x)
    {
      assert x in InScope(gs);
    }
    assert (locals - names).Keys == InScope(gs);
  }

  lemma CloseFrames(scopes: seq<seq<string>>, fs: Frames, outer: seq<seq<string>>, gs: Frames)
    requires fs != [] && FramesOk(scopes, fs) && outer == scopes[..|scopes| - 1] && gs == fs[..|fs| - 1]
    ensures FramesOk(outer, gs)
  {
    forall d | 0 <= d < |gs| ensures F.NameSet(outer[d]) == gs[d].Keys
    {
      assert F.NameSet(scopes[d]) == fs[d].Keys;
    }
  }

  lemma DeclareScope(fs: Frames, x: string, slot: Slot)
    requires fs != [] && x !in InScope(fs)
    ensures InScope(Declare(fs, x, slot)) == InScope(fs) + {x}
    ensures forall y :: Lookup(Declare(fs, x, slot), y) == if y == x then Some(slot) else Lookup(fs, y)
    ensures Unshadowed(fs) ==> Unshadowed(Declare(fs, x, slot))
  {
    var n := |fs| - 1;
    var gs := Declare(fs, x, slot);
    assert gs[..n] == fs[..n];
    assert gs[n].Keys == fs[n].Keys + {x};
  }

  lemma BindGuards(m: Plan, locals: F.Locals, ledger: F.Ledger, x: string, local: F.Local, point: nat)
    requires GuardsOk(m, locals, ledger, point) && Unguarded(m, {x}, point)
    ensures GuardsOk(m, locals[x := local], ledger, point)
  {
    forall g | m.Owners() && Active(m, g, point) ensures Guarded(m, locals[x := local], ledger, g)
    {
      assert Guarded(m, locals, ledger, g);
    }
  }

  lemma BindSim(m: Plan, cx: F.Cx, ps: PathState, x: string, local: F.Local, slot: Slot)
    requires Sim(m, cx, ps) && ps.frames != [] && x !in InScope(ps.frames) && LocalOk(m, local, slot)
    requires SlotOk(m, x, slot) && Unguarded(m, {x}, ps.point)
    ensures Sim(m, F.Bind(cx, x, local), ps.(frames := Declare(ps.frames, x, slot)))
  {
    BindGuards(m, cx.locals, cx.ledger, x, local, ps.point);
    DeclareScope(ps.frames, x, slot);
    BindLocalsOk(m, cx.locals, ps.frames, x, local, slot);
    BindFramesOk(cx, ps.frames, x, local, slot);
  }

  lemma BindLocalsOk(m: Plan, locals: F.Locals, fs: Frames, x: string, local: F.Local, slot: Slot)
    requires LocalsOk(m, locals, fs) && fs != [] && x !in InScope(fs) && LocalOk(m, local, slot)
    ensures LocalsOk(m, locals[x := local], Declare(fs, x, slot))
  {
    DeclareScope(fs, x, slot);
  }

  lemma BindFramesOk(cx: F.Cx, fs: Frames, x: string, local: F.Local, slot: Slot)
    requires fs != [] && FramesOk(cx.scopes, fs)
    ensures FramesOk(F.Bind(cx, x, local).scopes, Declare(fs, x, slot))
  {
    var gs, scopes := Declare(fs, x, slot), F.Bind(cx, x, local).scopes;
    forall d | 0 <= d < |gs| ensures F.NameSet(scopes[d]) == gs[d].Keys
    {
      assert F.NameSet(cx.scopes[d]) == fs[d].Keys;
      if d == |gs| - 1 {
        assert F.NameSet(scopes[d]) == F.NameSet(cx.scopes[d]) + {x};
      }
    }
  }

  lemma NamesSplit(bs: seq<Binding>)
    requires bs != []
    ensures Names(bs) == {bs[0].name} + Names(bs[1..])
  {
  }

  lemma {:induction false} DeclareAllScope(m: Plan, ps: PathState, bs: seq<Binding>, unset: bool)
    requires ps.frames != [] && FreshNames(m, bs, unset, InScope(ps.frames))
    ensures InScope(DeclareAll(ps, bs, if unset then Unset else Ready).frames) == InScope(ps.frames) + Names(bs)
    decreases |bs|
  {
    if bs != [] {
      DeclareScope(ps.frames, bs[0].name, SlotOf(bs[0], if unset then Unset else Ready));
      DeclareAllScope(m, ps.(frames := Declare(ps.frames, bs[0].name, SlotOf(bs[0], if unset then Unset else Ready))), bs[1..], unset);
      NamesSplit(bs);
    }
  }

  /** Binding a whole pattern. */
  lemma {:induction false} BindAllSim(m: Plan, cx: F.Cx, ps: PathState, bs: seq<Binding>, mutable: bool)
    requires Sim(m, cx, ps) && ps.frames != [] && FreshNames(m, bs, false, InScope(ps.frames))
    requires Unguarded(m, Names(bs), ps.point)
    ensures Sim(m, F.BindAll(cx, bs, mutable), DeclareAll(ps, bs, Ready))
    decreases |bs|
  {
    if bs != [] {
      var b, slot := bs[0], SlotOf(bs[0], Ready);
      var local := F.Local(F.Owned, mutable, b.copy, b.reference);
      DeclareScope(ps.frames, b.name, slot);
      NamesSplit(bs);
      BindSim(m, cx, ps, b.name, local, slot);
      BindAllSim(m, F.Bind(cx, b.name, local), ps.(frames := Declare(ps.frames, b.name, slot)), bs[1..], mutable);
    }
  }

  lemma {:induction false} BindUnsetSim(m: Plan, cx: F.Cx, ps: PathState, bs: seq<Binding>, mutable: bool)
    requires Sim(m, cx, ps) && ps.frames != [] && FreshNames(m, bs, true, InScope(ps.frames))
    requires Unguarded(m, Names(bs), ps.point)
    ensures Sim(m, F.BindUninit(cx, bs, mutable), DeclareAll(ps, bs, Unset))
    decreases |bs|
  {
    if bs != [] {
      var b, slot := bs[0], SlotOf(bs[0], Unset);
      var local := F.Local(F.Uninit, mutable, true, false);
      DeclareScope(ps.frames, b.name, slot);
      NamesSplit(bs);
      BindSim(m, cx, ps, b.name, local, slot);
      BindUnsetSim(m, F.Bind(cx, b.name, local), ps.(frames := Declare(ps.frames, b.name, slot)), bs[1..], mutable);
    }
  }

  lemma {:induction false} StmtScope(m: Plan, s: Stmt, ps: PathState, w: Where)
    requires ps.frames != [] && FitStmt(m, s, InScope(ps.frames), w)
    ensures InScope(RunStmt(s, ps).frames) == InScope(ps.frames) + StmtNames(s)
  {
    match s
    case Let(pat, init, mutable) =>
      assert Names(F.Bindings(pat)) == PatNames(pat);
      if init.None? {
        DeclareAllScope(m, ps, F.Bindings(pat), true);
      } else {
        var ps1 := RunFor(init.value, PatCarriers(pat), ps);
        AlikeScope(ps.frames, ps1.frames);
        DeclareAllScope(m, ps1, F.Bindings(pat), false);
      }
    case ExprStmt(e) => AlikeScope(ps.frames, RunFor(e, {}, ps).frames);
  }

  lemma {:induction false} StmtsScope(m: Plan, ss: seq<Stmt>, ps: PathState, w: Where)
    requires ps.frames != [] && FitStmts(m, ss, InScope(ps.frames), w)
    ensures InScope(RunStmts(ss, ps).frames) == InScope(ps.frames) + StmtsNames(ss)
    decreases |ss|
  {
    if ss != [] {
      StmtScope(m, ss[0], ps, w);
      StmtsScope(m, ss[1..], RunStmt(ss[0], ps), On(w, |ReadsStmt(ss[0])|));
    }
  }

  // ----- joins -----

  /** What the left side knows to be borrowed the join does. */
  lemma GuardsJoined(m: Plan, a: F.Cx, b: F.Cx, point: nat)
    requires GuardsOk(m, a.locals, a.ledger, point) && F.JoinLocals(a.locals, b.locals).Keys == a.locals.Keys
    ensures GuardsOk(m, F.JoinLocals(a.locals, b.locals), F.JoinLedgers(a.ledger, b.ledger), point)
  {
    var locals, ledger := F.JoinLocals(a.locals, b.locals), F.JoinLedgers(a.ledger, b.ledger);
    forall g | m.Owners() && Active(m, g, point) ensures Guarded(m, locals, ledger, g)
    {
      assert Guarded(m, a.locals, a.ledger, g);
    }
  }

  /** The join is at least as bad as either side, on frames that are alike. */
  lemma {:induction false} JoinSim(m: Plan, a: F.Cx, b: F.Cx, pa: PathState, pb: PathState)
    requires Sim(m, a, pa) && LocalsOk(m, b.locals, pb.frames) && CoverOk(m, b.ledger, pb.live, pb.point) && Alike(pa.frames, pb.frames)
    ensures Sim(m, F.JoinInto(a, b), pa)
    ensures LocalsOk(m, F.JoinLocals(a.locals, b.locals), pb.frames)
    ensures CoverOk(m, F.JoinLedgers(a.ledger, b.ledger), pb.live, pb.point)
  {
    AlikeScope(pa.frames, pb.frames);
    var locals, ledger := F.JoinLocals(a.locals, b.locals), F.JoinLedgers(a.ledger, b.ledger);
    assert locals.Keys == a.locals.Keys;
    GuardsJoined(m, a, b, pa.point);
    forall x | x in locals
      ensures LocalOk(m, locals[x], Lookup(pa.frames, x).value) && LocalOk(m, locals[x], Lookup(pb.frames, x).value)
    {
      AlikeLookup(pa.frames, pb.frames, x);
      assert LocalOk(m, a.locals[x], Lookup(pa.frames, x).value) && LocalOk(m, b.locals[x], Lookup(pb.frames, x).value);
    }
    CoverMore(m, a.ledger, ledger, pa.live, pa.point);
    CoverMore(m, b.ledger, ledger, pb.live, pb.point);
  }

  /** A path keeps its standing while other branches are walked, `n` points on. */
  lemma {:induction false} Restand(m: Plan, cx: F.Cx, ps: PathState, later: F.Cx, locals: F.Locals, ledger: F.Ledger, n: nat)
    requires Sim(m, cx, ps) && LocalsOk(m, locals, ps.frames) && CoverOk(m, ledger, ps.live, ps.point)
    requires GuardsOk(m, locals, ledger, ps.point + n)
    requires later.scopes == cx.scopes && F.Framed(cx, later) && later.point == cx.point + n
    ensures Sim(m, later.(locals := locals, ledger := ledger), Skip(ps, n))
  {
    CoverLater(m, ledger, ps.live, ps.point, ps.point + n);
  }

  // ----- what a value may reach -----

  lemma {:induction false} KinClans(m: Plan, ties: set<(string, string)>, names: set<string>, n: nat, y: string)
    requires (forall t :: t in ties ==> m.Clan(t.0) == m.Clan(t.1)) && y in Kin(ties, names, n)
    ensures m.Clan(y) in Clans(m, names)
    decreases n
  {
    if n > 0 {
      var next := names + (set t | t in ties && t.0 in names :: t.1) + (set t | t in ties && t.1 in names :: t.0);
      KinClans(m, ties, next, n - 1, y);
      var x :| x in next && m.Clan(x) == m.Clan(y);
      if x !in names {
        var t :| t in ties && ((t.0 in names && t.1 == x) || (t.1 in names && t.0 == x));
        assert m.Clan(t.0) in Clans(m, names) || m.Clan(t.1) in Clans(m, names);
      }
    }
  }

  /** What the path ties together lies within the groups. */
  lemma SpreadUnder(m: Plan, ps: PathState, names: set<string>, outside: bool, w: Where)
    requires PathOk(m, ps) && Under(w, ps)
    ensures Under(Spreading(m, w, names, InScope(ps.frames), outside), Spread(ps, names, outside))
  {
    var kin := Kin(ps.ties, names, |ps.ties|);
    forall y | y in kin ensures m.Clan(y) in Clans(m, names)
    {
      KinClans(m, ps.ties, names, |ps.ties|, y);
    }
    if kin * ps.leaks != {} {
      var y :| y in kin * ps.leaks;
      assert m.Clan(y) in Clans(m, names) && m.Clan(y) in m.open;
    }
  }

  lemma MingleUnder(m: Plan, ps: PathState, names: set<string>, outside: bool, w: Where)
    requires PathOk(m, ps) && Under(w, ps)
    ensures Under(Mingling(m, w, names, InScope(ps.frames), outside), Mingle(ps, names, outside))
  {
    SpreadUnder(m, ps, names, outside, w);
  }

  lemma ReadAllSteady(m: Plan, ps: PathState, xs: seq<string>)
    requires SlotsOk(m, ps.frames) && forall x :: x in xs ==> x in m.steady
    ensures ReadAll(ps, xs) == ps
    decreases |xs|
  {
    if xs != [] {
      assert Read(ps, xs[0]) == ps;
      ReadAllSteady(m, ps, xs[1..]);
    }
  }

  /** Calling a lambda that moves nothing and reads steady locals does nothing. */
  lemma {:induction false} InvokeSim(m: Plan, cx: F.Cx, ps: PathState, cs: seq<Closure>, names: set<string>)
    requires Sim(m, cx, ps) && ClosuresOk(m, cs)
    ensures Sim(m, cx, Invoke(ps, cs, names))
    decreases |cs|
  {
    if cs != [] {
      var ps1 := if Called(cs[0], names, ps.point) then MoveAll(ReadAll(ps, cs[0].uses), cs[0].moves) else ps;
      assert ClosureOk(m, cs[0]);
      if m.Strict() { ReadAllSteady(m, ps, cs[0].uses); }
      assert ps1 == ps.(misuse := ps1.misuse);
      InvokeSim(m, cx, ps1, cs[1..], names);
    }
  }

  lemma {:induction false} CaptureNothing(ps: PathState, acts: seq<Act>)
    requires Harmless(acts, InScope(ps.frames))
    ensures CaptureAll(ps, acts) == ps
    decreases |acts|
  {
    if acts != [] {
      assert Capture(ps, acts[0]) == ps;
      CaptureNothing(ps, acts[1..]);
    }
  }

  /** A lambda hands on what it captures, and is harmless to call. */
  lemma EncloseSim(m: Plan, cx: F.Cx, ps: PathState, names: seq<string>, acts: seq<Act>, w: Where)
    requires Sim(m, cx, ps) && FitCapture(m, names, acts, InScope(ps.frames), w) && Under(w, ps)
    ensures Sim(m, cx, Enclose(ps, names, acts))
  {
    var scope := InScope(ps.frames);
    var uses, outside := Within(names, scope), StoresOutside(acts, scope);
    var ps0 := Mingle(ps, F.NameSet(uses), outside);
    MingleUnder(m, ps, F.NameSet(uses), outside, w);
    FollowAllSim(m, cx, ps0, uses, Mingling(m, w, F.NameSet(uses), scope, outside));
    var ps1 := FollowAll(ps0, uses);
    CaptureNothing(ps1, acts);
    HoldSim(m, cx, ps1, Closure(uses, MovedBy(acts, scope), ps1.passing, ps1.limit), ps);
  }

  lemma HoldSim(m: Plan, cx: F.Cx, ps1: PathState, c: Closure, ps: PathState)
    requires Sim(m, cx, ps1) && ClosureOk(m, c)
    ensures Sim(m, cx, Back(ps1.(closures := ps1.closures + [c]), ps))
  {
  }

  // ----- the theorem, by induction on the body -----

  /** The walker and the path stand before `e`. */
  ghost predicate Before(m: Plan, e: Expr, pos: F.Position, cx: F.Cx, ps: PathState, w: Where) {
    F.Clean(e) && Fit(m, e, pos, InScope(ps.frames), w) && At(w, cx, ps) && Sim(m, cx, ps)
  }

  lemma {:induction false} ExprSim(m: Plan, e: Expr, pos: F.Position, cx: F.Cx, ps: PathState, w: Where)
    requires Before(m, e, pos, cx, ps, w)
    ensures Safe(m, F.Walk(e, pos, cx), Run(e, pos, ps))
    decreases e, 6
  {
    if e.Path? || e.Unary? || e.Return? || e.Literal? || e.BlockExpr? || e.Tuple? || e.Field? {
      ShapeSim(m, e, pos, cx, ps, w);
    } else {
      PartsRun(e, pos, ps);
      PartsSim(m, e, pos, cx, ps, w);
    }
  }

  lemma PartsRun(e: Expr, pos: F.Position, ps: PathState)
    requires !e.Path? && !e.Literal? && !e.BlockExpr? && !e.Tuple? && !e.Unary? && !e.Field? && !e.Return?
    ensures Run(e, pos, ps) == RunParts(e, ps)
  {
  }

  lemma {:induction false} ShapeSim(m: Plan, e: Expr, pos: F.Position, cx: F.Cx, ps: PathState, w: Where)
    requires e.Path? || e.Unary? || e.Return? || e.Literal? || e.BlockExpr? || e.Tuple? || e.Field?
    requires Before(m, e, pos, cx, ps, w)
    ensures Safe(m, F.Walk(e, pos, cx), Run(e, pos, ps))
    decreases e, 5
  {
    if e.Path? {
      PathExprSim(m, e, pos, cx, ps, w);
    } else if e.BlockExpr? || e.Tuple? || e.Return? {
      GroupSim(m, e, pos, cx, ps, w);
    } else {
      OneSim(m, e, pos, cx, ps, w);
    }
  }

  lemma {:induction false} PartsSim(m: Plan, e: Expr, pos: F.Position, cx: F.Cx, ps: PathState, w: Where)
    requires !e.Path? && !e.Literal? && !e.BlockExpr? && !e.Tuple? && !e.Unary? && !e.Field? && !e.Return?
    requires Before(m, e, pos, cx, ps, w)
    ensures Safe(m, F.Walk(e, pos, cx), RunParts(e, ps))
    decreases e, 5, 1
  {
    if e.Assign? || e.Borrow? || e.Move? || e.Call? || e.MethodCall? {
      ActionSim(m, e, pos, cx, ps, w);
    } else {
      ControlSim(m, e, pos, cx, ps, w);
    }
  }

  lemma {:induction false} ControlSim(m: Plan, e: Expr, pos: F.Position, cx: F.Cx, ps: PathState, w: Where)
    requires (e.If? || e.Match? || e.Lambda? || e.Binary? || e.Index?) && Before(m, e, pos, cx, ps, w)
    ensures Safe(m, F.Walk(e, pos, cx), RunParts(e, ps))
    decreases e, 5, 0
  {
    match e
    case If(_, _, _) => IfSim(m, e, pos, cx, ps, w);
    case Match(_, _) => MatchSim(m, e, pos, cx, ps, w);
    case Lambda(_, _) => LambdaSim(m, e, pos, cx, ps, w);
    case Binary(l, r) => TwoSim(m, e, pos, cx, ps, w);
    case Index(l, r) => TwoSim(m, e, pos, cx, ps, w);
  }

  lemma {:induction false} ActionSim(m: Plan, e: Expr, pos: F.Position, cx: F.Cx, ps: PathState, w: Where)
    requires (e.Assign? || e.Borrow? || e.Move? || e.Call? || e.MethodCall?) && Before(m, e, pos, cx, ps, w)
    ensures Safe(m, F.Walk(e, pos, cx), RunParts(e, ps))
    decreases e, 5, 0
  {
    match e
    case Assign(_, _, _, _) => AssignExprSim(m, e, pos, cx, ps, w);
    case Borrow(_, _) => BorrowExprSim(m, e, pos, cx, ps, w);
    case Move(_) => MoveExprSim(m, e, pos, cx, ps, w);
    case Call(_, _, _) => CallSim(m, e, pos, cx, ps, w);
    case MethodCall(_, _) => CallSim(m, e, pos, cx, ps, w);
  }

  lemma PathExprSim(m: Plan, e: Expr, pos: F.Position, cx: F.Cx, ps: PathState, w: Where)
    requires e.Path? && Before(m, e, pos, cx, ps, w)
    ensures Safe(m, F.Walk(e, pos, cx), Run(e, pos, ps))
  {
    if e.segs != [] { PathSim(m, cx, ps, e.segs, pos, w); }
  }

  lemma {:induction false} GroupSim(m: Plan, e: Expr, pos: F.Position, cx: F.Cx, ps: PathState, w: Where)
    requires (e.BlockExpr? || e.Tuple? || e.Return?) && Before(m, e, pos, cx, ps, w)
    ensures Safe(m, F.Walk(e, pos, cx), Run(e, pos, ps))
    decreases e, 4
  {
    match e
    case BlockExpr(b) => BlockSim(m, b, cx, ps, w);
    case Tuple(xs) => AllSim(m, xs, cx, ps, w);
    case Return(v) => if v.Some? { ExprSim(m, v.value, F.Moving, cx, ps, w); }
  }

  lemma {:induction false} OneSim(m: Plan, e: Expr, pos: F.Position, cx: F.Cx, ps: PathState, w: Where)
    requires (e.Unary? || e.Literal? || e.Field?) && Before(m, e, pos, cx, ps, w)
    ensures Safe(m, F.Walk(e, pos, cx), Run(e, pos, ps))
    decreases e, 4
  {
    match e
    case Literal =>
    case Unary(_, _, r) => ExprSim(m, r, F.Use, if pos.Use? then F.DerefMove(cx, e) else cx, ps, w);
    case Field(r, _) => ExprSim(m, r, F.Use, cx, ps, w);
  }

  /** A whole expression, for names of its own. */
  lemma {:induction false} ForSim(m: Plan, e: Expr, names: set<string>, cx: F.Cx, ps: PathState, w: Where)
    requires F.Clean(e) && Fit(m, e, F.Use, InScope(ps.frames), Span(w, names, |Reads(e)|)) && At(w, cx, ps) && Sim(m, cx, ps)
    ensures Safe(m, F.Walk(e, F.Use, cx), RunFor(e, names, ps))
    decreases e, 7
  {
    ExprSim(m, e, F.Use, cx, Whole(ps, names, |Reads(e)|), Span(w, names, |Reads(e)|));
  }

  /** One expression after another. */
  lemma {:induction false} ThenSim(m: Plan, e: Expr, pos: F.Position, cx: F.Cx, ps: PathState, w: Where)
    requires F.Clean(e) && Fit(m, e, pos, InScope(ps.frames), w) && At(w, cx, ps) && Safe(m, cx, ps)
    ensures Safe(m, F.Walk(e, pos, cx), Run(e, pos, ps))
    decreases e, 7
  {
    if Rejected(m, cx.diag) { StaysRejected(m, cx, F.Walk(e, pos, cx)); } else { ExprSim(m, e, pos, cx, ps, w); }
  }

  lemma {:induction false} TwoSim(m: Plan, e: Expr, pos: F.Position, cx: F.Cx, ps: PathState, w: Where)
    requires (e.Binary? || e.Index?) && Before(m, e, pos, cx, ps, w)
    ensures Safe(m, F.Walk(e, pos, cx), RunParts(e, ps))
    decreases e, 4
  {
    if e.Binary? { PairSim(m, e, e.lhs, e.rhs, cx, ps, w); } else { PairSim(m, e, e.receiver, e.idx, cx, ps, w); }
  }

  lemma {:induction false} PairSim(m: Plan, e: Expr, l: Expr, r: Expr, cx: F.Cx, ps: PathState, w: Where)
    requires l < e && r < e && F.Clean(l) && F.Clean(r) && At(w, cx, ps) && Sim(m, cx, ps)
    requires Fit(m, l, F.Use, InScope(ps.frames), w) && Fit(m, r, F.Use, InScope(ps.frames), On(w, |Reads(l)|))
    ensures Safe(m, F.Walk(r, F.Use, F.Walk(l, F.Use, cx)), Run(r, F.Use, Run(l, F.Use, ps)))
    decreases e, 3
  {
    var cx1, ps1 := F.Walk(l, F.Use, cx), Run(l, F.Use, ps);
    ExprSim(m, l, F.Use, cx, ps, w);
    Onward(cx, ps, cx1, ps1, w, |Reads(l)|);
    ThenSim(m, r, F.Use, cx1, ps1, On(w, |Reads(l)|));
  }

  lemma {:induction false} AssignExprSim(m: Plan, e: Expr, pos: F.Position, cx: F.Cx, ps: PathState, w: Where)
    requires e.Assign? && Before(m, e, pos, cx, ps, w)
    ensures Safe(m, F.Walk(e, pos, cx), RunParts(e, ps))
    decreases e, 4
  {
    StoreSim(m, e, cx, ps, w);
  }

  lemma {:induction false} StoreSim(m: Plan, e: Expr, cx: F.Cx, ps: PathState, w: Where)
    requires e.Assign? && F.Clean(e) && FitAssign(m, e, InScope(ps.frames), w) && At(w, cx, ps) && Sim(m, cx, ps)
    ensures Safe(m, F.WalkAssign(e, cx), RunAssign(e, ps))
    decreases e, 3
  {
    var ps0 := Toward(ps, {}, ps.limit);
    var cx1, ps1 := F.Walk(e.lhs, F.Target, cx), Back(Run(e.lhs, F.Target, ps0), ps);
    ExprSim(m, e.lhs, F.Target, cx, ps0, w.(carry := {}));
    Onward(cx, ps, cx1, ps1, w, |Reads(e.lhs)|);
    StoredSim(m, e, cx1, ps1, On(w, |Reads(e.lhs)|));
  }

  lemma {:induction false} StoredSim(m: Plan, e: Expr, cx: F.Cx, ps: PathState, w: Where)
    requires e.Assign? && F.Clean(e.rhs) && Safe(m, cx, ps) && At(w, cx, ps)
    requires Fit(m, e.rhs, F.Use, InScope(ps.frames), AfterTarget(m, e, InScope(ps.frames), w))
    ensures
      var cx1 := if !e.compound && Simple(e.lhs) then cx.(pending := Some(e.lhs.segs[0])) else cx;
      Safe(m, F.Walk(e.rhs, F.Use, cx1), Run(e.rhs, F.Use, TowardTarget(ps, e)))
    decreases e, 2, 1
  {
    var cx1 := if !e.compound && Simple(e.lhs) then cx.(pending := Some(e.lhs.segs[0])) else cx;
    if Rejected(m, cx.diag) { StaysRejected(m, cx1, F.Walk(e.rhs, F.Use, cx1)); } else { SourceSim(m, e, cx, ps, w); }
  }

  /** The right side, under the names that its target gives. */
  lemma {:induction false} SourceSim(m: Plan, e: Expr, cx: F.Cx, ps: PathState, w: Where)
    requires e.Assign? && F.Clean(e.rhs) && Sim(m, cx, ps) && At(w, cx, ps)
    requires Fit(m, e.rhs, F.Use, InScope(ps.frames), AfterTarget(m, e, InScope(ps.frames), w))
    ensures
      var cx1 := if !e.compound && Simple(e.lhs) then cx.(pending := Some(e.lhs.segs[0])) else cx;
      Safe(m, F.Walk(e.rhs, F.Use, cx1), Run(e.rhs, F.Use, TowardTarget(ps, e)))
    decreases e, 2, 0
  {
    var cx1 := if !e.compound && Simple(e.lhs) then cx.(pending := Some(e.lhs.segs[0])) else cx;
    var ps1, w1 := TowardTarget(ps, e), AfterTarget(m, e, InScope(ps.frames), w);
    TargetUnder(m, e, ps, w);
    assert w1.pend == cx1.pending;
    ExprSim(m, e.rhs, F.Use, cx1, ps1, w1);
  }

  lemma TargetUnder(m: Plan, e: Expr, ps: PathState, w: Where)
    requires e.Assign? && PathOk(m, ps) && Under(w, ps)
    ensures Under(AfterTarget(m, e, InScope(ps.frames), w), TowardTarget(ps, e))
  {
    var names := F.NameSet(Reads(e.lhs));
    SpreadUnder(m, ps, names, !(names <= InScope(ps.frames)), w);
  }

  lemma {:induction false} BorrowExprSim(m: Plan, e: Expr, pos: F.Position, cx: F.Cx, ps: PathState, w: Where)
    requires e.Borrow? && Before(m, e, pos, cx, ps, w)
    ensures Safe(m, F.Walk(e, pos, cx), RunParts(e, ps))
    decreases e, 4
  {
    ReferSim(m, e, cx, ps, w);
  }

  lemma {:induction false} ReferSim(m: Plan, e: Expr, cx: F.Cx, ps: PathState, w: Where)
    requires e.Borrow? && F.Clean(e) && FitBorrow(m, e, InScope(ps.frames), w) && At(w, cx, ps) && Sim(m, cx, ps)
    ensures Safe(m, F.WalkBorrow(e, cx), RunBorrow(e, ps))
    decreases e, 3
  {
    F.PlaceIsTruncated(e.inner, cx.locals.Keys);
    F.PlacesAreShaped(e.inner, cx.locals.Keys);
    match F.FullPlace(e.inner, cx.locals.Keys)
    case Some(p) => PlaceSim(m, e, p, cx, ps, w);
    case None => ExprSim(m, e.inner, if e.mutable then F.ForMut else F.ForShared, cx, ps, w);
  }

  lemma {:induction false} PlaceSim(m: Plan, e: Expr, p: Place, cx: F.Cx, ps: PathState, w: Where)
    requires e.Borrow? && F.PlaceShaped(e.inner) && F.Visible(e.inner) && p.root in cx.locals && At(w, cx, ps) && Sim(m, cx, ps)
    requires FitTake(m, p, Kind(e.mutable), w) && FitReads(m, Reads(e.inner), InScope(ps.frames), w)
    requires OperandsOk(m, OperandNames(e.inner), ps) && NoStarts(m, ps.point + 1, ps.point + |Reads(e.inner)|)
    ensures Safe(m, F.PointsOnly(e.inner, F.TryBorrow(cx, Truncate(p), Kind(e.mutable))), PlaceReads(e.inner, Take(ps, p, Kind(e.mutable))))
  {
    var cx1, ps1 := F.TryBorrow(cx, Truncate(p), Kind(e.mutable)), Take(ps, p, Kind(e.mutable));
    BorrowSim(m, cx, ps, p, Kind(e.mutable), w);
    if Rejected(m, cx1.diag) { StaysRejected(m, cx1, F.PointsOnly(e.inner, cx1)); } else { PlaceReadsSim(m, e.inner, cx1, ps1, w); }
  }

  lemma {:induction false} MoveExprSim(m: Plan, e: Expr, pos: F.Position, cx: F.Cx, ps: PathState, w: Where)
    requires e.Move? && Before(m, e, pos, cx, ps, w)
    ensures Safe(m, F.Walk(e, pos, cx), RunParts(e, ps))
    decreases e, 4
  {
    if e.inner.Unary? && e.inner.deref {
      assert F.Clean(e.inner);
      ExprSim(m, e.inner.operand, F.Use, F.DerefMove(cx, e.inner), ps, w);
    } else {
      ExprSim(m, e.inner, F.Moving, cx, ps, w);
    }
  }

  lemma {:induction false} CallSim(m: Plan, e: Expr, pos: F.Position, cx: F.Cx, ps: PathState, w: Where)
    requires (e.Call? || e.MethodCall?) && Before(m, e, pos, cx, ps, w)
    ensures Safe(m, F.Walk(e, pos, cx), RunParts(e, ps))
    decreases e, 4
  {
    OperandsSim(m, e, cx, ps, w);
    CalledSim(m, F.WalkCall(e, cx), RunOperands(e, ps), e, InScope(ps.frames));
  }

  lemma CalledSim(m: Plan, cx: F.Cx, ps: PathState, e: Expr, scope: set<string>)
    requires (e.Call? || e.MethodCall?) && Safe(m, cx, ps)
    ensures Safe(m, cx, InvokeFor(ps, e, scope))
  {
    if !Rejected(m, cx.diag) { InvokeSim(m, cx, ps, ps.closures, OperandsOf(e, scope)); }
  }

  lemma {:induction false} OperandsSim(m: Plan, e: Expr, cx: F.Cx, ps: PathState, w: Where)
    requires (e.Call? || e.MethodCall?) && F.Clean(e) && FitCall(m, e, InScope(ps.frames), w) && At(w, cx, ps) && Sim(m, cx, ps)
    ensures Safe(m, F.WalkCall(e, cx), RunOperands(e, ps))
    decreases e, 3
  {
    var scope, among := InScope(ps.frames), Among(ps, e);
    var w1 := Amid(m, e, scope, w);
    MingleUnder(m, ps, OperandsOf(e, scope), !(OperandsOf(e, scope) <= scope), w);
    FirstSim(m, e, cx, if Global(e, scope) then Toward(ps, {}, ps.limit) else among, among, if Global(e, scope) then w.(carry := {}) else w1, w1);
  }

  lemma {:induction false} FirstSim(m: Plan, e: Expr, cx: F.Cx, ps: PathState, among: PathState, w: Where, w1: Where)
    requires (e.Call? || e.MethodCall?) && F.Clean(e) && At(w, cx, ps) && At(w1, cx, among) && Sim(m, cx, ps)
    requires ps == among.(passing := ps.passing, limit := ps.limit)
    requires Fit(m, First(e), if e.Call? then F.Use else F.ForShared, InScope(ps.frames), w)
    requires RestFit(m, e, InScope(ps.frames), On(w1, |Reads(First(e))|))
    ensures Safe(m, F.WalkCall(e, cx), RunRest(e, Back(Run(First(e), if e.Call? then F.Use else F.ForShared, ps), among)))
    decreases e, 2
  {
    var how := if e.Call? then F.Use else F.ForShared;
    var cx1, ps1 := F.Walk(First(e), how, cx), Back(Run(First(e), how, ps), among);
    ExprSim(m, First(e), how, cx, ps, w);
    Onward(cx, among, cx1, ps1, w1, |Reads(First(e))|);
    if Rejected(m, cx1.diag) {
      StaysRejected(m, cx1, F.WalkCall(e, cx));
    } else {
      RestSim(m, e, cx1, ps1, On(w1, |Reads(First(e))|));
    }
  }

  ghost predicate RestFit(m: Plan, e: Expr, bound: set<string>, w: Where)
    requires e.Call? || e.MethodCall?
  {
    if e.Call? then FitArgs(m, e.args, e.params, bound, w) else FitAll(m, e.args, bound, w)
  }

  lemma {:induction false} RestSim(m: Plan, e: Expr, cx: F.Cx, ps: PathState, w: Where)
    requires (e.Call? || e.MethodCall?) && F.CleanAll(e.args) && RestFit(m, e, InScope(ps.frames), w) && At(w, cx, ps) && Sim(m, cx, ps)
    ensures Safe(m, if e.Call? then F.WalkArgs(e.args, e.params, cx) else F.WalkAll(e.args, cx), RunRest(e, ps))
    decreases e, 1
  {
    if e.Call? { ArgsSim(m, e.args, e.params, cx, ps, w); } else { AllSim(m, e.args, cx, ps, w); }
  }

  lemma {:induction false} AllSim(m: Plan, es: seq<Expr>, cx: F.Cx, ps: PathState, w: Where)
    requires F.CleanAll(es) && FitAll(m, es, InScope(ps.frames), w) && At(w, cx, ps) && Sim(m, cx, ps)
    ensures Safe(m, F.WalkAll(es, cx), RunAll(es, ps))
    decreases es, 3
  {
    if es != [] {
      var cx1, ps1 := F.Walk(es[0], F.Use, cx), Run(es[0], F.Use, ps);
      ExprSim(m, es[0], F.Use, cx, ps, w);
      Onward(cx, ps, cx1, ps1, w, |Reads(es[0])|);
      if Rejected(m, cx1.diag) {
        StaysRejected(m, cx1, F.WalkAll(es[1..], cx1));
      } else {
        AllSim(m, es[1..], cx1, ps1, On(w, |Reads(es[0])|));
      }
    }
  }

  lemma {:induction false} ArgsSim(m: Plan, args: seq<Expr>, params: seq<Passing>, cx: F.Cx, ps: PathState, w: Where)
    requires F.CleanAll(args) && FitArgs(m, args, params, InScope(ps.frames), w) && At(w, cx, ps) && Sim(m, cx, ps)
    ensures Safe(m, F.WalkArgs(args, params, cx), RunArgs(args, params, ps))
    decreases args, 3
  {
    if args != [] {
      var pos, rest := F.PositionOf(params), if params == [] then [] else params[1..];
      var cx1, ps1 := F.Walk(args[0], pos, cx), Run(args[0], pos, ps);
      ExprSim(m, args[0], pos, cx, ps, w);
      Onward(cx, ps, cx1, ps1, w, |Reads(args[0])|);
      if Rejected(m, cx1.diag) {
        StaysRejected(m, cx1, F.WalkArgs(args[1..], rest, cx1));
      } else {
        ArgsSim(m, args[1..], rest, cx1, ps1, On(w, |Reads(args[0])|));
      }
    }
  }

  // ----- lambdas -----

  lemma {:induction false} LambdaSim(m: Plan, e: Expr, pos: F.Position, cx: F.Cx, ps: PathState, w: Where)
    requires e.Lambda? && Before(m, e, pos, cx, ps, w)
    ensures Safe(m, F.Walk(e, pos, cx), RunParts(e, ps))
    decreases e, 4
  {
    ClosureSim(m, e, cx, ps, w);
  }

  /** Where the scope of a lambda ends. */
  lemma LambdaEnds(m: Plan, e: Expr, bound: set<string>, w: Where)
    requires e.Lambda? && FitLambda(m, e, bound, w)
    ensures FitEnd(m, Names(F.UnitBindings(e.inputs)), w.point + |ReadsBlock(e.body)|)
  {
  }

  /** Gives the end of a scope a name of its own, which keeps the proof around it small. */
  lemma {:induction false} EndAtPoint(m: Plan, names: set<string>, point: nat) returns (last: nat)
    requires FitEnd(m, names, point)
    ensures FitEnd(m, names, last) && last == point
  {
    last := point;
  }

  lemma LambdaGuards(m: Plan, e: Expr, bound: set<string>, w: Where)
    requires e.Lambda? && FitLambda(m, e, bound, w)
    ensures Unguarded(m, Names(F.UnitBindings(e.inputs)), w.point) && NoCross(m, w.point, w.point + |ReadsBlock(e.body)|)
  {
  }

  lemma {:induction false} LambdaScopeSim(m: Plan, e: Expr, cx: F.Cx, ps: PathState, w: Where)
    requires e.Lambda? && F.CleanBlock(e.body) && FitLambda(m, e, InScope(ps.frames), w) && At(w, cx, ps) && Sim(m, cx, ps)
    ensures Safe(m, F.WalkScope(F.UnitBindings(e.inputs), e.body, cx), RunScope(F.UnitBindings(e.inputs), e.body, ps))
    decreases e, 2
  {
    LambdaEnds(m, e, InScope(ps.frames), w);
    var last := EndAtPoint(m, Names(F.UnitBindings(e.inputs)), w.point + |ReadsBlock(e.body)|);
    LambdaGuards(m, e, InScope(ps.frames), w);
    ScopeSim(m, e.body, F.UnitBindings(e.inputs), cx, ps, last, w);
  }

  lemma {:induction false} ClosureSim(m: Plan, e: Expr, cx: F.Cx, ps: PathState, w: Where)
    requires e.Lambda? && F.CleanBlock(e.body) && FitLambda(m, e, InScope(ps.frames), w) && At(w, cx, ps) && Sim(m, cx, ps)
    ensures Safe(m, F.WalkLambda(e, cx), RunLambda(e, ps))
    decreases e, 3
  {
    var cx1, tried := F.WalkScope(F.UnitBindings(e.inputs), e.body, cx), RunScope(F.UnitBindings(e.inputs), e.body, ps);
    LambdaScopeSim(m, e, cx, ps, w);
    if Rejected(m, cx1.diag) {
      StaysRejected(m, cx1, F.WalkLambda(e, cx));
    } else {
      LambdaGuards(m, e, InScope(ps.frames), w);
      HeldSim(m, ReadsBlock(e.body), ActsBlock(e.body), cx, Noted(ps, tried), F.WalkLambda(e, cx), w);
    }
  }

  /** The walker forgets what the body did; the path keeps what it captured. */
  lemma {:induction false} HeldSim(m: Plan, names: seq<string>, acts: seq<Act>, cx: F.Cx, ps: PathState, later: F.Cx, w: Where)
    requires Sim(m, cx, ps) && At(w, cx, ps) && FitCapture(m, names, acts, InScope(ps.frames), w)
    requires F.Framed(cx, later) && later == F.Restart(later, cx) && later.scopes == cx.scopes && later.point == cx.point + |names|
    requires NoCross(m, w.point, w.point + |names|)
    ensures Sim(m, later, Skip(Enclose(ps, names, acts), |names|))
  {
    EncloseSim(m, cx, ps, names, acts, w);
    GuardsLater(m, cx.locals, cx.ledger, ps.point, ps.point + |names|);
    Restand(m, cx, Enclose(ps, names, acts), later, cx.locals, cx.ledger, |names|);
  }

  /** The body of a lambda, run once where it is written. */
  lemma {:induction false} ScopeSim(m: Plan, b: Block, bs: seq<Binding>, cx: F.Cx, ps: PathState, last: nat, w: Where)
    requires F.CleanBlock(b) && FreshNames(m, bs, false, InScope(ps.frames)) && At(w, cx, ps) && Sim(m, cx, ps)
    requires FitBlock(m, b, InScope(ps.frames) + Names(bs), Span(w, {}, |ReadsBlock(b)|))
    requires FitEnd(m, Names(bs), last) && last == w.point + |ReadsBlock(b)| && Unguarded(m, Names(bs), w.point)
    ensures Safe(m, F.WalkScope(bs, b, cx), RunScope(bs, b, ps))
    decreases b, 1
  {
    var cx1, ps1 := F.BindAll(F.Push(cx), bs, false), Inside(ps, bs, |ReadsBlock(b)|);
    EnterSim(m, bs, cx, ps, w);
    FreshApart(m, bs, false, InScope(ps.frames));
    InsideSim(m, b, cx1, ps1, ps, Names(bs), last, Span(w, {}, |ReadsBlock(b)|));
  }

  /** A block in the scope that `outer` opened. */
  lemma {:induction false} InsideSim(m: Plan, b: Block, cx: F.Cx, ps: PathState, outer: PathState, names: set<string>, last: nat, w: Where)
    requires F.CleanBlock(b) && FitBlock(m, b, InScope(ps.frames), w) && At(w, cx, ps) && Sim(m, cx, ps) && cx.scopes != []
    requires AlikeOuter(Open(outer).frames, ps.frames) && InScope(ps.frames) == InScope(outer.frames) + names
    requires names !! InScope(outer.frames) && FitEnd(m, names, last) && last == ps.point + |ReadsBlock(b)|
    ensures Safe(m, F.Pop(F.WalkBlock(b, cx)), Close(RunBlock(b, ps)))
    decreases b, 1, 0
  {
    BlockSim(m, b, cx, ps, w);
    LeaveScope(m, F.WalkBlock(b, cx), outer, ps, RunBlock(b, ps), names, last);
  }

  lemma LeaveScope(m: Plan, cx: F.Cx, outer: PathState, ps: PathState, ps1: PathState, names: set<string>, last: nat)
    requires cx.scopes != [] && Safe(m, cx, ps1) && Alike(ps.frames, ps1.frames) && AlikeOuter(Open(outer).frames, ps.frames)
    requires InScope(ps.frames) == InScope(outer.frames) + names && names !! InScope(outer.frames) && FitEnd(m, names, last) && last == ps1.point
    ensures Safe(m, F.Pop(cx), Close(ps1))
  {
    AlikeScope(ps.frames, ps1.frames);
    CloseAlike(outer, ps, ps1);
    EndSim(m, cx, ps1, outer.frames, names);
  }

  lemma {:induction false} FreshApart(m: Plan, bs: seq<Binding>, unset: bool, bound: set<string>)
    requires FreshNames(m, bs, unset, bound)
    ensures Names(bs) !! bound
    decreases |bs|
  {
    if bs != [] {
      FreshApart(m, bs[1..], unset, bound + {bs[0].name});
      NamesSplit(bs);
    }
  }

  lemma {:induction false} StmtsApart(m: Plan, ss: seq<Stmt>, bound: set<string>, w: Where)
    requires FitStmts(m, ss, bound, w)
    ensures StmtsNames(ss) !! bound
    decreases |ss|
  {
    if ss != [] {
      StmtApart(m, ss[0], bound, w);
      StmtsApart(m, ss[1..], bound + StmtNames(ss[0]), On(w, |ReadsStmt(ss[0])|));
    }
  }

  lemma StmtApart(m: Plan, s: Stmt, bound: set<string>, w: Where)
    requires FitStmt(m, s, bound, w)
    ensures StmtNames(s) !! bound
  {
    match s
    case Let(pat, init, _) => FreshApart(m, F.Bindings(pat), init.None?, bound);
    case ExprStmt(_) =>
  }

  lemma {:induction false} EnterSim(m: Plan, bs: seq<Binding>, cx: F.Cx, ps: PathState, w: Where)
    requires FreshNames(m, bs, false, InScope(ps.frames)) && Unguarded(m, Names(bs), w.point) && Sim(m, cx, ps) && At(w, cx, ps)
    ensures
      var cx1, ps1 := F.BindAll(F.Push(cx), bs, false), Enter(ps, bs);
      && Sim(m, cx1, ps1) && InScope(ps1.frames) == InScope(ps.frames) + Names(bs) && At(w, cx1, ps1)
      && cx1.scopes != [] && AlikeOuter(Open(ps).frames, ps1.frames)
  {
    OpenSim(m, cx, ps);
    BindAllSim(m, F.Push(cx), Open(ps), bs, false);
    DeclareAllScope(m, Open(ps), bs, false);
    F.BindFrames(F.Push(cx), bs, false);
  }

  // ----- branches -----

  lemma {:induction false} IfSim(m: Plan, e: Expr, pos: F.Position, cx: F.Cx, ps: PathState, w: Where)
    requires e.If? && Before(m, e, pos, cx, ps, w)
    ensures Safe(m, F.Walk(e, pos, cx), RunParts(e, ps))
    decreases e, 4
  {
    var c := e.cond;
    assert F.Clean(c) && Fit(m, c, F.Use, InScope(ps.frames), Span(w, {}, |Reads(c)|));
    var cx1, ps1 := WholeSim(m, e, c, {}, cx, ps, w);
    assert F.Walk(e, pos, cx) == F.WalkBranches(e, cx1) && RunParts(e, ps) == RunBranch(e, Choice(ps1), Chosen(ps1));
    TakenSim(m, e, cx1, ps1, On(w, |Reads(c)|));
  }

  lemma {:induction false} TakenSim(m: Plan, e: Expr, cx: F.Cx, ps: PathState, w: Where)
    requires e.If? && F.Clean(e) && FitBranches(m, e, InScope(ps.frames), w) && At(w, cx, ps) && Safe(m, cx, ps)
    ensures Safe(m, F.WalkBranches(e, cx), RunBranch(e, Choice(ps), Chosen(ps)))
    decreases e, 3
  {
    if Rejected(m, cx.diag) { StaysRejected(m, cx, F.WalkBranches(e, cx)); } else { BranchesSim(m, e, cx, Chosen(ps), Choice(ps), w); }
  }

  /** A whole part of `e`, and where that leads. */
  lemma {:induction false} WholeSim(m: Plan, e: Expr, part: Expr, names: set<string>, cx: F.Cx, ps: PathState, w: Where)
    returns (cx1: F.Cx, ps1: PathState)
    requires part < e && F.Clean(part) && Fit(m, part, F.Use, InScope(ps.frames), Span(w, names, |Reads(part)|))
    requires At(w, cx, ps) && Sim(m, cx, ps)
    ensures cx1 == F.Walk(part, F.Use, cx) && ps1 == RunFor(part, names, ps) && Safe(m, cx1, ps1)
    ensures InScope(ps1.frames) == InScope(ps.frames) && At(On(w, |Reads(part)|), cx1, ps1)
    decreases e, 0
  {
    cx1, ps1 := F.Walk(part, F.Use, cx), RunFor(part, names, ps);
    ForSim(m, part, names, cx, ps, w);
    Onward(cx, ps, cx1, ps1, w, |Reads(part)|);
  }

  /** Both branches are walked from the same state; the path takes one. */
  lemma {:induction false} BranchesSim(m: Plan, e: Expr, cx1: F.Cx, c: PathState, choice: nat, w: Where)
    requires e.If? && F.Clean(e) && FitBranches(m, e, InScope(c.frames), w) && At(w, cx1, c) && Sim(m, cx1, c)
    ensures Safe(m, F.WalkBranches(e, cx1), RunBranch(e, choice, c))
    decreases e, 2
  {
    var cx2, p2 := F.WalkBlock(e.thn, cx1), RunBlock(e.thn, c);
    BlockSim(m, e.thn, cx1, c, w);
    if Rejected(m, cx2.diag) {
      StaysRejected(m, cx2, if e.els.None? then cx2 else F.Walk(e.els.value, F.Use, F.Restart(cx2, cx1)));
    } else {
      var n := |ReadsBlock(e.thn)|;
      MergeSim(m, cx1, true, cx1, c, c, cx2, p2, n);
      assert F.Merge(true, cx1, cx2) == cx2;
      ElseSim(m, e.els, cx1, cx2, Skip(c, n), p2, On(w, n));
    }
  }

  lemma {:induction false} ElseSim(m: Plan, els: Option<Expr>, base: F.Cx, cx: F.Cx, pb: PathState, q: PathState, w: Where)
    requires Between(m, base, false, cx, pb, q) && At(w, cx, pb)
    requires els.Some? ==> F.Clean(els.value) && Fit(m, els.value, F.Use, InScope(pb.frames), w)
    ensures
      var cx3 := F.Restart(cx, base);
      var cx4 := if els.None? then cx3 else F.Walk(els.value, F.Use, cx3);
      var n := if els.None? then 0 else |Reads(els.value)|;
      Safe(m, F.JoinInto(cx4, cx), Skip(q, n)) && Safe(m, F.JoinInto(cx4, cx), if els.None? then pb else Run(els.value, F.Use, pb))
    decreases els, 4
  {
    var cx3 := F.Restart(cx, base);
    if els.None? {
      JoinBranches(m, cx3, cx, pb, q, 0);
    } else {
      var cx4, p4 := F.Walk(els.value, F.Use, cx3), Run(els.value, F.Use, pb);
      ExprSim(m, els.value, F.Use, cx3, pb, w);
      if !Rejected(m, cx4.diag) {
        AlikeTransitive(q.frames, pb.frames, p4.frames);
        JoinBranches(m, cx4, cx, p4, q, |Reads(els.value)|);
      }
    }
  }

  lemma {:induction false} JoinBranches(m: Plan, later: F.Cx, earlier: F.Cx, p: PathState, q: PathState, n: nat)
    requires Sim(m, later, p) && Sim(m, earlier, q) && Alike(q.frames, p.frames)
    requires F.Framed(earlier, later) && later.scopes == earlier.scopes && later.point == earlier.point + n
    ensures Sim(m, F.JoinInto(later, earlier), p) && Sim(m, F.JoinInto(later, earlier), Skip(q, n))
  {
    AlikeTransitive(q.frames, q.frames, p.frames);
    JoinSim(m, later, earlier, p, q);
    Restand(m, earlier, q, later, F.JoinInto(later, earlier).locals, F.JoinInto(later, earlier).ledger, n);
  }

  lemma {:induction false} MatchSim(m: Plan, e: Expr, pos: F.Position, cx: F.Cx, ps: PathState, w: Where)
    requires e.Match? && Before(m, e, pos, cx, ps, w)
    ensures Safe(m, F.Walk(e, pos, cx), RunParts(e, ps))
    decreases e, 4
  {
    SelectSim(m, e, cx, ps, w);
  }

  lemma {:induction false} SelectSim(m: Plan, e: Expr, cx: F.Cx, ps: PathState, w: Where)
    requires e.Match? && Before(m, e, F.Use, cx, ps, w)
    ensures Safe(m, F.WalkMatch(e, cx), RunMatch(e, ps))
    decreases e, 3
  {
    var cx1, ps1 := WholeSim(m, e, e.scrutinee, ArmCarriers(e.arms), cx, ps, w);
    ChosenSim(m, e.arms, cx1, ps1, On(w, |Reads(e.scrutinee)|));
  }

  lemma {:induction false} ChosenSim(m: Plan, arms: seq<Arm>, cx: F.Cx, ps: PathState, w: Where)
    requires ArmsFit(m, arms, cx, ps, w) && Safe(m, cx, ps)
    ensures Safe(m, F.WalkArms(arms, cx, true, cx), RunChosen(arms, ps))
    decreases arms, 8
  {
    if Rejected(m, cx.diag) {
      StaysRejected(m, cx, F.WalkArms(arms, cx, true, cx));
    } else if arms != [] {
      ArmsTake(m, arms, Choice(ps) % |arms|, cx, true, cx, Chosen(ps), ps, w);
    }
  }

  ghost predicate ArmsFit(m: Plan, arms: seq<Arm>, cx: F.Cx, ps: PathState, w: Where) {
    F.CleanArms(arms) && FitArms(m, arms, InScope(ps.frames), w) && At(w, cx, ps)
  }

  lemma {:induction false} ArmsFitSplit(m: Plan, arms: seq<Arm>, cx: F.Cx, pb: PathState, next: F.Cx, w: Where)
    requires arms != [] && ArmsFit(m, arms, cx, pb, w) && next.pending == cx.pending
    ensures F.CleanArm(arms[0]) && FitArm(m, arms[0], InScope(pb.frames), w)
    ensures ArmsFit(m, arms[1..], next, Skip(pb, |ReadsArm(arms[0])|), On(w, |ReadsArm(arms[0])|))
  {
  }

  /** Between two arms: `cx` stands for a path `q` through an earlier arm, if
      there is one, and restarted for a path `pb` that has not entered one yet. */
  ghost predicate Between(m: Plan, base: F.Cx, first: bool, cx: F.Cx, pb: PathState, q: PathState) {
    Sim(m, F.Restart(cx, base), pb) && (!first ==> Sim(m, cx, q) && Alike(q.frames, pb.frames))
  }

  /** One more arm, walked to `arm`, on the path to `p`. */
  lemma {:induction false} MergeSim(m: Plan, base: F.Cx, first: bool, cx: F.Cx, pb: PathState, q: PathState, arm: F.Cx, p: PathState, n: nat)
    requires Between(m, base, first, cx, pb, q) && Sim(m, arm, p) && Alike(pb.frames, p.frames)
    requires F.Framed(cx, arm) && arm.scopes == cx.scopes && arm.point == cx.point + n && NoCross(m, cx.point, cx.point + n)
    ensures Between(m, base, false, F.Merge(first, cx, arm), Skip(pb, n), p)
    ensures !first ==> Between(m, base, false, F.Merge(first, cx, arm), Skip(pb, n), Skip(q, n))
  {
    var next := F.Merge(first, cx, arm);
    GuardsLater(m, base.locals, base.ledger, cx.point, cx.point + n);
    Restand(m, F.Restart(cx, base), pb, arm, base.locals, base.ledger, n);
    AlikeTransitive(pb.frames, pb.frames, p.frames);
    if !first {
      AlikeTransitive(q.frames, pb.frames, p.frames);
      MergeJoined(m, cx, arm, q, p, n);
    }
  }

  /** The join of two arms stands for a path through either. */
  lemma {:induction false} MergeJoined(m: Plan, cx: F.Cx, arm: F.Cx, q: PathState, p: PathState, n: nat)
    requires Sim(m, cx, q) && Sim(m, arm, p) && Alike(q.frames, p.frames) && NoCross(m, cx.point, cx.point + n)
    requires F.Framed(cx, arm) && arm.scopes == cx.scopes && arm.point == cx.point + n
    ensures Sim(m, F.Merge(false, cx, arm), Skip(q, n)) && Sim(m, F.Merge(false, cx, arm), p)
  {
    var next := F.Merge(false, cx, arm);
    JoinSim(m, cx, arm, q, p);
    GuardsLater(m, next.locals, next.ledger, cx.point, cx.point + n);
    Restand(m, cx, q, arm, next.locals, next.ledger, n);
    Restand(m, arm, p, arm, next.locals, next.ledger, 0);
  }

  lemma {:induction false} ArmStep(m: Plan, arm: Arm, base: F.Cx, first: bool, cx: F.Cx, pb: PathState, q: PathState, w: Where)
    requires F.CleanArm(arm) && FitArm(m, arm, InScope(pb.frames), w) && At(w, cx, pb) && Between(m, base, first, cx, pb, q)
    ensures
      var cx1, n := F.WalkArm(arm, F.Restart(cx, base)), |ReadsArm(arm)|;
      Rejected(m, cx1.diag)
      || (Between(m, base, false, F.Merge(first, cx, cx1), Skip(pb, n), RunArm(arm, pb))
          && (!first ==> Between(m, base, false, F.Merge(first, cx, cx1), Skip(pb, n), Skip(q, n))))
    decreases arm, 4
  {
    var cx1 := F.WalkArm(arm, F.Restart(cx, base));
    ArmSim(m, arm, F.Restart(cx, base), pb, w);
    if !Rejected(m, cx1.diag) { MergeSim(m, base, first, cx, pb, q, cx1, RunArm(arm, pb), |ReadsArm(arm)|); }
  }

  /** The state after the first of some arms. */
  function PastArm(arms: seq<Arm>, base: F.Cx, first: bool, cx: F.Cx): (next: F.Cx)
    requires arms != []
    ensures F.WalkArms(arms, base, first, cx) == F.WalkArms(arms[1..], base, false, next)
  {
    F.Merge(first, cx, F.WalkArm(arms[0], F.Restart(cx, base)))
  }

  /** The remaining arms do not lose what a path `q` through an earlier arm has. */
  lemma {:induction false} ArmsKeep(m: Plan, arms: seq<Arm>, base: F.Cx, cx: F.Cx, pb: PathState, q: PathState, w: Where)
    requires Between(m, base, false, cx, pb, q) && ArmsFit(m, arms, cx, pb, w)
    ensures Safe(m, F.WalkArms(arms, base, false, cx), Skip(q, |ReadsArms(arms)|))
    decreases arms, 5
  {
    if arms != [] {
      var n, k := |ReadsArm(arms[0])|, |ReadsArms(arms[1..])|;
      KeepNext(m, arms, base, cx, pb, q, Skip(q, n), w);
      assert Skip(Skip(q, n), k) == Skip(q, n + k) && n + k == |ReadsArms(arms)|;
    } else {
      assert Skip(q, |ReadsArms(arms)|) == q;
    }
  }

  lemma {:induction false} KeepNext(m: Plan, arms: seq<Arm>, base: F.Cx, cx: F.Cx, pb: PathState, q: PathState, q1: PathState, w: Where)
    requires Between(m, base, false, cx, pb, q) && arms != [] && ArmsFit(m, arms, cx, pb, w) && q1 == Skip(q, |ReadsArm(arms[0])|)
    ensures Safe(m, F.WalkArms(arms, base, false, cx), Skip(q1, |ReadsArms(arms[1..])|))
    decreases arms, 4
  {
    var out, next, pb1, kept := PassArm(m, arms, base, false, cx, pb, q, w, true);
    KeepOn(m, arms[1..], base, next, pb1, kept, out, On(w, |ReadsArm(arms[0])|));
  }

  lemma {:induction false} KeepOn(m: Plan, arms: seq<Arm>, base: F.Cx, cx: F.Cx, pb: PathState, q: PathState, out: F.Cx, w: Where)
    requires out == F.WalkArms(arms, base, false, cx) && ArmsFit(m, arms, cx, pb, w)
    requires Rejected(m, out.diag) || Between(m, base, false, cx, pb, q)
    ensures Safe(m, out, Skip(q, |ReadsArms(arms)|))
    decreases arms, 6
  {
    if !Rejected(m, out.diag) { ArmsKeep(m, arms, base, cx, pb, q, w); }
  }

  /** The path goes through arm `k` of the remaining ones; `q` is any path
      through an earlier arm. */
  lemma {:induction false} ArmsTake(m: Plan, arms: seq<Arm>, k: nat, base: F.Cx, first: bool, cx: F.Cx, pb: PathState, q: PathState, w: Where)
    requires k < |arms| && ArmsFit(m, arms, cx, pb, w) && Between(m, base, first, cx, pb, q)
    ensures Safe(m, F.WalkArms(arms, base, first, cx), RunArms(arms, k, pb))
    decreases arms, 6
  {
    ArmsRun(arms, k, pb);
    if k == 0 { NextArmSim(m, arms, base, first, cx, pb, q, w); } else { LaterArmSim(m, arms, k, base, first, cx, pb, q, w); }
  }

  lemma {:induction false} NextArmSim(m: Plan, arms: seq<Arm>, base: F.Cx, first: bool, cx: F.Cx, pb: PathState, q: PathState, w: Where)
    requires arms != [] && ArmsFit(m, arms, cx, pb, w) && Between(m, base, first, cx, pb, q)
    ensures Safe(m, F.WalkArms(arms, base, first, cx), RunArms(arms, 0, pb))
    decreases arms, 5
  {
    var out, next, pb1, q1 := PassArm(m, arms, base, first, cx, pb, q, w, false);
    KeepOn(m, arms[1..], base, next, pb1, q1, out, On(w, |ReadsArm(arms[0])|));
    ArmsRun(arms, 0, pb);
  }

  lemma {:induction false} LaterArmSim(m: Plan, arms: seq<Arm>, k: nat, base: F.Cx, first: bool, cx: F.Cx, pb: PathState, q: PathState, w: Where)
    requires 0 < k < |arms| && ArmsFit(m, arms, cx, pb, w) && Between(m, base, first, cx, pb, q)
    ensures Safe(m, F.WalkArms(arms, base, first, cx), RunArms(arms[1..], k - 1, Skip(pb, |ReadsArm(arms[0])|)))
    decreases arms, 5
  {
    var out, next, pb1, q1 := PassArm(m, arms, base, first, cx, pb, q, w, false);
    assert k - 1 < |arms[1..]|;
    TakeRest(m, arms[1..], k - 1, base, next, pb1, q1, out, On(w, |ReadsArm(arms[0])|));
  }

  lemma ArmsRun(arms: seq<Arm>, k: nat, ps: PathState)
    requires k < |arms|
    ensures RunArms(arms, k, ps) == if k == 0 then Skip(RunArm(arms[0], ps), |ReadsArms(arms[1..])|)
                                    else RunArms(arms[1..], k - 1, Skip(ps, |ReadsArm(arms[0])|))
  {
  }

  lemma {:induction false} TakeRest(m: Plan, arms: seq<Arm>, k: nat, base: F.Cx, cx: F.Cx, pb: PathState, q: PathState, out: F.Cx, w: Where)
    requires k < |arms| && out == F.WalkArms(arms, base, false, cx) && ArmsFit(m, arms, cx, pb, w)
    requires Rejected(m, out.diag) || Between(m, base, false, cx, pb, q)
    ensures Safe(m, out, RunArms(arms, k, pb))
    decreases arms, 7
  {
    if !Rejected(m, out.diag) { ArmsTake(m, arms, k, base, false, cx, pb, q, w); }
  }

  /** Walking on past one arm, with a path through that arm or an earlier one. */
  lemma {:induction false} PassArm(m: Plan, arms: seq<Arm>, base: F.Cx, first: bool, cx: F.Cx, pb: PathState, q: PathState, w: Where, stay: bool)
    returns (out: F.Cx, next: F.Cx, pb1: PathState, q1: PathState)
    requires Between(m, base, first, cx, pb, q) && arms != [] && ArmsFit(m, arms, cx, pb, w) && (stay ==> !first)
    ensures pb1 == Skip(pb, |ReadsArm(arms[0])|) && ArmsFit(m, arms[1..], next, pb1, On(w, |ReadsArm(arms[0])|))
    ensures q1 == if stay then Skip(q, |ReadsArm(arms[0])|) else RunArm(arms[0], pb)
    ensures out == F.WalkArms(arms, base, first, cx) && out == F.WalkArms(arms[1..], base, false, next)
    ensures Rejected(m, out.diag) || Between(m, base, false, next, pb1, q1)
    decreases arms, 3
  {
    next, pb1 := PastArm(arms, base, first, cx), Skip(pb, |ReadsArm(arms[0])|);
    q1 := if stay then Skip(q, |ReadsArm(arms[0])|) else RunArm(arms[0], pb);
    ArmsFitSplit(m, arms, cx, pb, next, w);
    ArmStep(m, arms[0], base, first, cx, pb, q, w);
    out := F.WalkArms(arms[1..], base, false, next);
    var cx1 := F.WalkArm(arms[0], F.Restart(cx, base));
    if Rejected(m, cx1.diag) { StaysRejected(m, cx1, out); }
  }

  /** Where the scope of an arm ends. */
  lemma {:induction false} ArmEnds(m: Plan, arm: Arm, bound: set<string>, w: Where) returns (last: nat)
    requires FitArm(m, arm, bound, w)
    ensures FitEnd(m, Names(F.Bindings(arm.pat)), last) && last == w.point + |ReadsArm(arm)|
  {
    last := w.point + |ReadsArm(arm)|;
  }

  lemma {:induction false} ArmSim(m: Plan, arm: Arm, cx: F.Cx, ps: PathState, w: Where)
    requires F.CleanArm(arm) && FitArm(m, arm, InScope(ps.frames), w) && At(w, cx, ps) && Sim(m, cx, ps)
    ensures Safe(m, F.WalkArm(arm, cx), RunArm(arm, ps))
    decreases arm, 3
  {
    var bs := F.Bindings(arm.pat);
    EnterSim(m, bs, cx, ps, w);
    FreshApart(m, bs, false, InScope(ps.frames));
    var last := ArmEnds(m, arm, InScope(ps.frames), w);
    TailSim(m, arm.body, F.BindAll(F.Push(cx), bs, false), Enter(ps, bs), ps, Names(bs), last, w);
  }

  /** The last expression of the scope that `outer` opened. */
  lemma {:induction false} TailSim(m: Plan, e: Expr, cx: F.Cx, ps: PathState, outer: PathState, names: set<string>, last: nat, w: Where)
    requires F.Clean(e) && Fit(m, e, F.Use, InScope(ps.frames), w) && At(w, cx, ps) && Safe(m, cx, ps) && cx.scopes != []
    requires AlikeOuter(Open(outer).frames, ps.frames) && InScope(ps.frames) == InScope(outer.frames) + names
    requires names !! InScope(outer.frames) && FitEnd(m, names, last) && last == ps.point + |Reads(e)|
    ensures Safe(m, F.Pop(F.Walk(e, F.Use, cx)), Close(Run(e, F.Use, ps)))
    decreases e, 8
  {
    ThenSim(m, e, F.Use, cx, ps, w);
    LeaveScope(m, F.Walk(e, F.Use, cx), outer, ps, Run(e, F.Use, ps), names, last);
  }

  lemma EndSim(m: Plan, cx: F.Cx, ps: PathState, base: Frames, names: set<string>)
    requires cx.scopes != [] && ps.frames != [] && Alike(base, Close(ps).frames) && Safe(m, cx, ps)
    requires InScope(ps.frames) == InScope(base) + names && names !! InScope(base) && FitEnd(m, names, ps.point)
    ensures Safe(m, F.Pop(cx), Close(ps))
  {
    if Rejected(m, cx.diag) { StaysRejected(m, cx, F.Pop(cx)); } else { CloseSim(m, cx, ps, base, names); }
  }

  /** Where the scope of a block ends. */
  lemma {:induction false} BlockEnds(m: Plan, b: Block, bound: set<string>, w: Where) returns (last: nat)
    requires FitBlock(m, b, bound, w)
    ensures FitEnd(m, StmtsNames(b.stmts), last) && last == w.point + |ReadsBlock(b)|
  {
    last := w.point + |ReadsBlock(b)|;
  }

  lemma {:induction false} BlockSim(m: Plan, b: Block, cx: F.Cx, ps: PathState, w: Where)
    requires F.CleanBlock(b) && FitBlock(m, b, InScope(ps.frames), w) && At(w, cx, ps) && Sim(m, cx, ps)
    ensures Safe(m, F.WalkBlock(b, cx), RunBlock(b, ps))
    decreases b, 0
  {
    BodySim(m, b.stmts, cx, ps, w);
    StmtsApart(m, b.stmts, InScope(ps.frames), w);
    var last := BlockEnds(m, b, InScope(ps.frames), w);
    RestOfBlock(m, b.tail, F.WalkStmts(b.stmts, F.Push(cx)), RunStmts(b.stmts, Open(ps)), ps, StmtsNames(b.stmts), last, On(w, |ReadsStmts(b.stmts)|));
  }

  lemma {:induction false} RestOfBlock(m: Plan, tail: Option<Expr>, cx: F.Cx, ps: PathState, outer: PathState, names: set<string>, last: nat, w: Where)
    requires Safe(m, cx, ps) && At(w, cx, ps) && cx.scopes != [] && AlikeOuter(Open(outer).frames, ps.frames)
    requires tail.Some? ==> F.Clean(tail.value) && Fit(m, tail.value, F.Use, InScope(ps.frames), w)
    requires InScope(ps.frames) == InScope(outer.frames) + names && names !! InScope(outer.frames)
    requires FitEnd(m, names, last) && last == ps.point + if tail.None? then 0 else |Reads(tail.value)|
    ensures Safe(m, F.Pop(if tail.None? then cx else F.Walk(tail.value, F.Use, cx)),
                 Close(if tail.None? then ps else Run(tail.value, F.Use, ps)))
    decreases tail, 9
  {
    if tail.Some? { TailSim(m, tail.value, cx, ps, outer, names, last, w); } else { LeaveScope(m, cx, outer, ps, ps, names, last); }
  }

  lemma {:induction false} BodySim(m: Plan, ss: seq<Stmt>, cx: F.Cx, ps: PathState, w: Where)
    requires F.CleanStmts(ss) && FitStmts(m, ss, InScope(ps.frames), w) && At(w, cx, ps) && Sim(m, cx, ps)
    ensures
      var cx1, ps1 := F.WalkStmts(ss, F.Push(cx)), RunStmts(ss, Open(ps));
      && Safe(m, cx1, ps1) && At(On(w, |ReadsStmts(ss)|), cx1, ps1)
      && InScope(ps1.frames) == InScope(ps.frames) + StmtsNames(ss)
    decreases ss, 4
  {
    OpenSim(m, cx, ps);
    StmtsSim(m, ss, F.Push(cx), Open(ps), w);
    StmtsScope(m, ss, Open(ps), w);
  }

  lemma {:induction false} StmtsSim(m: Plan, ss: seq<Stmt>, cx: F.Cx, ps: PathState, w: Where)
    requires F.CleanStmts(ss) && ps.frames != [] && FitStmts(m, ss, InScope(ps.frames), w) && At(w, cx, ps) && Sim(m, cx, ps)
    ensures Safe(m, F.WalkStmts(ss, cx), RunStmts(ss, ps))
    decreases ss, 3
  {
    if ss != [] {
      var cx1, ps1 := F.WalkStmt(ss[0], cx), RunStmt(ss[0], ps);
      StmtSim(m, ss[0], cx, ps, w);
      StmtScope(m, ss[0], ps, w);
      if Rejected(m, cx1.diag) {
        StaysRejected(m, cx1, F.WalkStmts(ss[1..], cx1));
      } else {
        StmtsSim(m, ss[1..], cx1, ps1, On(w, |ReadsStmt(ss[0])|));
      }
    }
  }

  lemma {:induction false} StmtSim(m: Plan, s: Stmt, cx: F.Cx, ps: PathState, w: Where)
    requires F.CleanStmt(s) && ps.frames != [] && FitStmt(m, s, InScope(ps.frames), w) && At(w, cx, ps) && Sim(m, cx, ps)
    ensures Safe(m, F.WalkStmt(s, cx), RunStmt(s, ps))
    decreases s, 3
  {
    match s
    case Let(pat, init, mutable) =>
      assert Names(F.Bindings(pat)) == PatNames(pat);
      if init.None? {
        BindUnsetSim(m, cx, ps, F.Bindings(pat), mutable);
      } else {
        LetSim(m, pat, init.value, mutable, cx, ps, w);
      }
    case ExprStmt(e) => ForSim(m, e, {}, cx, ps, w);
  }

  lemma {:induction false} LetSim(m: Plan, pat: Pattern, init: Expr, mutable: bool, cx: F.Cx, ps: PathState, w: Where)
    requires F.Clean(init) && ps.frames != [] && Sim(m, cx, ps) && FreshNames(m, F.Bindings(pat), false, InScope(ps.frames)) && At(w, cx, ps)
    requires Fit(m, init, F.Use, InScope(ps.frames), Span(w, PatCarriers(pat), |Reads(init)|).(pend := F.SingleName(pat)))
    requires Unguarded(m, Names(F.Bindings(pat)), w.point + |Reads(init)|)
    ensures
      var cx1 := F.Walk(init, F.Use, cx.(pending := F.SingleName(pat))).(pending := cx.pending);
      Safe(m, F.BindAll(cx1, F.Bindings(pat), mutable), DeclareAll(RunFor(init, PatCarriers(pat), ps), F.Bindings(pat), Ready))
    decreases init, 8
  {
    var bs, cx0 := F.Bindings(pat), cx.(pending := F.SingleName(pat));
    ForSim(m, init, PatCarriers(pat), cx0, ps, w.(pend := F.SingleName(pat)));
    var cx1, ps1 := F.Walk(init, F.Use, cx0).(pending := cx.pending), RunFor(init, PatCarriers(pat), ps);
    AlikeScope(ps.frames, ps1.frames);
    ThenBindSim(m, cx1, ps1, bs, mutable);
  }

  lemma ThenBindSim(m: Plan, cx: F.Cx, ps: PathState, bs: seq<Binding>, mutable: bool)
    requires Safe(m, cx, ps) && ps.frames != [] && FreshNames(m, bs, false, InScope(ps.frames)) && Unguarded(m, Names(bs), ps.point)
    ensures Safe(m, F.BindAll(cx, bs, mutable), DeclareAll(ps, bs, Ready))
  {
    F.BindFrames(cx, bs, mutable);
    if Rejected(m, cx.diag) { StaysRejected(m, cx, F.BindAll(cx, bs, mutable)); } else { BindAllSim(m, cx, ps, bs, mutable); }
  }
}
