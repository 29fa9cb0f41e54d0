/** What an accepted function body is guaranteed. */
module FlowTheorems {
  import opened Wrappers
  import opened Hir
  import opened Places
  import opened Nll
  import opened FlowState
  import opened FlowPaths
  import opened FlowFit
  import opened FlowSafety
  import F = Flow

  // ----- whole bodies -----

  function LastUses(b: Block): map<string, nat> { RecordAll(map[], ReadsBlock(b), 0) }

  /** The walker's state at the start of a body: parameters bound, last uses known. */
  function Start(params: seq<Binding>, b: Block): (r: F.Cx)
    ensures |r.scopes| == 1
  {
    var cx := F.Push(F.Cx(map[], [], [], LastUses(b), 0, None, []));
    F.BindFrames(cx, params, false);
    F.BindAll(cx, params, false)
  }

  function Checked(params: seq<Binding>, b: Block): F.Cx { F.Pop(F.WalkBlock(b, Start(params, b))) }

  /** Before anything is declared. What a parameter may hold lies outside. */
  function Blank(params: seq<Binding>, b: Block, choices: seq<nat>): PathState {
    var n := |ReadsBlock(b)|;
    PathState([map[]], [], [], {}, set p | p in params && p.carries :: p.name, LastUses(b), n, 0, n, {}, choices, false, false, false, false)
  }

  function PathStart(params: seq<Binding>, b: Block, choices: seq<nat>): PathState {
    DeclareAll(Blank(params, b, choices), params, Ready)
  }

  /** The path that takes the given branches. */
  function PathThrough(params: seq<Binding>, b: Block, choices: seq<nat>): PathState {
    RunBlock(b, PathStart(params, b, choices))
  }

  /** Where a body stands. */
  function Whence(b: Block): Where { Where(None, {}, |ReadsBlock(b)|, 0) }

  predicate FitParams(m: Plan, params: seq<Binding>) {
    FreshNames(m, params, false, {}) && forall p :: p in params && p.carries ==> m.Clan(p.name) in m.open
  }

  /** A body the claim covers, for some plan. */
  predicate Covered(m: Plan, params: seq<Binding>, b: Block) {
    && F.CleanBlock(b) && m.lastUse == LastUses(b) && m.horizon == |ReadsBlock(b)|
    && FitParams(m, params) && FitBlock(m, b, Names(params), Whence(b))
  }

  /** Before the parameters. */
  lemma BlankSim(m: Plan, cx: F.Cx, ps: PathState)
    requires cx == F.Push(F.Cx(map[], [], [], m.lastUse, 0, None, []))
    requires ps.frames == [map[]] && ps.live == [] && ps.closures == [] && ps.ties == {} && ps.point == 0
    requires ps.lastUse == m.lastUse && ps.horizon == m.horizon && !ps.clash && !ps.misuse && !ps.dangling && !ps.torn
    requires forall x :: x in ps.leaks ==> m.Clan(x) in m.open
    ensures Sim(m, cx, ps) && InScope(ps.frames) == {}
  {
    assert InScope(ps.frames) == {} by { assert ps.frames[..0] == []; }
    assert cx.scopes == [[]];
  }

  lemma {:induction false} StartSim(m: Plan, params: seq<Binding>, b: Block, choices: seq<nat>)
    requires FitParams(m, params) && m.lastUse == LastUses(b) && m.horizon == |ReadsBlock(b)|
    ensures var cx, ps := Start(params, b), PathStart(params, b, choices);
            Sim(m, cx, ps) && InScope(ps.frames) == Names(params) && At(Whence(b), cx, ps)
  {
    var cx, ps := F.Push(F.Cx(map[], [], [], LastUses(b), 0, None, [])), Blank(params, b, choices);
    BlankSim(m, cx, ps);
    BindAllSim(m, cx, ps, params, false);
    DeclareAllScope(m, ps, params, false);
    F.BindFrames(cx, params, false);
    DeclareKeeps(ps, params, Ready);
  }

  lemma {:induction false} AcceptedIsSafe(m: Plan, params: seq<Binding>, b: Block, choices: seq<nat>)
    requires Covered(m, params, b) && !Rejected(m, Checked(params, b).diag)
    ensures Sim(m, F.WalkBlock(b, Start(params, b)), PathThrough(params, b, choices))
  {
    StartSim(m, params, b, choices);
    BlockSim(m, b, Start(params, b), PathStart(params, b, choices), Whence(b));
    var cx := F.WalkBlock(b, Start(params, b));
    forall d | d in cx.diag ensures d in F.Pop(cx).diag
    {
    }
  }

  predicate ConflictReport(d: F.Diag) { d.TwoMutBorrows? || d.MutBorrowWhileShared? || d.SharedBorrowWhileMut? }

  /** A borrow that the walker reports and does not record. */
  predicate RefusedBorrow(d: F.Diag) { d.BorrowAfterMove? || d.UseOfUninit? }

  /** No conflict and no refused borrow. */
  predicate Quiet(diag: seq<F.Diag>) { forall d :: d in diag ==> !ConflictReport(d) && !RefusedBorrow(d) }

  /** Nor a borrow that outlives its owner. */
  predicate Contained(diag: seq<F.Diag>) { forall d :: d in diag ==> !d.BorrowOutlivesOwner? }

  /** Nor a move of a borrowed or a moved local. */
  predicate Unmoved(diag: seq<F.Diag>) { forall d :: d in diag ==> !d.CannotMoveBorrowed? && !d.MoveOutOfBorrow? && !d.UseAfterMove? }

  lemma NotRejected(m: Plan, diag: seq<F.Diag>)
    requires !m.Strict() && Quiet(diag) && (m.Scoped() ==> Contained(diag)) && (m.Owners() ==> Unmoved(diag))
    ensures !Rejected(m, diag)
  {
  }

  /** Aliasing xor mutability: with no conflict and no refused borrow reported, no
      path ever takes a borrow that overlaps a live one when either is mutable.
      References are followed into the names they may be copied or stored to. */
  lemma {:induction false} AliasingXorMutability(m: Plan, params: seq<Binding>, b: Block, choices: seq<nat>)
    requires m.claim == Claim(false, false, false) && Covered(m, params, b) && Quiet(Checked(params, b).diag)
    ensures !PathThrough(params, b, choices).clash
  {
    NotRejected(m, Checked(params, b).diag);
    AcceptedIsSafe(m, params, b, choices);
  }

  /** No dangling reference: if in addition no borrow is reported to outlive its owner,
      no path leaves a scope while a name that stays, and is read later, holds a borrow
      of a local of that scope. */
  lemma {:induction false} NoDangling(m: Plan, params: seq<Binding>, b: Block, choices: seq<nat>)
    requires m.claim == Claim(false, true, false) && Covered(m, params, b)
    requires Quiet(Checked(params, b).diag) && Contained(Checked(params, b).diag)
    ensures !PathThrough(params, b, choices).dangling
  {
    NotRejected(m, Checked(params, b).diag);
    AcceptedIsSafe(m, params, b, choices);
  }

  /** No local is moved out of while it is borrowed: if neither a move of a borrowed nor
      of a moved local is reported, no path moves a local of a type that is not Copy
      while a borrow of it, or of a part of it, lives. */
  lemma {:induction false} NoMoveWhileBorrowed(m: Plan, params: seq<Binding>, b: Block, choices: seq<nat>)
    requires m.claim == Claim(false, false, true) && Covered(m, params, b)
    requires Quiet(Checked(params, b).diag) && Unmoved(Checked(params, b).diag)
    ensures !PathThrough(params, b, choices).torn
  {
    NotRejected(m, Checked(params, b).diag);
    AcceptedIsSafe(m, params, b, choices);
  }

  /** With no diagnostic at all, no path reads, moves or borrows a local that is
      moved or uninitialised. */
  lemma {:induction false} NoUseAfterMove(m: Plan, params: seq<Binding>, b: Block, choices: seq<nat>)
    requires m.Strict() && Covered(m, params, b) && Checked(params, b).diag == []
    ensures !PathThrough(params, b, choices).misuse && !PathThrough(params, b, choices).clash
    ensures (m.Scoped() ==> !PathThrough(params, b, choices).dangling) && (m.Owners() ==> !PathThrough(params, b, choices).torn)
  {
    AcceptedIsSafe(m, params, b, choices);
  }

  /** Not two live borrows of one place, one of them mutable. */
  predicate Tolerates(a: Held, b: Held, lastUse: map<string, nat>, point: nat) {
    Alive(a, lastUse, point) && Alive(b, lastUse, point) && Meets(a.place, b.place) ==> a.kind == b.kind == F.Shared
  }

  /** Pairwise compatible live borrows. */
  predicate Exclusive(live: seq<Held>, lastUse: map<string, nat>, point: nat) {
    forall i, j :: 0 <= i < j < |live| ==> Tolerates(live[i], live[j], lastUse, point)
  }

  /** The clash flag is raised exactly when the live borrows stop being exclusive,
      for a new borrow that is itself alive. */
  lemma ClashIsAliasing(ps: PathState, place: Place, kind: F.BorrowKind)
    requires Exclusive(ps.live, ps.lastUse, ps.point)
    requires ps.point < ps.limit || exists y :: y in ps.passing && y != place.root && Later(ps.lastUse, y, ps.point)
    ensures Exclusive(Take(ps, place, kind).live, ps.lastUse, ps.point) <==> !Clashes(ps, place, kind)
  {
    var live, n := Take(ps, place, kind).live, |ps.live|;
    assert Alive(live[n], ps.lastUse, ps.point);
    if Clashes(ps, place, kind) {
      var l :| l in ps.live && Alive(l, ps.lastUse, ps.point) && Meets(l.place, place) && (l.kind == F.Mut || kind == F.Mut);
      var i :| 0 <= i < n && ps.live[i] == l;
      assert !Tolerates(live[i], live[n], ps.lastUse, ps.point);
    } else {
      forall i, j | 0 <= i < j < |live| ensures Tolerates(live[i], live[j], ps.lastUse, ps.point)
      {
        assert live[i] == ps.live[i];
        if j < n { assert live[j] == ps.live[j]; }
      }
    }
  }

  /** Nothing but a new borrow makes two live borrows conflict: not time passing, not
      handing a reference on as its holder is read, not the end of a scope. */
  lemma OnlyTakingConflicts(ps: PathState, x: string)
    requires Exclusive(ps.live, ps.lastUse, ps.point) && Later(ps.lastUse, x, ps.point)
    ensures Exclusive(Tick(ps).live, ps.lastUse, Tick(ps).point)
    ensures Exclusive(Follow(ps, x).live, ps.lastUse, ps.point)
    ensures ps.frames != [] ==> Exclusive(Close(ps).live, ps.lastUse, ps.point)
  {
    forall i, j | 0 <= i < j < |ps.live| ensures Tolerates(ps.live[i], ps.live[j], ps.lastUse, ps.point + 1)
    {
      assert Tolerates(ps.live[i], ps.live[j], ps.lastUse, ps.point);
    }
    var after := Follow(ps, x).live;
    forall i, j | 0 <= i < j < |after| ensures Tolerates(after[i], after[j], ps.lastUse, ps.point)
    {
      assert Tolerates(ps.live[i], ps.live[j], ps.lastUse, ps.point);
      HandOnWakesNone(ps, ps.live[i], x);
      HandOnWakesNone(ps, ps.live[j], x);
    }
    if ps.frames != [] { SurvivorsExclusive(ps.live, ps.frames[|ps.frames| - 1].Keys, ps.lastUse, ps.point); }
  }

  lemma HandOnWakesNone(ps: PathState, l: Held, x: string)
    requires Later(ps.lastUse, x, ps.point)
    ensures Alive(HandOn(l, x, ps.passing, ps.limit), ps.lastUse, ps.point) <==> Alive(l, ps.lastUse, ps.point)
  {
    if x in l.holders { assert x in HandOn(l, x, ps.passing, ps.limit).holders; }
  }

  lemma {:induction false} SurvivorsExclusive(live: seq<Held>, names: set<string>, lastUse: map<string, nat>, point: nat)
    requires Exclusive(live, lastUse, point)
    ensures Exclusive(Survivors(live, names), lastUse, point)
    decreases |live|
  {
    if live != [] {
      var first, rest := live[0].(holders := live[0].holders - names), Survivors(live[1..], names);
      assert forall i, j :: 0 <= i < j < |live[1..]| ==> live[1..][i] == live[i + 1] && live[1..][j] == live[j + 1];
      SurvivorsExclusive(live[1..], names, lastUse, point);
      forall j | 0 <= j < |rest| ensures Tolerates(first, rest[j], lastUse, point)
      {
        assert rest[j] in rest;
        var k :| k in live[1..] && k.place.root !in names && rest[j] == k.(holders := k.holders - names);
        var i :| 0 <= i < |live[1..]| && live[1..][i] == k;
        assert Tolerates(live[0], live[i + 1], lastUse, point);
      }
    }
  }
}
