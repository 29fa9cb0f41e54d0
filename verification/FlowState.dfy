/** What is true at one moment of a path through a body: what every local holds, which
    borrows live, and what happens to them step by step. */
module FlowState {
  import opened Wrappers
  import opened Hir
  import opened Places
  import F = Flow

  datatype Status = Ready | MovedOut | Unset

  datatype Slot = Slot(status: Status, copy: bool, reference: bool, carries: bool)

  /** Lexical scopes, innermost last. */
  type Frames = seq<map<string, Slot>>

  /** A borrow on a path, with its full place. `holders` are the names that may hold
      the reference; before the point `until` a value being computed may hold it. */
  datatype Held = Held(place: Place, kind: F.BorrowKind, holders: set<string>, until: nat)

  /** A lambda, by what its body does to the locals around it when it is called. */
  datatype Closure = Closure(uses: seq<string>, moves: seq<string>, holders: set<string>, until: nat)

  datatype PathState = PathState(
    frames: Frames,
    live: seq<Held>,
    closures: seq<Closure>,
    ties: set<(string, string)>, // what is stored through one name may be seen through the other
    leaks: set<string>,          // names through which something outside the body may be changed
    lastUse: map<string, nat>,
    horizon: nat,                // the end of the body
    point: nat,
    limit: nat,                  // the end of the expression whose value is being computed
    passing: set<string>,        // the names it goes to, if their types can hold a borrow
    choices: seq<nat>,
    clash: bool,                 // a mutable borrow overlapped another live borrow
    misuse: bool,                // a moved or uninitialised local was read, moved or borrowed
    dangling: bool,              // a scope ended while a name outside, read later, held a borrow from it
    torn: bool)                  // a local was moved out while a borrow of it lived

  // ----- frames -----

  function Lookup(fs: Frames, x: string): (r: Option<Slot>)
    decreases |fs|
  {
    if fs == [] then None
    else if x in fs[|fs| - 1] then Some(fs[|fs| - 1][x])
    else Lookup(fs[..|fs| - 1], x)
  }

  /** Changes the innermost `x`. */
  function SetStatus(fs: Frames, x: string, st: Status): (r: Frames)
    ensures Alike(fs, r)
    decreases |fs|
  {
    if fs == [] then fs
    else
      var n := |fs| - 1;
      if x in fs[n] then fs[..n] + [fs[n][x := fs[n][x].(status := st)]]
      else SetStatus(fs[..n], x, st) + [fs[n]]
  }

  function Declare(fs: Frames, x: string, slot: Slot): Frames {
    if fs == [] then fs else fs[..|fs| - 1] + [fs[|fs| - 1][x := slot]]
  }

  /** The names in scope. */
  function InScope(fs: Frames): (r: set<string>)
    ensures forall x :: x in r <==> Lookup(fs, x).Some?
    decreases |fs|
  {
    if fs == [] then {} else InScope(fs[..|fs| - 1]) + fs[|fs| - 1].Keys
  }

  /** Same names in the same frames, with the same types. */
  ghost predicate Alike(f: Frames, g: Frames) {
    |f| == |g| && forall d :: 0 <= d < |f| ==> AlikeFrame(f[d], g[d])
  }

  ghost predicate AlikeFrame(a: map<string, Slot>, b: map<string, Slot>) {
    a.Keys == b.Keys && forall x :: x in a ==> a[x].(status := Ready) == b[x].(status := Ready)
  }

  lemma AlikeTransitive(f: Frames, g: Frames, h: Frames)
    requires Alike(f, g) && Alike(g, h)
    ensures Alike(f, h) && Alike(h, g)
  {
    forall d | 0 <= d < |f| ensures AlikeFrame(f[d], h[d]) && AlikeFrame(h[d], g[d])
    {
      assert AlikeFrame(f[d], g[d]) && AlikeFrame(g[d], h[d]);
    }
  }

  /** Alike outside the innermost frame. */
  ghost predicate AlikeOuter(f: Frames, g: Frames) {
    |f| == |g| && forall d :: 0 <= d < |f| - 1 ==> AlikeFrame(f[d], g[d])
  }

  // ----- what steps leave alone -----

  /** What no step of a path changes for good. */
  ghost predicate Settled(ps: PathState, r: PathState) {
    r.passing == ps.passing && r.limit == ps.limit && r.lastUse == ps.lastUse && r.horizon == ps.horizon
  }

  ghost predicate Steady(ps: PathState, r: PathState) {
    Alike(ps.frames, r.frames) && r.point == ps.point && Settled(ps, r)
  }

  /** What a step that only reads leaves alone. */
  ghost predicate Kept(ps: PathState, r: PathState) {
    && r.frames == ps.frames && Settled(ps, r)
    && r.clash == ps.clash && (ps.misuse ==> r.misuse) && r.dangling == ps.dangling && r.torn == ps.torn
  }

  // ----- moves and uses -----

  predicate Usable(ps: PathState, x: string) {
    var s := Lookup(ps.frames, x); s.Some? ==> s.value.status == Ready
  }

  function Read(ps: PathState, x: string): (r: PathState)
    ensures Steady(ps, r)
  {
    ps.(misuse := ps.misuse || !Usable(ps, x))
  }

  function MoveOut(ps: PathState, x: string): (r: PathState)
    ensures Steady(ps, r)
  {
    var ps1 := Read(ps, x);
    var s := Lookup(ps.frames, x);
    if s.Some? && s.value.status == Ready && !s.value.copy
    then ps1.(frames := SetStatus(ps.frames, x, MovedOut), torn := ps.torn || Pledged(ps, x)) else ps1
  }

  /** A borrow of `x`, or of a part of it, lives. */
  predicate Pledged(ps: PathState, x: string) {
    exists l :: l in ps.live && l.place.root == x && Alive(l, ps.lastUse, ps.point)
  }

  function Assigned(ps: PathState, x: string): (r: PathState)
    ensures Steady(ps, r)
  {
    ps.(frames := SetStatus(ps.frames, x, Ready))
  }

  // ----- borrows -----

  /** `h` is read at this point or later. */
  predicate Later(lastUse: map<string, nat>, h: string, point: nat) { h in lastUse && lastUse[h] >= point }

  /** A borrow lives while the value that it went into is being computed, and while
      one of its holders is read later. */
  predicate Alive(l: Held, lastUse: map<string, nat>, point: nat) {
    point < l.until || exists h :: h in l.holders && Later(lastUse, h, point)
  }

  predicate Clashes(ps: PathState, place: Place, kind: F.BorrowKind) {
    exists l :: l in ps.live && Alive(l, ps.lastUse, ps.point) && Meets(l.place, place) && (l.kind == F.Mut || kind == F.Mut)
  }

  /** A local that may hold a borrow is tied to the names that a reference to it, or
      its value, goes to. */
  function Tie(ps: PathState, x: string): set<(string, string)> {
    var s := Lookup(ps.frames, x);
    if s.Some? && s.value.carries then ps.ties + (set y | y in ps.passing :: (x, y)) else ps.ties
  }

  /** A new borrow, held by the names that its value goes to; a local does not hold
      a borrow of itself. */
  function Take(ps: PathState, place: Place, kind: F.BorrowKind): (r: PathState)
    ensures Steady(ps, r)
  {
    var x := place.root;
    Read(ps, x).(clash := ps.clash || Clashes(ps, place, kind),
                 live := ps.live + [Held(place, kind, ps.passing - {x}, ps.limit)],
                 ties := Tie(ps, x))
  }

  /** Passing a local by reference borrows it, unless it is a reference already. */
  function TakeLocal(ps: PathState, x: string, kind: F.BorrowKind): (r: PathState)
    ensures Steady(ps, r)
  {
    var s := Lookup(ps.frames, x);
    if s.Some? && s.value.reference then Read(ps, x) else Take(ps, Place(x, []), kind)
  }

  function Max(a: nat, b: nat): nat { if a < b then b else a }

  function HandOn(l: Held, x: string, names: set<string>, limit: nat): Held {
    if x in l.holders then l.(holders := l.holders + (names - {l.place.root}), until := Max(l.until, limit)) else l
  }

  /** Reading a holder hands its borrows on to the value being computed. */
  function Shared(live: seq<Held>, x: string, names: set<string>, limit: nat): (r: seq<Held>)
    ensures |r| == |live| && forall i :: 0 <= i < |live| ==> r[i] == HandOn(live[i], x, names, limit)
  {
    if live == [] then [] else [HandOn(live[0], x, names, limit)] + Shared(live[1..], x, names, limit)
  }

  /** And the lambdas it holds. */
  function Lent(cs: seq<Closure>, x: string, names: set<string>, limit: nat): (r: seq<Closure>)
    ensures |r| == |cs| && forall i :: 0 <= i < |cs| ==> r[i].uses == cs[i].uses && r[i].moves == cs[i].moves
  {
    if cs == [] then []
    else
      var c := cs[0];
      [if x in c.holders then c.(holders := c.holders + names, until := Max(c.until, limit)) else c]
      + Lent(cs[1..], x, names, limit)
  }

  /** A read of `x`. A name that is no local may stand for anything outside. */
  function Follow(ps: PathState, x: string): (r: PathState)
    ensures Steady(ps, r) && Kept(ps, r) && r.misuse == ps.misuse
  {
    ps.(live := Shared(ps.live, x, ps.passing, ps.limit),
        closures := Lent(ps.closures, x, ps.passing, ps.limit),
        ties := Tie(ps, x),
        leaks := if Lookup(ps.frames, x).None? then ps.leaks + ps.passing else ps.leaks)
  }

  function FollowAll(ps: PathState, xs: seq<string>): (r: PathState)
    ensures Steady(ps, r) && Kept(ps, r) && r.misuse == ps.misuse
    decreases |xs|
  {
    if xs == [] then ps else FollowAll(Follow(ps, xs[0]), xs[1..])
  }

  function Tick(ps: PathState): PathState { ps.(point := ps.point + 1) }

  function Skip(ps: PathState, n: nat): PathState { ps.(point := ps.point + n) }

  // ----- where a value goes -----

  /** Computing a value for these names, up to `limit`. */
  function Toward(ps: PathState, names: set<string>, limit: nat): PathState { ps.(passing := names, limit := limit) }

  /** For these names, over the next `n` points. */
  function Whole(ps: PathState, names: set<string>, n: nat): PathState { Toward(ps, names, ps.point + n) }

  function Back(r: PathState, ps: PathState): PathState { r.(passing := ps.passing, limit := ps.limit) }

  /** All names tied to one of these, over at most `n` ties. */
  function Kin(ties: set<(string, string)>, names: set<string>, n: nat): (r: set<string>)
    ensures names <= r
    decreases n
  {
    if n == 0 then names
    else
      var next := names + (set t | t in ties && t.0 in names :: t.1) + (set t | t in ties && t.1 in names :: t.0);
      Kin(ties, next, n - 1)
  }

  /** The locals among these whose types can hold a borrow. */
  function Carrying(fs: Frames, names: set<string>): (r: set<string>)
    ensures forall y :: y in r <==> y in names && Lookup(fs, y).Some? && Lookup(fs, y).value.carries
  {
    set y | y in names && Lookup(fs, y).Some? && Lookup(fs, y).value.carries
  }

  /** What goes to any of these names may go to all that is tied to them; if that
      reaches outside, it is never given up. */
  function Spread(ps: PathState, names: set<string>, outside: bool): (r: PathState)
    ensures r == ps.(passing := r.passing, limit := r.limit)
  {
    var kin := Kin(ps.ties, names, |ps.ties|);
    ps.(passing := Carrying(ps.frames, kin), limit := if outside || kin * ps.leaks != {} then Max(ps.limit, ps.horizon) else ps.limit)
  }

  /** The operands of one call: each may end up in any other. */
  function Mingle(ps: PathState, names: set<string>, outside: bool): (r: PathState)
    ensures r == ps.(passing := r.passing, limit := r.limit)
  {
    var r := Spread(ps, names, outside); r.(passing := ps.passing + r.passing)
  }

  // ----- scopes -----

  function Open(ps: PathState): PathState { ps.(frames := ps.frames + [map[]]) }

  /** The borrows that survive the end of a scope: not of a departing place. */
  function Survivors(live: seq<Held>, names: set<string>): (r: seq<Held>)
    ensures forall l :: l in r ==> exists k :: k in live && k.place.root !in names && l == k.(holders := k.holders - names)
  {
    if live == [] then []
    else (if live[0].place.root in names then [] else [live[0].(holders := live[0].holders - names)]) + Survivors(live[1..], names)
  }

  function Released(cs: seq<Closure>, names: set<string>): (r: seq<Closure>)
    ensures |r| == |cs| && forall i :: 0 <= i < |cs| ==> r[i] == cs[i].(holders := cs[i].holders - names)
  {
    if cs == [] then [] else [cs[0].(holders := cs[0].holders - names)] + Released(cs[1..], names)
  }

  /** A borrow of a departing local that a staying name still holds and that is read
      through it later. */
  predicate Escapes(l: Held, names: set<string>, lastUse: map<string, nat>, point: nat) {
    l.place.root in names && exists h :: h in l.holders && h !in names && Later(lastUse, h, point)
  }

  predicate Dangles(ps: PathState, names: set<string>) {
    exists l :: l in ps.live && Escapes(l, names, ps.lastUse, ps.point)
  }

  function Close(ps: PathState): PathState
    requires ps.frames != []
  {
    var n := |ps.frames| - 1;
    var names := ps.frames[n].Keys;
    ps.(frames := ps.frames[..n], live := Survivors(ps.live, names), closures := Released(ps.closures, names),
        dangling := ps.dangling || Dangles(ps, names))
  }

  function SlotOf(b: Binding, status: Status): Slot { Slot(status, b.reallyCopy, b.reallyRef, b.carries) }

  function DeclareAll(ps: PathState, bs: seq<Binding>, status: Status): PathState
    decreases |bs|
  {
    if bs == [] then ps else DeclareAll(ps.(frames := Declare(ps.frames, bs[0].name, SlotOf(bs[0], status))), bs[1..], status)
  }

  lemma {:induction false} DeclareKeeps(ps: PathState, bs: seq<Binding>, status: Status)
    ensures DeclareAll(ps, bs, status) == ps.(frames := DeclareAll(ps, bs, status).frames)
    ensures AlikeOuter(ps.frames, DeclareAll(ps, bs, status).frames)
    decreases |bs|
  {
    if bs != [] { DeclareKeeps(ps.(frames := Declare(ps.frames, bs[0].name, SlotOf(bs[0], status))), bs[1..], status); }
  }

  /** A new scope with these names. */
  function Enter(ps: PathState, bs: seq<Binding>): (r: PathState)
    ensures r == Open(ps).(frames := r.frames) && AlikeOuter(Open(ps).frames, r.frames)
  {
    DeclareKeeps(Open(ps), bs, Ready);
    DeclareAll(Open(ps), bs, Ready)
  }

  lemma CloseAlike(ps: PathState, ps1: PathState, ps2: PathState)
    requires AlikeOuter(Open(ps).frames, ps1.frames) && Alike(ps1.frames, ps2.frames)
    ensures Alike(ps.frames, Close(ps2).frames)
  {
    forall d | 0 <= d < |ps.frames| ensures AlikeFrame(ps.frames[d], Close(ps2).frames[d])
    {
      assert Open(ps).frames[d] == ps.frames[d];
      assert AlikeFrame(Open(ps).frames[d], ps1.frames[d]) && AlikeFrame(ps1.frames[d], ps2.frames[d]);
    }
  }

  // ----- lambdas -----

  function ReadAll(ps: PathState, xs: seq<string>): (r: PathState)
    ensures Steady(ps, r) && r == ps.(misuse := r.misuse)
    decreases |xs|
  {
    if xs == [] then ps else ReadAll(Read(ps, xs[0]), xs[1..])
  }

  function MoveAll(ps: PathState, xs: seq<string>): (r: PathState)
    ensures Steady(ps, r)
    decreases |xs|
  {
    if xs == [] then ps
    else
      var ps1 := MoveOut(ps, xs[0]);
      var ps2 := MoveAll(ps1, xs[1..]);
      AlikeTransitive(ps.frames, ps1.frames, ps2.frames);
      ps2
  }

  /** Held by an operand, or an operand itself. */
  predicate Called(c: Closure, names: set<string>, point: nat) { c.holders * names != {} || point <= c.until }

  /** A call may call every lambda that it is given. */
  function Invoke(ps: PathState, cs: seq<Closure>, names: set<string>): (r: PathState)
    ensures Steady(ps, r)
    decreases |cs|
  {
    if cs == [] then ps
    else
      var ps1 := if Called(cs[0], names, ps.point) then MoveAll(ReadAll(ps, cs[0].uses), cs[0].moves) else ps;
      var ps2 := Invoke(ps1, cs[1..], names);
      AlikeTransitive(ps.frames, ps1.frames, ps2.frames);
      ps2
  }

  // ----- choices -----

  function Choice(ps: PathState): nat { if ps.choices == [] then 0 else ps.choices[0] }

  function Chosen(ps: PathState): PathState {
    if ps.choices == [] then ps else ps.(choices := ps.choices[1..])
  }
}
