/** The two passes over a function body, end to end. */
module CheckBody {
  import opened Hir
  import opened Nll
  import opened FlowFit
  import opened FlowTheorems
  import opened BorrowCheckers
  import F = Flow

  ghost predicate NeverClashes(params: seq<Binding>, body: Block) { forall choices :: !PathThrough(params, body, choices).clash }

  ghost predicate NeverMisuses(params: seq<Binding>, body: Block) { forall choices :: !PathThrough(params, body, choices).misuse }

  ghost predicate NeverDangles(params: seq<Binding>, body: Block) { forall choices :: !PathThrough(params, body, choices).dangling }

  ghost predicate NeverTears(params: seq<Binding>, body: Block) { forall choices :: !PathThrough(params, body, choices).torn }

  /** `check_fn_body`: number the reads, bind the parameters, walk. What comes back
      decides the safety of every path. */
  method CheckFnBody(params: seq<Binding>, body: Block) returns (diag: seq<F.Diag>)
    ensures diag == Checked(params, body).diag
    ensures forall m: Plan :: Covered(m, params, body) && m.claim == Claim(false, false, false) && Quiet(diag) ==> NeverClashes(params, body)
    ensures forall m: Plan :: Covered(m, params, body) && m.claim == Claim(false, true, false) && Quiet(diag) && Contained(diag)
                              ==> NeverDangles(params, body)
    ensures forall m: Plan :: Covered(m, params, body) && m.claim == Claim(false, false, true) && Quiet(diag) && Unmoved(diag)
                              ==> NeverTears(params, body)
    ensures forall m: Plan :: Covered(m, params, body) && m.claim == Claim(true, true, true) && diag == []
                              ==> NeverClashes(params, body) && NeverMisuses(params, body) && NeverDangles(params, body) && NeverTears(params, body)
  {
    var pre := new Pre();
    pre.VisitBlock(body);
    var cx := new BorrowCx(pre.last);
    cx.PushFrame();
    cx.BindParams(params);
    assert cx.View() == Start(params, body);
    cx.WalkBlock(body);
    cx.PopFrame();
    diag := cx.diag;
    Accepted(params, body, diag);
  }

  lemma {:induction false} Accepted(params: seq<Binding>, body: Block, diag: seq<F.Diag>)
    requires diag == Checked(params, body).diag
    ensures forall m: Plan :: Covered(m, params, body) && m.claim == Claim(false, false, false) && Quiet(diag) ==> NeverClashes(params, body)
    ensures forall m: Plan :: Covered(m, params, body) && m.claim == Claim(false, true, false) && Quiet(diag) && Contained(diag)
                              ==> NeverDangles(params, body)
    ensures forall m: Plan :: Covered(m, params, body) && m.claim == Claim(false, false, true) && Quiet(diag) && Unmoved(diag)
                              ==> NeverTears(params, body)
    ensures forall m: Plan :: Covered(m, params, body) && m.claim == Claim(true, true, true) && diag == []
                              ==> NeverClashes(params, body) && NeverMisuses(params, body) && NeverDangles(params, body) && NeverTears(params, body)
  {
    forall m: Plan, choices | Covered(m, params, body) && m.claim == Claim(false, false, false) && Quiet(diag)
      ensures !PathThrough(params, body, choices).clash
    {
      AliasingXorMutability(m, params, body, choices);
    }
    forall m: Plan, choices | Covered(m, params, body) && m.claim == Claim(false, true, false) && Quiet(diag) && Contained(diag)
      ensures !PathThrough(params, body, choices).dangling
    {
      NoDangling(m, params, body, choices);
    }
    forall m: Plan, choices | Covered(m, params, body) && m.claim == Claim(false, false, true) && Quiet(diag) && Unmoved(diag)
      ensures !PathThrough(params, body, choices).torn
    {
      NoMoveWhileBorrowed(m, params, body, choices);
    }
    forall m: Plan, choices | Covered(m, params, body) && m.claim == Claim(true, true, true) && diag == []
      ensures !PathThrough(params, body, choices).misuse && !PathThrough(params, body, choices).clash
      ensures !PathThrough(params, body, choices).dangling && !PathThrough(params, body, choices).torn
    {
      NoUseAfterMove(m, params, body, choices);
    }
  }
}
