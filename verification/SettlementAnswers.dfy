/**
 What an answer of the billing service means: a handler that answers 200 has itself written to its
 row what it was asked to do, and a submission that meets no failure goes all the way to PAID.
 */
module SettlementAnswers {
  import opened SettlementProtocol
  import opened SettlementWallets
  import opened MapSums
  import opened Token
  import opened Wrappers
  import Chain
  import Settlement

  type Hashing = (RowId, Money) -> nat

  // ---------------------------------------------------------------- a 200 over every run

  predicate Submits(handler: Handler, id: RowId) {
    match handler
    case SubmitRead(i, _) => i == id
    case SubmitConnect(i, _, _) => i == id
    case SubmitMark(i, _, _) => i == id
    case SubmitSend(i, _, _) => i == id
    case SubmitWait(i, _) => i == id
    case SubmitRecord(i) => i == id
    case SubmitFail(i) => i == id
    case _ => false
  }

  predicate Finalizes(handler: Handler, id: RowId) {
    match handler
    case FinalizeRead(i) => i == id
    case FinalizeConnect(i) => i == id
    case FinalizeCheck(i) => i == id
    case FinalizeSend(i) => i == id
    case FinalizeWait(i, _) => i == id
    case FinalizeRecord(i) => i == id
    case _ => false
  }

  /** Action `i` is the handler's last step, after which it has answered 200. */
  ghost predicate AnswersAt(hashOf: Hashing, s: System, actions: seq<Action>, h: nat, i: nat) {
    && i < |actions| && actions[i] == Advance(h, Succeeds)
    && h < |Run(hashOf, s, actions[..i + 1]).handlers| && Run(hashOf, s, actions[..i + 1]).handlers[h] == Done(200)
  }

  /** With that step the row has become SUBMITTED, and its statement is on chain. */
  ghost predicate HasSubmitted(hashOf: Hashing, s: System, actions: seq<Action>, h: nat, id: RowId, i: nat) {
    && AnswersAt(hashOf, s, actions, h, i)
    && var end := Run(hashOf, s, actions[..i + 1]);
    id in end.rows && end.rows[id].chainStatus == Submitted && OnChain(end, id)
  }

  /** With that step the row has become PAID and FINALIZED, and its statement is final on chain. */
  ghost predicate HasPaid(hashOf: Hashing, s: System, actions: seq<Action>, h: nat, id: RowId, i: nat) {
    && AnswersAt(hashOf, s, actions, h, i)
    && var end := Run(hashOf, s, actions[..i + 1]);
    id in end.rows && end.rows[id].status == PaidOut && end.rows[id].chainStatus == Finalized && ChainFinal(end, id)
  }

  ghost predicate SubmittedSince(hashOf: Hashing, s: System, actions: seq<Action>, k: nat, h: nat, id: RowId) {
    exists i: nat :: k < i && HasSubmitted(hashOf, s, actions, h, id, i)
  }

  ghost predicate PaidSince(hashOf: Hashing, s: System, actions: seq<Action>, k: nat, h: nat, id: RowId) {
    exists i: nat :: k < i && HasPaid(hashOf, s, actions, h, id, i)
  }

  /** The handler is still at work on its row, or has answered, and a 200 only by doing what it was asked. */
  ghost predicate SubmitSoFar(end: System, h: nat, id: RowId, kept: bool) {
    && h < |end.handlers|
    && (Submits(end.handlers[h], id) || (end.handlers[h].Done? && (end.handlers[h].code == 200 ==> kept)))
  }

  ghost predicate FinalizeSoFar(end: System, h: nat, id: RowId, kept: bool) {
    && h < |end.handlers|
    && (Finalizes(end.handlers[h], id) || (end.handlers[h].Done? && (end.handlers[h].code == 200 ==> kept)))
  }

  // ---------------------------------------------------------------- one action and one handler

  /** Only its own steps move a handler, or its crash. */
  lemma OthersLeaveHandler(hashOf: Hashing, s: System, action: Action, h: nat)
    requires h < |s.handlers|
    ensures var s' := Next(hashOf, s, action);
      && h < |s'.handlers|
      && (!(action.Advance? && action.h == h) && action != Crash(h) ==> s'.handlers[h] == s.handlers[h])
  {
    if action.Advance? && action.h < |s.handlers| {
      AdvanceLeavesOthers(hashOf, s, action.h, action.await_, h);
    }
  }

  lemma AdvanceLeavesOthers(hashOf: Hashing, s: System, a: nat, w: Await, h: nat)
    requires a < |s.handlers| && h < |s.handlers|
    ensures |AdvanceSubmit(hashOf, s, a, w).handlers| == |AdvanceFinalize(s, a, w).handlers| == |s.handlers|
    ensures h != a ==> AdvanceSubmit(hashOf, s, a, w).handlers[h] == s.handlers[h]
    ensures h != a ==> AdvanceFinalize(s, a, w).handlers[h] == s.handlers[h]
  {
  }

  /** A submit handler answers 200 only with the await that writes SUBMITTED. */
  lemma SubmitMoves(hashOf: Hashing, s: System, h: nat, w: Await, id: RowId)
    requires h < |s.handlers| && Submits(s.handlers[h], id)
    requires s.handlers[h].SubmitRecord? ==> id in s.rows && OnChain(s, id)
    ensures var s' := AdvanceSubmit(hashOf, s, h, w);
      && h < |s'.handlers| && (Submits(s'.handlers[h], id) || s'.handlers[h].Done?)
      && (s'.handlers[h] == Done(200) ==>
            w == Succeeds && id in s'.rows && s'.rows[id].chainStatus == Submitted && OnChain(s', id))
  {
  }

  /** A finalize handler answers 200 only with the await that writes PAID. */
  lemma FinalizeMoves(s: System, h: nat, w: Await, id: RowId)
    requires h < |s.handlers| && Finalizes(s.handlers[h], id)
    requires s.handlers[h].FinalizeRecord? ==> id in s.rows && ChainFinal(s, id)
    ensures var s' := AdvanceFinalize(s, h, w);
      && h < |s'.handlers| && (Finalizes(s'.handlers[h], id) || s'.handlers[h].Done?)
      && (s'.handlers[h] == Done(200) ==>
            && w == Succeeds && id in s'.rows && s'.rows[id].status == PaidOut
            && s'.rows[id].chainStatus == Finalized && ChainFinal(s', id))
  {
  }

  /** What a handler about to record knows of its row. */
  ghost predicate KnowsRow(s: System, h: nat, id: RowId) {
    h < |s.handlers| ==>
      && (s.handlers[h] == SubmitRecord(id) ==> id in s.rows && OnChain(s, id))
      && (s.handlers[h] == FinalizeRecord(id) ==> id in s.rows && ChainFinal(s, id))
  }

  lemma RecordersKnow(hashOf: Hashing, s: System, h: nat, id: RowId)
    requires Agreement(hashOf, s)
    ensures KnowsRow(s, h, id)
  {
    if h < |s.handlers| {
      assert HandlerOk(s, s.handlers[h]) && StatementOk(hashOf, s, id);
    }
  }

  lemma FrontOfRun(hashOf: Hashing, s: System, actions: seq<Action>, i: nat)
    requires i < |actions| - 1
    ensures var front := actions[..|actions| - 1];
      front[i] == actions[i] && Run(hashOf, s, front[..i + 1]) == Run(hashOf, s, actions[..i + 1])
  {
    assert actions[..|actions| - 1][..i + 1] == actions[..i + 1];
  }

  lemma StillSince(hashOf: Hashing, s: System, actions: seq<Action>, k: nat, h: nat, id: RowId)
    requires actions != []
    ensures SubmittedSince(hashOf, s, actions[..|actions| - 1], k, h, id) ==>
      SubmittedSince(hashOf, s, actions, k, h, id)
    ensures PaidSince(hashOf, s, actions[..|actions| - 1], k, h, id) ==> PaidSince(hashOf, s, actions, k, h, id)
  {
    var front := actions[..|actions| - 1];
    if i: nat :| k < i && HasSubmitted(hashOf, s, front, h, id, i) {
      FrontOfRun(hashOf, s, actions, i);
      assert HasSubmitted(hashOf, s, actions, h, id, i);
    }
    if i: nat :| k < i && HasPaid(hashOf, s, front, h, id, i) {
      FrontOfRun(hashOf, s, actions, i);
      assert HasPaid(hashOf, s, actions, h, id, i);
    }
  }

  lemma NowSince(hashOf: Hashing, s: System, actions: seq<Action>, k: nat, h: nat, id: RowId)
    requires k < |actions| - 1 && actions[|actions| - 1] == Advance(h, Succeeds)
    requires var end := Run(hashOf, s, actions);
      h < |end.handlers| && end.handlers[h] == Done(200) && id in end.rows
    ensures var end := Run(hashOf, s, actions);
      && (end.rows[id].chainStatus == Submitted && OnChain(end, id) ==> SubmittedSince(hashOf, s, actions, k, h, id))
      && (end.rows[id].status == PaidOut && end.rows[id].chainStatus == Finalized && ChainFinal(end, id) ==>
            PaidSince(hashOf, s, actions, k, h, id))
  {
    var (n, end) := (|actions| - 1, Run(hashOf, s, actions));
    assert actions[..n + 1] == actions;
    assert AnswersAt(hashOf, s, actions, h, n);
    if end.rows[id].chainStatus == Submitted && OnChain(end, id) {
      assert HasSubmitted(hashOf, s, actions, h, id, n);
    }
    if end.rows[id].status == PaidOut && end.rows[id].chainStatus == Finalized && ChainFinal(end, id) {
      assert HasPaid(hashOf, s, actions, h, id, n);
    }
  }

  // ---------------------------------------------------------------- one more action

  /** One action moves a submit handler on, or lets it answer; a 200 comes with a SUBMITTED row. */
  lemma SubmitStep(hashOf: Hashing, s: System, action: Action, h: nat, id: RowId)
    requires h < |s.handlers| && (Submits(s.handlers[h], id) || s.handlers[h].Done?)
    requires s.handlers[h] == SubmitRecord(id) ==> id in s.rows && OnChain(s, id)
    ensures var s' := Next(hashOf, s, action);
      && h < |s'.handlers| && (Submits(s'.handlers[h], id) || s'.handlers[h].Done?)
      && (s'.handlers[h] == Done(200) && s.handlers[h] != Done(200) ==>
            && action == Advance(h, Succeeds)
            && id in s'.rows && s'.rows[id].chainStatus == Submitted && OnChain(s', id))
  {
    OthersLeaveHandler(hashOf, s, action, h);
    if Submits(s.handlers[h], id) && action.Advance? && action.h == h {
      SubmitMoves(hashOf, s, h, action.await_, id);
    }
  }

  lemma FinalizeStep(hashOf: Hashing, s: System, action: Action, h: nat, id: RowId)
    requires h < |s.handlers| && (Finalizes(s.handlers[h], id) || s.handlers[h].Done?)
    requires s.handlers[h] == FinalizeRecord(id) ==> id in s.rows && ChainFinal(s, id)
    ensures var s' := Next(hashOf, s, action);
      && h < |s'.handlers| && (Finalizes(s'.handlers[h], id) || s'.handlers[h].Done?)
      && (s'.handlers[h] == Done(200) && s.handlers[h] != Done(200) ==>
            && action == Advance(h, Succeeds)
            && id in s'.rows && s'.rows[id].status == PaidOut && s'.rows[id].chainStatus == Finalized
            && ChainFinal(s', id))
  {
    OthersLeaveHandler(hashOf, s, action, h);
    if Finalizes(s.handlers[h], id) && action.Advance? && action.h == h {
      FinalizeMoves(s, h, action.await_, id);
    }
  }

  /** In every state of the run. */
  ghost predicate AlwaysKnows(hashOf: Hashing, s: System, actions: seq<Action>, h: nat, id: RowId) {
    actions != [] ==>
      && AlwaysKnows(hashOf, s, actions[..|actions| - 1], h, id)
      && KnowsRow(Run(hashOf, s, actions[..|actions| - 1]), h, id)
  }

  lemma {:induction false} RunsKnow(hashOf: Hashing, s: System, actions: seq<Action>, h: nat, id: RowId)
    requires Agreement(hashOf, s) && PermittedRun(hashOf, s, actions)
    ensures AlwaysKnows(hashOf, s, actions, h, id)
    decreases |actions|
  {
    if actions != [] {
      var front := actions[..|actions| - 1];
      FrontIsPermitted(hashOf, s, actions);
      EveryRunAgrees(hashOf, s, front);
      RecordersKnow(hashOf, Run(hashOf, s, front), h, id);
      RunsKnow(hashOf, s, front, h, id);
    }
  }

  /** The row the handler was asked about is as a true 200 says. */
  ghost predicate IsSubmitted(s: System, h: nat, id: RowId) {
    && h < |s.handlers| && s.handlers[h] == Done(200)
    && id in s.rows && s.rows[id].chainStatus == Submitted && OnChain(s, id)
  }

  ghost predicate IsPaid(s: System, h: nat, id: RowId) {
    && h < |s.handlers| && s.handlers[h] == Done(200)
    && id in s.rows && s.rows[id].status == PaidOut && s.rows[id].chainStatus == Finalized && ChainFinal(s, id)
  }

  lemma SubmitSoFarStays(hashOf: Hashing, s: System, action: Action, h: nat, id: RowId, kept: bool, kept': bool)
    requires KnowsRow(s, h, id) && SubmitSoFar(s, h, id, kept) && (kept ==> kept')
    requires action == Advance(h, Succeeds) && IsSubmitted(Next(hashOf, s, action), h, id) ==> kept'
    ensures SubmitSoFar(Next(hashOf, s, action), h, id, kept')
  {
    SubmitStep(hashOf, s, action, h, id);
  }

  lemma FinalizeSoFarStays(hashOf: Hashing, s: System, action: Action, h: nat, id: RowId, kept: bool, kept': bool)
    requires KnowsRow(s, h, id) && FinalizeSoFar(s, h, id, kept) && (kept ==> kept')
    requires action == Advance(h, Succeeds) && IsPaid(Next(hashOf, s, action), h, id) ==> kept'
    ensures FinalizeSoFar(Next(hashOf, s, action), h, id, kept')
  {
    FinalizeStep(hashOf, s, action, h, id);
  }

  /** A request starts a handler of its own. */
  lemma RequestStarts(hashOf: Hashing, s: System, actions: seq<Action>, id: RowId)
    requires actions != []
    ensures var (n, end) := (|actions| - 1, Run(hashOf, s, actions));
      var h := |Run(hashOf, s, actions[..n]).handlers|;
      && (actions[n].RequestSubmit? && actions[n].id == id ==> SubmitSoFar(end, h, id, false))
      && (actions[n] == RequestFinalize(id) ==> FinalizeSoFar(end, h, id, false))
  {
  }

  lemma {:induction false} SubmitIsFollowed(hashOf: Hashing, s: System, actions: seq<Action>, k: nat, h: nat, id: RowId)
    requires AlwaysKnows(hashOf, s, actions, h, id)
    requires k < |actions| && actions[k].RequestSubmit? && actions[k].id == id
    requires h == |Run(hashOf, s, actions[..k]).handlers|
    ensures SubmitSoFar(Run(hashOf, s, actions), h, id, SubmittedSince(hashOf, s, actions, k, h, id))
    decreases |actions|
  {
    var n := |actions| - 1;
    if n > k {
      assert actions[..n][..k] == actions[..k];
      SubmitIsFollowed(hashOf, s, actions[..n], k, h, id);
      StillSince(hashOf, s, actions, k, h, id);
      if actions[n] == Advance(h, Succeeds) && IsSubmitted(Run(hashOf, s, actions), h, id) {
        NowSince(hashOf, s, actions, k, h, id);
      }
      SubmitSoFarStays(hashOf, Run(hashOf, s, actions[..n]), actions[n], h, id,
        SubmittedSince(hashOf, s, actions[..n], k, h, id), SubmittedSince(hashOf, s, actions, k, h, id));
    } else {
      RequestStarts(hashOf, s, actions, id);
    }
  }

  lemma {:induction false} FinalizeIsFollowed(hashOf: Hashing, s: System, actions: seq<Action>, k: nat, h: nat,
                                              id: RowId)
    requires AlwaysKnows(hashOf, s, actions, h, id)
    requires k < |actions| && actions[k] == RequestFinalize(id)
    requires h == |Run(hashOf, s, actions[..k]).handlers|
    ensures FinalizeSoFar(Run(hashOf, s, actions), h, id, PaidSince(hashOf, s, actions, k, h, id))
    decreases |actions|
  {
    var n := |actions| - 1;
    if n > k {
      assert actions[..n][..k] == actions[..k];
      FinalizeIsFollowed(hashOf, s, actions[..n], k, h, id);
      StillSince(hashOf, s, actions, k, h, id);
      if actions[n] == Advance(h, Succeeds) && IsPaid(Run(hashOf, s, actions), h, id) {
        NowSince(hashOf, s, actions, k, h, id);
      }
      FinalizeSoFarStays(hashOf, Run(hashOf, s, actions[..n]), actions[n], h, id,
        PaidSince(hashOf, s, actions[..n], k, h, id), PaidSince(hashOf, s, actions, k, h, id));
    } else {
      RequestStarts(hashOf, s, actions, id);
    }
  }

  /**
   Under every interleaving: a submit request that has been answered 200 has itself made its row
   SUBMITTED, and a finalize request has made its row PAID.
   */
  lemma AnswersAreTrue(hashOf: Hashing, s: System, actions: seq<Action>, k: nat, id: RowId)
    requires Agreement(hashOf, s) && PermittedRun(hashOf, s, actions) && k < |actions|
    ensures var (h, end) := (|Run(hashOf, s, actions[..k]).handlers|, Run(hashOf, s, actions));
      && (actions[k].RequestSubmit? && actions[k].id == id ==>
            && h < |end.handlers|
            && (end.handlers[h] == Done(200) ==> SubmittedSince(hashOf, s, actions, k, h, id)))
      && (actions[k] == RequestFinalize(id) ==>
            && h < |end.handlers|
            && (end.handlers[h] == Done(200) ==> PaidSince(hashOf, s, actions, k, h, id)))
  {
    var h := |Run(hashOf, s, actions[..k]).handlers|;
    RunsKnow(hashOf, s, actions, h, id);
    if actions[k].RequestSubmit? && actions[k].id == id {
      SubmitIsFollowed(hashOf, s, actions, k, h, id);
    }
    if actions[k] == RequestFinalize(id) {
      FinalizeIsFollowed(hashOf, s, actions, k, h, id);
    }
  }

  /** What a request is told on reading its row: 404 without one, 400 in the wrong state, otherwise it goes on. */
  lemma GateAnswers(hashOf: Hashing, s: System, h: nat, id: RowId)
    requires h < |s.handlers| && s.handlers[h].Done? == false && s.handlers[h].id == id
    ensures var after := Next(hashOf, s, Advance(h, Succeeds)).handlers[h];
      && (s.handlers[h].SubmitRead? ==>
            && (id !in s.rows <==> after == Done(404))
            && (id in s.rows && s.rows[id].status == Final && s.rows[id].chainStatus == NotSubmitted <==>
                  after.SubmitConnect? && after.total == s.rows[id].total && after.wallet == s.handlers[h].wallet)
            && (after == Done(404) || after == Done(400) || after.SubmitConnect?))
      && (s.handlers[h].FinalizeRead? ==>
            && (id !in s.rows <==> after == Done(404))
            && (id in s.rows && s.rows[id].chainStatus == Submitted <==> after == FinalizeConnect(id))
            && (after == Done(404) || after == Done(400) || after == FinalizeConnect(id)))
  {
  }

  /** A finalize request sends only what the chain's clock allows, and answers 400 before that. */
  lemma CheckAnswers(hashOf: Hashing, s: System, h: nat, id: RowId)
    requires h < |s.handlers| && s.handlers[h] == FinalizeCheck(id)
    requires s.world.settlement.StatusOf(id) == Settlement.Submitted
    requires s.world.settlement.statements[id].submittedAt + s.world.settlement.disputeWindow <= MAX_UINT256
    ensures var (after, opens) := (Next(hashOf, s, Advance(h, Succeeds)).handlers[h],
                                   s.world.settlement.statements[id].submittedAt + s.world.settlement.disputeWindow);
      && (s.world.now >= opens ==> after == FinalizeSend(id))
      && (s.world.now < opens ==> after == Done(400))
  {
  }

  /**
   An await that fails sends a submit handler to write FAILED, whatever it was doing, and ends a
   finalize handler with 500 and no write of its own.
   */
  lemma FailureAnswers(hashOf: Hashing, s: System, h: nat, id: RowId)
    requires h < |s.handlers|
    ensures var (s', after) := (Next(hashOf, s, Advance(h, FailsBefore)),
      Next(hashOf, s, Advance(h, FailsBefore)).handlers[h]);
      && (Submits(s.handlers[h], id) && !s.handlers[h].SubmitFail? ==>
            after == SubmitFail(id) && s'.rows == s.rows && s'.txs == s.txs)
      && (Finalizes(s.handlers[h], id) ==> after == Done(500) && s'.rows == s.rows && s'.txs == s.txs)
    ensures s.handlers[h] == SubmitFail(id) && id in s.rows ==>
      var s' := Next(hashOf, s, Advance(h, Succeeds));
      s'.rows == s.rows[id := s.rows[id].(chainStatus := Failed)] && s'.handlers[h] == Done(500)
  {
  }

  // ---------------------------------------------------------------- all the way to PAID

  /** One row, one wallet, one owner who is the service, and the time that passes before finalization. */
  datatype Story = Story(world: Chain.World, id: RowId, total: Money, wallet: Address, caller: Address, elapsed: nat) {
    function Owner(): Address {
      world.settlement.owner
    }

    /** The contract takes submissions, the amounts fit, and the time passed is at least the dispute window. */
    ghost predicate Possible() {
      && !world.settlement.paused && world.settlement.StatusOf(id) == Settlement.None_
      && wallet != NO_ADDRESS && total > 0
      && Get(world.settlement.claimableBalances, wallet) + total * 100 <= MAX_UINT256
      && world.now + world.settlement.disputeWindow <= world.now + elapsed <= MAX_UINT256
    }

    function Asked(): seq<Action> {
      [CreateRow(id, total), FinalizeRow(id), RequestSubmit(id, wallet), Advance(0, Succeeds)]
    }

    function Sent(): seq<Action> {
      [Advance(0, Succeeds), Advance(0, Succeeds), Advance(0, Succeeds), Include(0)]
    }

    function Heard(): seq<Action> {
      [Advance(0, Succeeds), Advance(0, Succeeds)]
    }

    /** Time passes: a call that reverts. */
    function Waited(): seq<Action> {
      [Outside(Chain.Step(caller, elapsed, Chain.Deposit(0))), RequestFinalize(id), Advance(1, Succeeds),
        Advance(1, Succeeds)]
    }

    function Tried(): seq<Action> {
      [Advance(1, Succeeds), Advance(1, Succeeds)]
    }

    function Ended(): seq<Action> {
      [Include(1), Advance(1, Succeeds), Advance(1, Succeeds)]
    }

    function RowAs(status: RowStatus, chainStatus: ChainStatus): Row {
      Row(total, status, chainStatus, Some(wallet))
    }

    function SubmitTxAs(hashOf: Hashing, state: TxState): Tx {
      Tx(SubmitTx(id, wallet, total * 100, hashOf(id, total)), state)
    }

    /** The world after the submission at its own time. */
    function Opened(hashOf: Hashing): Chain.World {
      var s := world.settlement;
      world.(settlement := s.(
        statements := s.statements[id :=
          Settlement.Statement(hashOf(id, total), wallet, total * 100, world.now, 0, Settlement.Submitted)],
        log := s.log + [Settlement.StatementSubmitted(id, wallet, total * 100)]))
    }

    function Later(hashOf: Hashing): Chain.World
      requires world.now + elapsed <= MAX_UINT256
    {
      Opened(hashOf).(now := world.now + elapsed)
    }

    /** The world after the finalization at a later time. */
    function Closed(hashOf: Hashing): Chain.World
      requires world.now + elapsed <= MAX_UINT256
      requires Get(world.settlement.claimableBalances, wallet) + total * 100 <= MAX_UINT256
    {
      var s := Opened(hashOf).settlement;
      Later(hashOf).(settlement := s.(
        statements := s.statements[id :=
          Settlement.Statement(hashOf(id, total), wallet, total * 100, world.now, world.now + elapsed,
            Settlement.Finalized)],
        claimableBalances := s.claimableBalances[wallet := Get(s.claimableBalances, wallet) + total * 100],
        log := s.log + [Settlement.StatementFinalized(id, wallet, total * 100)]))
    }

    function SubmittedState(hashOf: Hashing): System {
      System(map[id := RowAs(Final, Submitted)], [Done(200)], [SubmitTxAs(hashOf, Landed)], Opened(hashOf), Owner())
    }

    function CheckedState(hashOf: Hashing): System
      requires world.now + elapsed <= MAX_UINT256
    {
      System(map[id := RowAs(Final, Submitted)], [Done(200), FinalizeCheck(id)], [SubmitTxAs(hashOf, Landed)],
             Later(hashOf), Owner())
    }

    function TriedState(hashOf: Hashing): System
      requires world.now + elapsed <= MAX_UINT256
    {
      CheckedState(hashOf).(
        handlers := [Done(200), FinalizeWait(id, 1)],
        txs := [SubmitTxAs(hashOf, Landed), Tx(FinalizeTx(id), InFlight)])
    }

    function PaidState(hashOf: Hashing): System
      requires world.now + elapsed <= MAX_UINT256
      requires Get(world.settlement.claimableBalances, wallet) + total * 100 <= MAX_UINT256
    {
      System(map[id := RowAs(PaidOut, Finalized)], [Done(200), Done(200)],
             [SubmitTxAs(hashOf, Landed), Tx(FinalizeTx(id), Landed)], Closed(hashOf), Owner())
    }
  }

  lemma AskedRuns(hashOf: Hashing, s: Story)
    ensures Run(hashOf, Started(s.world, s.Owner()), s.Asked()) ==
      System(map[s.id := Row(s.total, Final, NotSubmitted, None)], [SubmitConnect(s.id, s.wallet, s.total)], [],
             s.world, s.Owner())
  {
    var a := s.Asked();
    RunFour(hashOf, Started(s.world, s.Owner()), a[0], a[1], a[2], a[3]);
  }

  /** The submission lands. */
  lemma SubmissionLands(hashOf: Hashing, s: Story, sent: System)
    requires s.Possible() && sent.txs == [s.SubmitTxAs(hashOf, InFlight)]
    requires sent.world == s.world && sent.service == s.Owner()
    ensures Next(hashOf, sent, Include(0)) == sent.(txs := [s.SubmitTxAs(hashOf, Landed)], world := s.Opened(hashOf))
  {
    var request := SubmitTx(s.id, s.wallet, s.total * 100, hashOf(s.id, s.total));
    assert Chain.Apply(s.world, s.Owner(), CallOf(request)) == Ok(s.Opened(hashOf));
    assert [s.SubmitTxAs(hashOf, InFlight)][0 := s.SubmitTxAs(hashOf, Landed)] == [s.SubmitTxAs(hashOf, Landed)];
  }

  lemma SentRuns(hashOf: Hashing, s: Story)
    requires s.Possible()
    ensures var asked := System(map[s.id := Row(s.total, Final, NotSubmitted, None)],
                                [SubmitConnect(s.id, s.wallet, s.total)], [], s.world, s.Owner());
      Run(hashOf, asked, s.Sent()) ==
      System(map[s.id := s.RowAs(Final, Pending)], [SubmitWait(s.id, 0)], [s.SubmitTxAs(hashOf, Landed)],
             s.Opened(hashOf), s.Owner())
  {
    var asked := System(map[s.id := Row(s.total, Final, NotSubmitted, None)],
                        [SubmitConnect(s.id, s.wallet, s.total)], [], s.world, s.Owner());
    var sent := System(map[s.id := s.RowAs(Final, Pending)], [SubmitWait(s.id, 0)], [s.SubmitTxAs(hashOf, InFlight)],
                       s.world, s.Owner());
    var a := s.Sent();
    RunFour(hashOf, asked, a[0], a[1], a[2], a[3]);
    assert Next(hashOf, Next(hashOf, Next(hashOf, asked, a[0]), a[1]), a[2]) == sent;
    SubmissionLands(hashOf, s, sent);
  }

  lemma RunTwo(hashOf: Hashing, s: System, a: Action, b: Action)
    ensures Run(hashOf, s, [a, b]) == Next(hashOf, Next(hashOf, s, a), b)
  {
    assert [a, b][..1] == [a] && [a][..0] == [];
    assert Run(hashOf, s, [a]) == Next(hashOf, s, a);
  }

  lemma HeardRuns(hashOf: Hashing, s: Story)
    ensures var sent := System(map[s.id := s.RowAs(Final, Pending)], [SubmitWait(s.id, 0)],
      [s.SubmitTxAs(hashOf, Landed)],
                               s.Opened(hashOf), s.Owner());
      Run(hashOf, sent, s.Heard()) == s.SubmittedState(hashOf)
  {
    var sent := System(map[s.id := s.RowAs(Final, Pending)], [SubmitWait(s.id, 0)], [s.SubmitTxAs(hashOf, Landed)],
                       s.Opened(hashOf), s.Owner());
    RunTwo(hashOf, sent, s.Heard()[0], s.Heard()[1]);
  }

  /** A submit request that meets no failure ends with its row SUBMITTED, for its wallet, and is answered 200. */
  lemma SubmitSucceeds(hashOf: Hashing, s: Story)
    requires s.Possible()
    ensures var end := Run(hashOf, Started(s.world, s.Owner()), s.Asked() + s.Sent() + s.Heard());
      && end == s.SubmittedState(hashOf)
      && end.rows == map[s.id := Row(s.total, Final, Submitted, Some(s.wallet))] && end.handlers == [Done(200)]
  {
    var start := Started(s.world, s.Owner());
    AskedRuns(hashOf, s);
    SentRuns(hashOf, s);
    HeardRuns(hashOf, s);
    RunAppend(hashOf, start, s.Asked(), s.Sent());
    RunAppend(hashOf, start, s.Asked() + s.Sent(), s.Heard());
  }

  lemma TimePasses(hashOf: Hashing, s: Story)
    requires s.Possible()
    ensures Next(hashOf, s.SubmittedState(hashOf), s.Waited()[0]) == s.SubmittedState(hashOf).(world := s.Later(hashOf))
  {
    var later := s.Later(hashOf);
    assert Chain.Tick(s.Opened(hashOf), s.elapsed) == later;
    assert Chain.Apply(later, s.caller, Chain.Deposit(0)).Err?;
  }

  lemma WaitedRuns(hashOf: Hashing, s: Story)
    requires s.Possible()
    ensures Run(hashOf, s.SubmittedState(hashOf), s.Waited()) == s.CheckedState(hashOf)
  {
    var a := s.Waited();
    RunFour(hashOf, s.SubmittedState(hashOf), a[0], a[1], a[2], a[3]);
    TimePasses(hashOf, s);
  }

  /** The finalization lands. */
  lemma FinalizationLands(hashOf: Hashing, s: Story, sent: System)
    requires s.Possible() && sent.world == s.Later(hashOf) && sent.service == s.Owner()
    requires sent.txs == [s.SubmitTxAs(hashOf, Landed), Tx(FinalizeTx(s.id), InFlight)]
    ensures Next(hashOf, sent, Include(1)) ==
      sent.(txs := [s.SubmitTxAs(hashOf, Landed), Tx(FinalizeTx(s.id), Landed)], world := s.Closed(hashOf))
  {
    var c := s.Later(hashOf).settlement;
    c.FinalizeEffect(s.world.now + s.elapsed, s.id);
    assert Chain.Apply(s.Later(hashOf), s.Owner(), CallOf(FinalizeTx(s.id))) == Ok(s.Closed(hashOf)) by {
      assert c.statements[s.id := Settlement.Statement(hashOf(s.id, s.total), s.wallet, s.total * 100, s.world.now,
        s.world.now + s.elapsed, Settlement.Finalized)] == s.Closed(hashOf).settlement.statements;
    }
  }

  lemma TriedRuns(hashOf: Hashing, s: Story)
    requires s.Possible()
    ensures Run(hashOf, s.CheckedState(hashOf), s.Tried()) == s.TriedState(hashOf)
  {
    var checked := s.CheckedState(hashOf);
    RunTwo(hashOf, checked, s.Tried()[0], s.Tried()[1]);
    assert s.Later(hashOf).settlement.IsFinalizable(s.world.now + s.elapsed, s.id) == Ok(true);
    assert Next(hashOf, checked, Advance(1, Succeeds)) == checked.(handlers := [Done(200), FinalizeSend(s.id)]);
  }

  lemma EndedRuns(hashOf: Hashing, s: Story)
    requires s.Possible()
    ensures Run(hashOf, s.TriedState(hashOf), s.Ended()) == s.PaidState(hashOf)
  {
    var (tried, a) := (s.TriedState(hashOf), s.Ended());
    FinalizationLands(hashOf, s, tried);
    var landed := Next(hashOf, tried, Include(1));
    assert Next(hashOf, landed, Advance(1, Succeeds)) == landed.(handlers := [Done(200), FinalizeRecord(s.id)]);
    RunTwo(hashOf, tried, a[0], a[1]);
    assert a[..2] == [a[0], a[1]];
    assert Run(hashOf, tried, a) == Next(hashOf, Run(hashOf, tried, a[..2]), a[2]);
  }

  /**
   And after the dispute window a finalize request that meets no failure ends with the row PAID,
   its statement final on chain and the row's amount in the supplier's balance.
   */
  lemma FinalizeSucceeds(hashOf: Hashing, s: Story)
    requires s.Possible()
    ensures var actions := s.Asked() + s.Sent() + s.Heard() + s.Waited() + s.Tried() + s.Ended();
      var end := Run(hashOf, Started(s.world, s.Owner()), actions);
      && end.rows == map[s.id := Row(s.total, PaidOut, Finalized, Some(s.wallet))]
      && end.handlers == [Done(200), Done(200)] && ChainFinal(end, s.id)
      && Get(end.world.settlement.claimableBalances, s.wallet)
         == Get(s.world.settlement.claimableBalances, s.wallet) + s.total * 100
  {
    var start := Started(s.world, s.Owner());
    SubmitSucceeds(hashOf, s);
    WaitedRuns(hashOf, s);
    TriedRuns(hashOf, s);
    EndedRuns(hashOf, s);
    RunAppend(hashOf, start, s.Asked() + s.Sent() + s.Heard(), s.Waited());
    RunAppend(hashOf, start, s.Asked() + s.Sent() + s.Heard() + s.Waited(), s.Tried());
    RunAppend(hashOf, start, s.Asked() + s.Sent() + s.Heard() + s.Waited() + s.Tried(), s.Ended());
  }
}
