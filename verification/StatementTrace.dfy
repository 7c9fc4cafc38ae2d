/**
 Every statement on chain traced back to the calls that made it.  Times are those of the clock at
 a step, never those the contract stored.
 */
module StatementTrace {
  import opened Token
  import opened Chain
  import opened CallLedgers
  import opened Wrappers
  import Settlement

  type Id = Settlement.StatementId

  ghost predicate SubmitsAt(w: World, steps: seq<Step>, i: nat, id: Id) {
    i < |steps| && Succeeds(w, steps, i) && steps[i].call.SubmitStatement? && steps[i].call.id == id
  }

  /** Step `i` submitted the statement: the owner's call, whose values the statement still has. */
  ghost predicate IsSubmission(w: World, steps: seq<Step>, id: Id, i: nat) {
    && SubmitsAt(w, steps, i, id) && id in Run(w, steps).settlement.statements
    && var (st, call, before) := (Run(w, steps).settlement.statements[id], steps[i].call, Before(w, steps, i));
    && steps[i].caller == before.settlement.owner
    && st.hash == call.hash && st.supplier == call.supplier && st.totalAmount == call.amount
    && st.submittedAt == before.now
  }

  /** A finalization no earlier than the window in force after the submission's step. */
  ghost predicate IsFinalization(w: World, steps: seq<Step>, id: Id, i: nat, j: nat) {
    && i < j < |steps| && Succeeds(w, steps, j) && steps[j].call == FinalizeStatement(id)
    && Before(w, steps, j).now >= Before(w, steps, i).now + Before(w, steps, j).settlement.disputeWindow
    && id in Run(w, steps).settlement.statements
    && Run(w, steps).settlement.statements[id].status == Settlement.Finalized
    && Run(w, steps).settlement.statements[id].finalizedAt == Before(w, steps, j).now
  }

  /** A dispute by the very supplier the submission named, within the window in force. */
  ghost predicate IsDispute(w: World, steps: seq<Step>, id: Id, i: nat, j: nat) {
    && i < j < |steps| && Succeeds(w, steps, j) && steps[j].call == DisputeStatement(id)
    && steps[i].call.SubmitStatement? && steps[j].caller == steps[i].call.supplier
    && Before(w, steps, j).now < Before(w, steps, i).now + Before(w, steps, j).settlement.disputeWindow
    && id in Run(w, steps).settlement.statements
    && Run(w, steps).settlement.statements[id].status == Settlement.Disputed
  }

  /** Its submission, and what became of it since. */
  ghost predicate Explains(w: World, steps: seq<Step>, id: Id, i: nat) {
    && IsSubmission(w, steps, id, i)
    && (|| Run(w, steps).settlement.statements[id].status == Settlement.Submitted
        || (exists j: nat :: IsFinalization(w, steps, id, i, j))
        || (exists j: nat :: IsDispute(w, steps, id, i, j)))
  }

  // ---------------------------------------------------------------- one more step

  /** A call either is about the statement or leaves it as it is. */
  lemma StatementStep(w: World, caller: Address, call: Call, id: Id)
    requires Apply(w, caller, call).Ok?
    requires !(call.SubmitStatement? && call.id == id)
    requires call != FinalizeStatement(id) && call != DisputeStatement(id)
    ensures var (s, s') := (w.settlement.statements, Apply(w, caller, call).value.settlement.statements);
      (id in s' <==> id in s) && (id in s ==> s'[id] == s[id])
  {
    match call
    case SubmitStatement(_, _, _, _) =>
    case FinalizeStatement(_) =>
    case DisputeStatement(_) =>
    case ClaimPayment =>
    case _ => OtherCallsLeaveSettlement(w, caller, call);
  }

  lemma FrontIsSame(w: World, steps: seq<Step>, i: nat)
    requires i < |steps| - 1
    ensures var front := steps[..|steps| - 1];
      Before(w, front, i) == Before(w, steps, i) && front[i] == steps[i]
        && Succeeds(w, front, i) == Succeeds(w, steps, i)
  {
    assert steps[..|steps| - 1][..i] == steps[..i];
  }

  /** The last step as the run sees it. */
  lemma LastStep(w: World, steps: seq<Step>)
    requires steps != []
    ensures var (n, before) := (|steps| - 1, Before(w, steps, |steps| - 1));
      && before.settlement == Run(w, steps[..n]).settlement
      && Run(w, steps) == if Succeeds(w, steps, n) then Apply(before, steps[n].caller, steps[n].call).value else before
  {
  }

  /** What is known after the front is known after a step that leaves the statement alone. */
  lemma StillExplained(w: World, steps: seq<Step>, id: Id, i: nat)
    requires steps != [] && Explains(w, steps[..|steps| - 1], id, i)
    requires var (s, s') := (Run(w, steps[..|steps| - 1]).settlement.statements, Run(w, steps).settlement.statements);
      id in s' && s'[id] == s[id]
    ensures Explains(w, steps, id, i)
  {
    var front := steps[..|steps| - 1];
    FrontIsSame(w, steps, i);
    if j: nat :| IsFinalization(w, front, id, i, j) {
      FrontIsSame(w, steps, j);
      assert IsFinalization(w, steps, id, i, j);
    } else if j: nat :| IsDispute(w, front, id, i, j) {
      FrontIsSame(w, steps, j);
      assert IsDispute(w, steps, id, i, j);
    }
  }

  lemma Resolved(w: World, steps: seq<Step>, id: Id, i: nat)
    requires steps != [] && Succeeds(w, steps, |steps| - 1)
    requires steps[|steps| - 1].call == FinalizeStatement(id) || steps[|steps| - 1].call == DisputeStatement(id)
    requires Explains(w, steps[..|steps| - 1], id, i)
    ensures Explains(w, steps, id, i)
  {
    var n := |steps| - 1;
    LastStep(w, steps);
    FrontIsSame(w, steps, i);
    var before := Before(w, steps, n);
    if steps[n].call == FinalizeStatement(id) {
      before.settlement.FinalizeEffect(before.now, id);
      assert IsFinalization(w, steps, id, i, n);
    } else {
      before.settlement.DisputeEffect(before.now, steps[n].caller, id);
      assert IsDispute(w, steps, id, i, n);
    }
  }

  lemma Opened(w: World, steps: seq<Step>, id: Id)
    requires steps != [] && SubmitsAt(w, steps, |steps| - 1, id)
    ensures Explains(w, steps, id, |steps| - 1)
  {
    var n := |steps| - 1;
    LastStep(w, steps);
    var (before, call) := (Before(w, steps, n), steps[n].call);
    before.settlement.SubmitEffect(before.now, steps[n].caller, id, call.supplier, call.amount, call.hash);
  }

  // ---------------------------------------------------------------- every run

  /**
   Over every run from contracts without statements: a statement was submitted by a call of the
   owner, with that call's values at that call's time, and is open, or was finalized after the
   window in force had passed since then, or disputed by its supplier before it had.
   */
  lemma {:induction false} EveryStatementIsExplained(w: World, steps: seq<Step>, id: Id) returns (i: nat)
    requires w.settlement.statements == map[] && id in Run(w, steps).settlement.statements
    ensures Explains(w, steps, id, i)
    decreases |steps|
  {
    var n := |steps| - 1;
    var (front, last) := (steps[..n], steps[n]);
    LastStep(w, steps);
    if SubmitsAt(w, steps, n, id) {
      Opened(w, steps, id);
      i := n;
    } else if Succeeds(w, steps, n) && (last.call == FinalizeStatement(id) || last.call == DisputeStatement(id)) {
      i := EveryStatementIsExplained(w, front, id);
      Resolved(w, steps, id, i);
    } else {
      if Succeeds(w, steps, n) {
        StatementStep(Before(w, steps, n), last.caller, last.call, id);
      }
      i := EveryStatementIsExplained(w, front, id);
      StillExplained(w, steps, id, i);
    }
  }

  /** A submission that succeeded leaves a statement for good. */
  lemma {:induction false} SubmissionStays(w: World, steps: seq<Step>, id: Id, i: nat)
    requires SubmitsAt(w, steps, i, id)
    ensures Run(w, steps).settlement.StatusOf(id) != Settlement.None_
    decreases |steps|
  {
    var n := |steps| - 1;
    LastStep(w, steps);
    if i == n {
      Opened(w, steps, id);
    } else {
      FrontIsSame(w, steps, i);
      SubmissionStays(w, steps[..n], id, i);
      if Succeeds(w, steps, n) {
        StatusStays(Before(w, steps, n), steps[n].caller, steps[n].call, id);
      }
    }
  }

  lemma StatusStays(w: World, caller: Address, call: Call, id: Id)
    requires Apply(w, caller, call).Ok? && w.settlement.StatusOf(id) != Settlement.None_
    ensures Apply(w, caller, call).value.settlement.StatusOf(id) != Settlement.None_
  {
    if !(call.SubmitStatement? && call.id == id) && call != FinalizeStatement(id) && call != DisputeStatement(id) {
      StatementStep(w, caller, call, id);
    }
  }

  /** A second submission of one id is refused. */
  lemma SubmittedOnce(w: World, steps: seq<Step>, id: Id, i: nat, j: nat)
    requires SubmitsAt(w, steps, i, id) && i < j < |steps| && steps[j].call.SubmitStatement? && steps[j].call.id == id
    ensures !Succeeds(w, steps, j)
  {
    var front := steps[..j];
    assert front[..i] == steps[..i] && front[i] == steps[i];
    assert Before(w, front, i) == Before(w, steps, i);
    SubmissionStays(w, front, id, i);
    var (before, call) := (Before(w, steps, j), steps[j].call);
    before.settlement.SubmitEffect(before.now, steps[j].caller, id, call.supplier, call.amount, call.hash);
  }

  /** So a run has a statement exactly if one submission of it succeeded, and never two. */
  lemma StatementIffSubmission(w: World, steps: seq<Step>, id: Id)
    requires w.settlement.statements == map[]
    ensures id in Run(w, steps).settlement.statements <==> exists i: nat :: SubmitsAt(w, steps, i, id)
    ensures forall i: nat, j: nat :: SubmitsAt(w, steps, i, id) && SubmitsAt(w, steps, j, id) ==> i == j
  {
    if id in Run(w, steps).settlement.statements {
      var i := EveryStatementIsExplained(w, steps, id);
    }
    if i: nat :| SubmitsAt(w, steps, i, id) {
      SubmissionStays(w, steps, id, i);
    }
    forall i: nat, j: nat | SubmitsAt(w, steps, i, id) && SubmitsAt(w, steps, j, id)
      ensures i == j
    {
      if i < j {
        SubmittedOnce(w, steps, id, i, j);
      } else if j < i {
        SubmittedOnce(w, steps, id, j, i);
      }
    }
  }
}
