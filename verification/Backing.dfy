/**
 Backing across contracts: while the escrow pays into this settlement contract and the owner
 submits no more for a supplier than has been transferred for it, every claim is covered.
 */
module Backing {
  import opened MapSums
  import opened Token
  import opened Chain
  import opened Wrappers
  import Escrow
  import Settlement

  function Recorded(w: World, s: Address): nat { Get(Escrow.Total(Escrow.SupplierFees, w.escrow.log), s) }
  function Transferred(w: World, s: Address): nat { Get(Escrow.Total(Escrow.Transfers, w.escrow.log), s) }
  function Submitted(w: World, s: Address): nat { Get(Settlement.Total(Settlement.Submissions, w.settlement.log), s) }
  function Finalized(w: World, s: Address): nat { Get(Settlement.Total(Settlement.Finalizations, w.settlement.log), s) }
  function Claimed(w: World, s: Address): nat { Get(Settlement.Total(Settlement.Claims, w.settlement.log), s) }

  /**
   The owner's discipline: one settlement address, and submissions within what was transferred.
   It is asked only of calls that succeed; what anybody tries in vain does not matter.
   */
  ghost predicate Disciplined(w: World, caller: Address, call: Call) {
    Apply(w, caller, call).Ok? ==>
      match call
      case SetSettlementContract(a) => a == w.settlement.self
      case SubmitStatement(_, s, amount, _) => Submitted(w, s) + amount <= Transferred(w, s)
      case _ => true
  }

  ghost predicate DisciplinedRun(w: World, steps: seq<Step>) {
    forall i :: 0 <= i < |steps| ==>
      Disciplined(Tick(Run(w, steps[..i]), steps[i].elapsed), steps[i].caller, steps[i].call)
  }

  /** Everything transferred and not yet claimed is in the settlement contract. */
  ghost predicate Backed(w: World) {
    && (w.escrow.settlement == NO_ADDRESS || w.escrow.settlement == w.settlement.self)
    && (forall s :: Submitted(w, s) <= Transferred(w, s))
    && Sum(Escrow.Total(Escrow.Transfers, w.escrow.log))
       <= w.token.BalanceOf(w.settlement.self) + Sum(Settlement.Total(Settlement.Claims, w.settlement.log))
  }

  // ---------------------------------------------------------------- each call keeps the backing

  lemma TransferIsBacked(w: World, caller: Address, supplier: Address, amount: uint256)
    requires w.token.Valid() && w.escrow.self != w.settlement.self && w.settlement.self != NO_ADDRESS
    requires Backed(w) && Apply(w, caller, TransferToSettlement(supplier, amount)).Ok?
    ensures Backed(Apply(w, caller, TransferToSettlement(supplier, amount)).value)
  {
    var w' := Apply(w, caller, TransferToSettlement(supplier, amount)).value;
    var before := Escrow.Total(Escrow.Transfers, w.escrow.log);
    assert w.escrow.settlement == w.settlement.self;
    assert w'.token.BalanceOf(w.settlement.self) == w.token.BalanceOf(w.settlement.self) + amount by {
      w.token.MoveEffect(w.escrow.self, w.settlement.self, amount);
    }
    assert Escrow.Total(Escrow.Transfers, w'.escrow.log) == Credit(before, supplier, amount) by {
      Escrow.TotalAppend(Escrow.Transfers, w.escrow.log, Escrow.TransferredToSettlement(supplier, amount));
    }
    CreditSum(before, supplier, amount);
    forall s
      ensures Submitted(w', s) <= Transferred(w', s)
    {
      assert Submitted(w, s) <= Transferred(w, s);
    }
  }

  /** Calls of the escrow that emit no transfer. */
  lemma EscrowEventIsBacked(w: World, w': World, event: Escrow.Event)
    requires Backed(w) && w'.settlement == w.settlement && w'.escrow.settlement == w.escrow.settlement
    requires w'.escrow.log == w.escrow.log + [event] && !event.TransferredToSettlement?
    requires w'.token.BalanceOf(w.settlement.self) >= w.token.BalanceOf(w.settlement.self)
    ensures Backed(w')
  {
    Escrow.TotalAppend(Escrow.Transfers, w.escrow.log, event);
    forall s
      ensures Submitted(w', s) <= Transferred(w', s)
    {
      assert Submitted(w, s) <= Transferred(w, s);
    }
  }

  /** Calls of the settlement that move no token. */
  lemma SettlementEventIsBacked(w: World, w': World, event: Settlement.Event)
    requires Backed(w) && w'.escrow == w.escrow && w'.token == w.token && w'.settlement.self == w.settlement.self
    requires w'.settlement.log == w.settlement.log + [event] && !event.PaymentClaimed?
    requires event.StatementSubmitted? ==> Submitted(w, event.supplier) + event.amount <= Transferred(w, event.supplier)
    ensures Backed(w')
  {
    Settlement.TotalAppend(Settlement.Claims, w.settlement.log, event);
    Settlement.TotalAppend(Settlement.Submissions, w.settlement.log, event);
    forall s
      ensures Submitted(w', s) <= Transferred(w', s)
    {
      assert Submitted(w, s) <= Transferred(w, s);
    }
  }

  lemma ClaimIsBacked(w: World, caller: Address)
    requires Safe(w) && Backed(w) && !IsContract(w, caller) && Apply(w, caller, ClaimPayment).Ok?
    ensures Backed(Apply(w, caller, ClaimPayment).value)
  {
    var w' := Apply(w, caller, ClaimPayment).value;
    var amount := Get(w.settlement.claimableBalances, caller);
    var event := Settlement.PaymentClaimed(caller, amount);
    w.token.MoveEffect(w.settlement.self, caller, amount);
    Settlement.TotalAppend(Settlement.Claims, w.settlement.log, event);
    Settlement.TotalAppend(Settlement.Submissions, w.settlement.log, event);
    CreditSum(Settlement.Total(Settlement.Claims, w.settlement.log), caller, amount);
    forall s
      ensures Submitted(w', s) <= Transferred(w', s)
    {
      assert Submitted(w, s) <= Transferred(w, s);
    }
  }

  /** Calls that leave both histories alone and take nothing from the settlement contract. */
  lemma QuietIsBacked(w: World, w': World)
    requires Backed(w)
    requires w'.escrow.log == w.escrow.log && w'.settlement.log == w.settlement.log
    requires w'.settlement.self == w.settlement.self
    requires w'.escrow.settlement == w.escrow.settlement || w'.escrow.settlement == w.settlement.self
    requires w'.token.BalanceOf(w.settlement.self) >= w.token.BalanceOf(w.settlement.self)
    ensures Backed(w')
  {
    forall s
      ensures Submitted(w', s) <= Transferred(w', s)
    {
      assert Submitted(w, s) <= Transferred(w, s);
    }
  }

  lemma SettlementKeepsTokens(w: World, caller: Address, call: Call)
    requires Safe(w) && !IsContract(w, caller) && Apply(w, caller, call).Ok? && !call.ClaimPayment?
    ensures Apply(w, caller, call).value.token.BalanceOf(w.settlement.self) >= w.token.BalanceOf(w.settlement.self)
  {
    var d := w.distributor;
    match call
    case TokenTransfer(to, amount) => w.token.MoveEffect(caller, to, amount);
    case TokenTransferFrom(from, to, amount) =>
      TransferFromIsPaidBy(w, caller, from, to, amount);
      w.token.TransferFromEffect(caller, from, to, amount);
    case Distribute(supplier, total, gateway) => d.DistributeIsPaidByCaller(w.token, caller, supplier, total, gateway);
    case ClaimProtocolFees => w.token.MoveEffect(d.self, d.treasury, d.protocolFees);
    case ClaimGatewayFees => w.token.MoveEffect(d.self, caller, Get(d.gatewayFees, caller));
    case _ => EscrowKeepsTokens(w, caller, call);
  }

  lemma EscrowKeepsTokens(w: World, caller: Address, call: Call)
    requires SeparateAddresses(w) && w.token.Valid() && !IsContract(w, caller) && Apply(w, caller, call).Ok?
    requires !call.ClaimPayment?
    requires !call.TokenTransfer? && !call.TokenTransferFrom? && !call.Distribute?
    requires !call.ClaimProtocolFees? && !call.ClaimGatewayFees?
    ensures Apply(w, caller, call).value.token.BalanceOf(w.settlement.self) >= w.token.BalanceOf(w.settlement.self)
  {
    match call
    case Deposit(amount) => w.token.TransferFromEffect(w.escrow.self, caller, w.escrow.self, amount);
    case TransferToSettlement(supplier, amount) => w.token.MoveEffect(w.escrow.self, w.escrow.settlement, amount);
    case Withdraw(amount) => w.token.MoveEffect(w.escrow.self, caller, amount);
    case _ =>
  }

  lemma CallIsBacked(w: World, caller: Address, call: Call)
    requires Safe(w) && Backed(w) && Disciplined(w, caller, call) && !IsContract(w, caller)
    requires Apply(w, caller, call).Ok?
    ensures Backed(Apply(w, caller, call).value)
  {
    var w' := Apply(w, caller, call).value;
    if call.ClaimPayment? {
      ClaimIsBacked(w, caller);
    } else {
      SettlementKeepsTokens(w, caller, call);
      match call
      case TransferToSettlement(supplier, amount) => TransferIsBacked(w, caller, supplier, amount);
      case Deposit(amount) => EscrowEventIsBacked(w, w', Escrow.Deposited(caller, amount));
      case Withdraw(amount) => EscrowEventIsBacked(w, w', Escrow.Withdrawn(caller, amount));
      case RecordVerification(b, s, a, r) => EscrowEventIsBacked(w, w', Escrow.VerificationRecorded(b, s, a, r));
      case SubmitStatement(id, s, a, _) => SettlementEventIsBacked(w, w', Settlement.StatementSubmitted(id, s, a));
      case FinalizeStatement(id) =>
        var st := w.settlement.statements[id];
        SettlementEventIsBacked(w, w', Settlement.StatementFinalized(id, st.supplier, st.totalAmount));
      case DisputeStatement(id) =>
        SettlementEventIsBacked(w, w', Settlement.StatementDisputedBy(id, w.settlement.statements[id].supplier));
      case _ => QuietIsBacked(w, w');
    }
  }

  lemma NextIsBacked(w: World, step: Step)
    requires Safe(w) && Backed(w) && !IsContract(w, step.caller)
    requires Disciplined(Tick(w, step.elapsed), step.caller, step.call)
    ensures Backed(Next(w, step))
  {
    var later := Tick(w, step.elapsed);
    QuietIsBacked(w, later);
    TimeIsSafe(w, step.elapsed);
    if Apply(later, step.caller, step.call).Ok? {
      CallIsBacked(later, step.caller, step.call);
    }
  }

  lemma FrontIsDisciplined(w: World, steps: seq<Step>)
    requires steps != [] && DisciplinedRun(w, steps)
    ensures DisciplinedRun(w, steps[..|steps| - 1])
    ensures var last := steps[|steps| - 1];
      Disciplined(Tick(Run(w, steps[..|steps| - 1]), last.elapsed), last.caller, last.call)
  {
    var front := steps[..|steps| - 1];
    forall i | 0 <= i < |front|
      ensures Disciplined(Tick(Run(w, front[..i]), front[i].elapsed), front[i].caller, front[i].call)
    {
      assert front[..i] == steps[..i];
    }
  }

  lemma {:induction false} EveryRunIsBacked(w: World, steps: seq<Step>)
    requires Safe(w) && Backed(w) && OutsideCallers(w, steps) && DisciplinedRun(w, steps)
    ensures Backed(Run(w, steps)) && Safe(Run(w, steps))
  {
    EveryRunIsSafe(w, steps);
    if steps != [] {
      var n := |steps| - 1;
      FrontIsDisciplined(w, steps);
      EveryRunIsBacked(w, steps[..n]);
      EveryRunIsSafe(w, steps[..n]);
      assert !IsContract(w, steps[n].caller);
      NextIsBacked(Run(w, steps[..n]), steps[n]);
    }
  }

  // ---------------------------------------------------------------- what backing means

  /** For each supplier: claimed <= finalized <= submitted <= transferred <= recorded. */
  lemma SupplierOrder(w: World, s: Address)
    requires Safe(w) && Backed(w)
    ensures Claimed(w, s) <= Finalized(w, s) <= Submitted(w, s) <= Transferred(w, s) <= Recorded(w, s)
    ensures Get(w.settlement.claimableBalances, s) == Finalized(w, s) - Claimed(w, s)
  {
    assert w.settlement.SupplierLine(s);
    assert Escrow.SupplierLine(w.escrow.supplierPendingTotals, w.escrow.pendingRecords, w.escrow.log, s);
    var finalized, submitted := w.settlement.FinalizedFor(s), w.settlement.SubmittedFor(s);
    SumMonotone(finalized, submitted);
  }

  /** The settlement contract holds at least every claimable balance together. */
  lemma ClaimsAreCovered(w: World)
    requires Safe(w) && Backed(w)
    ensures Sum(w.settlement.claimableBalances) <= w.token.BalanceOf(w.settlement.self)
  {
    var claims := Settlement.Total(Settlement.Claims, w.settlement.log);
    var finalizations := Settlement.Total(Settlement.Finalizations, w.settlement.log);
    var transfers := Escrow.Total(Escrow.Transfers, w.escrow.log);
    forall s
      ensures Get(w.settlement.claimableBalances, s) + Get(claims, s) == Get(finalizations, s)
      ensures Get(finalizations, s) <= Get(transfers, s)
    {
      SupplierOrder(w, s);
    }
    SumAdds(w.settlement.claimableBalances, claims, finalizations);
    SumMonotone(finalizations, transfers);
  }

  /** A claim succeeds exactly if there is something to claim, and a finalization does not overflow. */
  ghost predicate ClaimsSucceed(e: World, s: Address, id: Settlement.StatementId) {
    && (e.settlement.ClaimPayment(e.token, s).Ok? <==>
          !e.settlement.paused && s != NO_ADDRESS && Get(e.settlement.claimableBalances, s) > 0)
    && (e.settlement.StatusOf(id) == Settlement.Submitted ==>
          var st := e.settlement.statements[id];
          Get(e.settlement.claimableBalances, st.supplier) + st.totalAmount <= MAX_UINT256)
  }

  /**
   Over every disciplined run: a claim succeeds whenever there is something to
   claim and the contract is not paused, and no finalization ever overflows a balance.
   */
  lemma ClaimsNeverFail(w: World, steps: seq<Step>, s: Address, id: Settlement.StatementId)
    requires Safe(w) && Backed(w) && OutsideCallers(w, steps) && DisciplinedRun(w, steps)
    ensures ClaimsSucceed(Run(w, steps), s, id)
  {
    EveryRunIsBacked(w, steps);
    var e := Run(w, steps);
    ClaimsAreCovered(e);
    GetAtMostSum(e.settlement.claimableBalances, s);
    e.token.MoveEffect(e.settlement.self, s, Get(e.settlement.claimableBalances, s));
    if e.settlement.StatusOf(id) == Settlement.Submitted {
      OpenStatementFits(e, id);
    }
  }

  /** A submitted statement and its supplier's balance together are still within the contract's tokens. */
  lemma OpenStatementFits(w: World, id: Settlement.StatementId)
    requires Safe(w) && Backed(w) && w.settlement.StatusOf(id) == Settlement.Submitted
    ensures var st := w.settlement.statements[id];
      Get(w.settlement.claimableBalances, st.supplier) + st.totalAmount <= w.token.BalanceOf(w.settlement.self)
  {
    var s := w.settlement.statements[id].supplier;
    OpenWithinSubmitted(w, id);
    var claims := Settlement.Total(Settlement.Claims, w.settlement.log);
    var transfers := Escrow.Total(Escrow.Transfers, w.escrow.log);
    SumSplit(transfers, s);
    SumSplit(claims, s);
    forall k
      ensures Get(claims - {s}, k) <= Get(transfers - {s}, k)
    {
      SupplierOrder(w, k);
    }
    SumMonotone(claims - {s}, transfers - {s});
    SupplierOrder(w, s);
  }

  lemma OpenWithinSubmitted(w: World, id: Settlement.StatementId)
    requires Safe(w) && w.settlement.StatusOf(id) == Settlement.Submitted
    ensures var st := w.settlement.statements[id];
      Finalized(w, st.supplier) + st.totalAmount <= Submitted(w, st.supplier)
  {
    var s := w.settlement.statements[id].supplier;
    var finalized, submitted := w.settlement.FinalizedFor(s), w.settlement.SubmittedFor(s);
    assert w.settlement.SupplierLine(s);
    SumSplit(submitted, id);
    SumMonotone(finalized, submitted - {id});
  }

  lemma DeployedIsBacked(token: Token, escrow: Address, settlement: Address, distributor: Address, owner: Address,
                         treasury: Address, now: uint256)
    ensures Backed(Deployed(token, escrow, settlement, distributor, owner, treasury, now))
  {
  }

  /** Every disciplined run of freshly deployed contracts, spelled out. */
  lemma FromDeployment(token: Token, escrow: Address, settlement: Address, distributor: Address, owner: Address,
                       treasury: Address, now: uint256, steps: seq<Step>, s: Address, id: Settlement.StatementId)
    requires var w := Deployed(token, escrow, settlement, distributor, owner, treasury, now);
      && SeparateAddresses(w) && NoApprovals(w) && token.Valid() && treasury != NO_ADDRESS
      && OutsideCallers(w, steps) && DisciplinedRun(w, steps)
    ensures var e := Run(Deployed(token, escrow, settlement, distributor, owner, treasury, now), steps);
      && ClaimsSucceed(e, s, id)
      && Claimed(e, s) <= Finalized(e, s) <= Submitted(e, s) <= Transferred(e, s) <= Recorded(e, s)
      && Sum(e.settlement.claimableBalances) <= e.token.BalanceOf(e.settlement.self)
  {
    var w := Deployed(token, escrow, settlement, distributor, owner, treasury, now);
    DeployedIsSafe(token, escrow, settlement, distributor, owner, treasury, now);
    DeployedIsBacked(token, escrow, settlement, distributor, owner, treasury, now);
    ClaimsNeverFail(w, steps, s, id);
    EveryRunIsBacked(w, steps);
    SupplierOrder(Run(w, steps), s);
    ClaimsAreCovered(Run(w, steps));
  }

  /**
   Over every disciplined run, while the clock is not within seven days of its end: of a
   submitted statement exactly one of dispute by its supplier and finalization by anybody is
   open, with no further condition, and the views say which.
   */
  lemma ExactlyOneIsOpen(w: World, steps: seq<Step>, id: Settlement.StatementId)
    requires Safe(w) && Backed(w) && OutsideCallers(w, steps) && DisciplinedRun(w, steps)
    requires var e := Run(w, steps);
      && !e.settlement.paused && e.settlement.StatusOf(id) == Settlement.Submitted
      && e.now + Settlement.MAX_DISPUTE_WINDOW <= MAX_UINT256
    ensures var e := Run(w, steps);
      var disputable := e.settlement.DisputeStatement(e.now, e.settlement.statements[id].supplier, id).Ok?;
      && (disputable <==> !e.settlement.FinalizeStatement(e.now, id).Ok?)
      && e.settlement.IsFinalizable(e.now, id) == Ok(!disputable)
      && (e.settlement.GetRemainingDisputeTime(e.now, id) == Ok(0) <==> !disputable)
  {
    EveryRunIsBacked(w, steps);
    var e := Run(w, steps);
    OpenStatementFits(e, id);
    assert e.settlement.StatementLine(e.now, id);
    e.settlement.DisputeOrFinalize(e.now, id);
  }
}
