/**
 The contracts' tables and histories as sums over the calls that were made: who deposited,
 recorded, claimed or paid what is read off the steps of a run, never off what a contract wrote.
 */
module CallLedgers {
  import opened MapSums
  import opened Token
  import opened Chain
  import opened Wrappers
  import Escrow
  import Settlement
  import Distributor

  /** What one successful call counts for, seen in the state it is made in. */
  type Amount = (World, Address, Call) -> nat

  /** The state in which step `i` of a run makes its call. */
  function Before(w: World, steps: seq<Step>, i: nat): World
    requires i < |steps|
  {
    Tick(Run(w, steps[..i]), steps[i].elapsed)
  }

  predicate Succeeds(w: World, steps: seq<Step>, i: nat)
    requires i < |steps|
  {
    Apply(Before(w, steps, i), steps[i].caller, steps[i].call).Ok?
  }

  /** The sum of what the successful calls of a run count for. */
  ghost function OverCalls(w: World, steps: seq<Step>, f: Amount): nat {
    if steps == [] then 0
    else
      var n := |steps| - 1;
      OverCalls(w, steps[..n], f)
        + if Succeeds(w, steps, n) then f(Before(w, steps, n), steps[n].caller, steps[n].call) else 0
  }

  /** Every successful call changes `m` by what it gains less what it loses, and time does not change it. */
  ghost predicate Books(m: World -> nat, gains: Amount, losses: Amount) {
    && (forall w, elapsed: nat :: m(Tick(w, elapsed)) == m(w))
    && (forall w, caller, call :: Apply(w, caller, call).Ok? ==>
          m(Apply(w, caller, call).value) + losses(w, caller, call) == m(w) + gains(w, caller, call))
  }

  lemma {:induction false} RunBooks(m: World -> nat, gains: Amount, losses: Amount, w: World, steps: seq<Step>)
    requires Books(m, gains, losses)
    ensures m(Run(w, steps)) + OverCalls(w, steps, losses) == m(w) + OverCalls(w, steps, gains)
    decreases |steps|
  {
    if steps != [] {
      var n := |steps| - 1;
      RunBooks(m, gains, losses, w, steps[..n]);
      assert m(Before(w, steps, n)) == m(Run(w, steps[..n]));
    }
  }

  function Nothing(): Amount {
    (w: World, caller: Address, call: Call) => 0
  }

  lemma {:induction false} NothingOverCalls(w: World, steps: seq<Step>)
    ensures OverCalls(w, steps, Nothing()) == 0
    decreases |steps|
  {
    if steps != [] {
      NothingOverCalls(w, steps[..|steps| - 1]);
    }
  }

  // ---------------------------------------------------------------- the escrow

  function DepositsBy(b: Address): Amount {
    (w: World, caller: Address, call: Call) => if call.Deposit? && caller == b then call.amount else 0
  }

  function WithdrawalsBy(b: Address): Amount {
    (w: World, caller: Address, call: Call) => if call.Withdraw? && caller == b then call.amount else 0
  }

  function FeesOf(b: Address): Amount {
    (w: World, caller: Address, call: Call) => if call.RecordVerification? && call.brand == b then call.amount else 0
  }

  function FeesFor(s: Address): Amount {
    (w: World, caller: Address, call: Call) => if call.RecordVerification? && call.supplier == s then call.amount else 0
  }

  function FeesBetween(b: Address, s: Address): Amount {
    (w: World, caller: Address, call: Call) =>
      if call.RecordVerification? && call.brand == b && call.supplier == s then call.amount else 0
  }

  function TransfersFor(s: Address): Amount {
    (w: World, caller: Address, call: Call) => if call.TransferToSettlement? && call.supplier == s then call.amount
      else 0
  }

  function RecordsOf(r: Escrow.Receipt): Amount {
    (w: World, caller: Address, call: Call) => if call.RecordVerification? && call.receipt == r then 1 else 0
  }

  function SpentBy(b: Address): Amount {
    (w: World, caller: Address, call: Call) =>
      if call.Withdraw? && caller == b then call.amount
      else if call.RecordVerification? && call.brand == b then call.amount else 0
  }

  function BalanceOf(b: Address): World -> nat {
    (w: World) => Get(w.escrow.brandBalances, b)
  }

  function PendingOf(s: Address): World -> nat {
    (w: World) => Get(w.escrow.supplierPendingTotals, s)
  }

  function RecordBetween(b: Address, s: Address): World -> nat {
    (w: World) => Get(w.escrow.pendingRecords, (b, s))
  }

  function IsRecorded(r: Escrow.Receipt): World -> nat {
    (w: World) => if r in w.escrow.recordedReceipts then 1 else 0
  }

  function EscrowTotal(tally: Escrow.Tally, a: Address): World -> nat {
    (w: World) => Get(Escrow.Total(tally, w.escrow.log), a)
  }

  /** The events a call of the escrow leaves, from the call alone. */
  function EscrowEvents(caller: Address, call: Call): seq<Escrow.Event> {
    match call
    case Deposit(amount) => [Escrow.Deposited(caller, amount)]
    case RecordVerification(b, s, amount, r) => [Escrow.VerificationRecorded(b, s, amount, r)]
    case TransferToSettlement(s, amount) => [Escrow.TransferredToSettlement(s, amount)]
    case Withdraw(amount) => [Escrow.Withdrawn(caller, amount)]
    case _ => []
  }

  lemma EscrowLogsCall(w: World, caller: Address, call: Call)
    requires Apply(w, caller, call).Ok?
    ensures Apply(w, caller, call).value.escrow.log == w.escrow.log + EscrowEvents(caller, call)
  {
    var w' := Apply(w, caller, call).value;
    if EscrowEvents(caller, call) == [] {
      OtherCallsLeaveEscrow(w, caller, call);
      assert w.escrow.log + [] == w.escrow.log;
    }
  }

  /** Calls that are not about balances leave every table and the history of the escrow alone. */
  lemma OtherCallsLeaveEscrow(w: World, caller: Address, call: Call)
    requires Apply(w, caller, call).Ok? && EscrowEvents(caller, call) == []
    ensures var (e, e') := (w.escrow, Apply(w, caller, call).value.escrow);
      && e'.brandBalances == e.brandBalances && e'.pendingRecords == e.pendingRecords
      && e'.supplierPendingTotals == e.supplierPendingTotals && e'.recordedReceipts == e.recordedReceipts
      && e'.log == e.log
  {
    match call
    case FinalizeStatement(_) =>
    case DisputeStatement(_) =>
    case Distribute(_, _, _) =>
    case _ =>
  }

  /** What a call adds to a total of the history. */
  function TallyOf(tally: Escrow.Tally, a: Address): Amount {
    match tally
    case Deposits => DepositsBy(a)
    case Withdrawals => WithdrawalsBy(a)
    case BrandFees => FeesOf(a)
    case SupplierFees => FeesFor(a)
    case Transfers => TransfersFor(a)
  }

  lemma TallyBooks(tally: Escrow.Tally, a: Address)
    ensures Books(EscrowTotal(tally, a), TallyOf(tally, a), Nothing())
  {
    forall w: World, caller: Address, call: Call | Apply(w, caller, call).Ok?
      ensures EscrowTotal(tally, a)(Apply(w, caller, call).value)
        == EscrowTotal(tally, a)(w) + TallyOf(tally, a)(w, caller, call)
    {
      TallyBooksCall(tally, a, w, caller, call);
    }
  }

  lemma TallyBooksCall(tally: Escrow.Tally, a: Address, w: World, caller: Address, call: Call)
    requires Apply(w, caller, call).Ok?
    ensures EscrowTotal(tally, a)(Apply(w, caller, call).value)
      == EscrowTotal(tally, a)(w) + TallyOf(tally, a)(w, caller, call)
  {
    EscrowLogsCall(w, caller, call);
    EscrowTotalGrows(tally, a, w.escrow.log, w, caller, call);
  }

  /** What the events of a call add to a total is what the call counts for. */
  lemma EscrowTotalGrows(tally: Escrow.Tally, a: Address, log: seq<Escrow.Event>, w: World, caller: Address, call: Call)
    ensures Get(Escrow.Total(tally, log + EscrowEvents(caller, call)), a)
      == Get(Escrow.Total(tally, log), a) + TallyOf(tally, a)(w, caller, call)
  {
    var events := EscrowEvents(caller, call);
    if events != [] {
      Escrow.TotalAppend(tally, log, events[0]);
      assert events == [events[0]];
    } else {
      assert log + events == log;
    }
  }

  lemma BalanceBooks(b: Address)
    ensures Books(BalanceOf(b), DepositsBy(b), SpentBy(b))
  {
    forall w: World, caller: Address, call: Call | Apply(w, caller, call).Ok?
      ensures BalanceOf(b)(Apply(w, caller, call).value) + SpentBy(b)(w, caller, call)
        == BalanceOf(b)(w) + DepositsBy(b)(w, caller, call)
    {
      if EscrowEvents(caller, call) == [] {
        OtherCallsLeaveEscrow(w, caller, call);
      }
    }
  }

  lemma PendingBooks(s: Address)
    ensures Books(PendingOf(s), FeesFor(s), TransfersFor(s))
  {
    forall w: World, caller: Address, call: Call | Apply(w, caller, call).Ok?
      ensures PendingOf(s)(Apply(w, caller, call).value) + TransfersFor(s)(w, caller, call)
        == PendingOf(s)(w) + FeesFor(s)(w, caller, call)
    {
      if EscrowEvents(caller, call) == [] {
        OtherCallsLeaveEscrow(w, caller, call);
      }
    }
  }

  lemma RecordBooks(b: Address, s: Address, r: Escrow.Receipt)
    ensures Books(RecordBetween(b, s), FeesBetween(b, s), Nothing())
    ensures Books(IsRecorded(r), RecordsOf(r), Nothing())
  {
    forall w: World, caller: Address, call: Call | Apply(w, caller, call).Ok?
      ensures RecordBetween(b, s)(Apply(w, caller, call).value)
        == RecordBetween(b, s)(w) + FeesBetween(b, s)(w, caller, call)
      ensures IsRecorded(r)(Apply(w, caller, call).value) == IsRecorded(r)(w) + RecordsOf(r)(w, caller, call)
    {
      if EscrowEvents(caller, call) == [] {
        OtherCallsLeaveEscrow(w, caller, call);
      }
    }
  }

  /**
   Over every run, by anybody: a brand's balance is what its own calls deposited less what they
   withdrew and what was recorded against it; a supplier's pending total is what was recorded for
   it less what was moved on; a receipt is recorded by one call at most.
   */
  lemma EscrowIsItsCalls(w: World, steps: seq<Step>, b: Address, s: Address, r: Escrow.Receipt)
    ensures var e := Run(w, steps).escrow;
      && Get(e.brandBalances, b) + OverCalls(w, steps, SpentBy(b))
         == Get(w.escrow.brandBalances, b) + OverCalls(w, steps, DepositsBy(b))
      && Get(e.supplierPendingTotals, s) + OverCalls(w, steps, TransfersFor(s))
         == Get(w.escrow.supplierPendingTotals, s) + OverCalls(w, steps, FeesFor(s))
      && Get(e.pendingRecords, (b, s)) == Get(w.escrow.pendingRecords, (b, s)) + OverCalls(w, steps, FeesBetween(b, s))
      && OverCalls(w, steps, RecordsOf(r)) == if r in e.recordedReceipts && r !in w.escrow.recordedReceipts then 1
        else 0
  {
    BalanceBooks(b);
    PendingBooks(s);
    RecordBooks(b, s, r);
    NothingOverCalls(w, steps);
    RunBooks(BalanceOf(b), DepositsBy(b), SpentBy(b), w, steps);
    RunBooks(PendingOf(s), FeesFor(s), TransfersFor(s), w, steps);
    RunBooks(RecordBetween(b, s), FeesBetween(b, s), Nothing(), w, steps);
    RunBooks(IsRecorded(r), RecordsOf(r), Nothing(), w, steps);
  }

  /** And every total of the history is the sum over those calls. */
  lemma EscrowHistoryIsItsCalls(w: World, steps: seq<Step>, tally: Escrow.Tally, a: Address)
    ensures Get(Escrow.Total(tally, Run(w, steps).escrow.log), a)
      == Get(Escrow.Total(tally, w.escrow.log), a) + OverCalls(w, steps, TallyOf(tally, a))
  {
    TallyBooks(tally, a);
    NothingOverCalls(w, steps);
    RunBooks(EscrowTotal(tally, a), TallyOf(tally, a), Nothing(), w, steps);
  }

  // ---------------------------------------------------------------- the settlement

  function SubmissionsFor(s: Address): Amount {
    (w: World, caller: Address, call: Call) => if call.SubmitStatement? && call.supplier == s then call.amount else 0
  }

  /** A claim is worth the caller's whole balance at the time. */
  function ClaimedBy(w: World, caller: Address, call: Call, s: Address): nat {
    if call.ClaimPayment? && caller == s then Get(w.settlement.claimableBalances, s) else 0
  }

  function ClaimsBy(s: Address): Amount {
    (w: World, caller: Address, call: Call) => ClaimedBy(w, caller, call, s)
  }

  /** A finalization is worth the statement's amount, to the supplier it names. */
  function FinalizedBy(w: World, call: Call, s: Address): nat {
    if call.FinalizeStatement? && call.id in w.settlement.statements && w.settlement.statements[call.id].supplier == s
    then w.settlement.statements[call.id].totalAmount else 0
  }

  function FinalizationsFor(s: Address): Amount {
    (w: World, caller: Address, call: Call) => FinalizedBy(w, call, s)
  }

  function ClaimableOf(s: Address): World -> nat {
    (w: World) => Get(w.settlement.claimableBalances, s)
  }

  function SettlementTotal(tally: Settlement.Tally, a: Address): World -> nat {
    (w: World) => Get(Settlement.Total(tally, w.settlement.log), a)
  }

  /** The events a call of the settlement leaves, from the call and the state it meets. */
  function SettlementEvents(w: World, caller: Address, call: Call): seq<Settlement.Event> {
    match call
    case SubmitStatement(id, s, amount, _) => [Settlement.StatementSubmitted(id, s, amount)]
    case FinalizeStatement(id) =>
      if id !in w.settlement.statements then []
      else
        var st := w.settlement.statements[id];
        [Settlement.StatementFinalized(id, st.supplier, st.totalAmount)]
    case DisputeStatement(id) => [Settlement.StatementDisputedBy(id, caller)]
    case ClaimPayment => [Settlement.PaymentClaimed(caller, Get(w.settlement.claimableBalances, caller))]
    case _ => []
  }

  lemma SettlementLogsCall(w: World, caller: Address, call: Call)
    requires Apply(w, caller, call).Ok?
    ensures Apply(w, caller, call).value.settlement.log == w.settlement.log + SettlementEvents(w, caller, call)
  {
    if SettlementEvents(w, caller, call) == [] {
      OtherCallsLeaveSettlement(w, caller, call);
      assert w.settlement.log + [] == w.settlement.log;
    }
  }

  lemma OtherCallsLeaveSettlement(w: World, caller: Address, call: Call)
    requires Apply(w, caller, call).Ok? && SettlementEvents(w, caller, call) == []
    ensures var (s, s') := (w.settlement, Apply(w, caller, call).value.settlement);
      s'.statements == s.statements && s'.claimableBalances == s.claimableBalances && s'.log == s.log
  {
    match call
    case FinalizeStatement(_) =>
    case Distribute(_, _, _) =>
    case _ =>
  }

  function StatementTallyOf(tally: Settlement.Tally, a: Address): Amount {
    match tally
    case Submissions => SubmissionsFor(a)
    case Finalizations => FinalizationsFor(a)
    case Claims => ClaimsBy(a)
  }

  lemma StatementTallyBooks(tally: Settlement.Tally, a: Address)
    ensures Books(SettlementTotal(tally, a), StatementTallyOf(tally, a), Nothing())
  {
    forall w: World, caller: Address, call: Call | Apply(w, caller, call).Ok?
      ensures SettlementTotal(tally, a)(Apply(w, caller, call).value)
        == SettlementTotal(tally, a)(w) + StatementTallyOf(tally, a)(w, caller, call)
    {
      StatementTallyBooksCall(tally, a, w, caller, call);
    }
  }

  lemma StatementTallyBooksCall(tally: Settlement.Tally, a: Address, w: World, caller: Address, call: Call)
    requires Apply(w, caller, call).Ok?
    ensures SettlementTotal(tally, a)(Apply(w, caller, call).value)
      == SettlementTotal(tally, a)(w) + StatementTallyOf(tally, a)(w, caller, call)
  {
    SettlementLogsCall(w, caller, call);
    SettlementTotalGrows(tally, a, w.settlement.log, w, caller, call);
  }

  lemma SettlementTotalGrows(tally: Settlement.Tally, a: Address, log: seq<Settlement.Event>, w: World, caller: Address,
                             call: Call)
    ensures Get(Settlement.Total(tally, log + SettlementEvents(w, caller, call)), a)
      == Get(Settlement.Total(tally, log), a) + StatementTallyOf(tally, a)(w, caller, call)
  {
    var events := SettlementEvents(w, caller, call);
    if events != [] {
      Settlement.TotalAppend(tally, log, events[0]);
      assert events == [events[0]];
    } else {
      assert log + events == log;
    }
  }

  lemma ClaimableBooks(s: Address)
    ensures Books(ClaimableOf(s), FinalizationsFor(s), ClaimsBy(s))
  {
    forall w: World, caller: Address, call: Call | Apply(w, caller, call).Ok?
      ensures ClaimableOf(s)(Apply(w, caller, call).value) + ClaimsBy(s)(w, caller, call)
        == ClaimableOf(s)(w) + FinalizationsFor(s)(w, caller, call)
    {
      if SettlementEvents(w, caller, call) == [] {
        OtherCallsLeaveSettlement(w, caller, call);
      }
    }
  }

  /**
   Over every run: a supplier's claimable balance is what finalize calls credited to it less what
   its own claims took, and every total of the history is the sum over the calls it is about.
   */
  lemma SettlementIsItsCalls(w: World, steps: seq<Step>, tally: Settlement.Tally, s: Address)
    ensures var e := Run(w, steps).settlement;
      && Get(e.claimableBalances, s) + OverCalls(w, steps, ClaimsBy(s))
         == Get(w.settlement.claimableBalances, s) + OverCalls(w, steps, FinalizationsFor(s))
      && Get(Settlement.Total(tally, e.log), s)
         == Get(Settlement.Total(tally, w.settlement.log), s) + OverCalls(w, steps, StatementTallyOf(tally, s))
  {
    ClaimableBooks(s);
    StatementTallyBooks(tally, s);
    NothingOverCalls(w, steps);
    RunBooks(ClaimableOf(s), FinalizationsFor(s), ClaimsBy(s), w, steps);
    RunBooks(SettlementTotal(tally, s), StatementTallyOf(tally, s), Nothing(), w, steps);
  }

  // ---------------------------------------------------------------- the distributor

  /** A gateway's share of the payments made through it, at the rate of the time. */
  function GatewayShare(w: World, call: Call, g: Address): nat {
    if call.Distribute? && call.gateway == g && g != NO_ADDRESS then call.total * w.distributor.gatewayFeeBps / 10_000
    else 0
  }

  /** The protocol's share of every payment, and the gateway's where there is no gateway. */
  function ProtocolShare(w: World, call: Call): nat {
    if call.Distribute? then
      call.total * w.distributor.protocolFeeBps / 10_000
      + if call.gateway == NO_ADDRESS then call.total * w.distributor.gatewayFeeBps / 10_000 else 0
    else 0
  }

  function ClaimedShare(w: World, caller: Address, call: Call, g: Address): nat {
    if call.ClaimGatewayFees? && caller == g then Get(w.distributor.gatewayFees, g) else 0
  }

  function ClaimedByProtocol(w: World, call: Call): nat {
    if call.ClaimProtocolFees? then w.distributor.protocolFees else 0
  }

  function SharesOf(g: Address): Amount {
    (w: World, caller: Address, call: Call) => GatewayShare(w, call, g)
  }

  function ShareClaimsBy(g: Address): Amount {
    (w: World, caller: Address, call: Call) => ClaimedShare(w, caller, call, g)
  }

  function ProtocolShares(): Amount {
    (w: World, caller: Address, call: Call) => ProtocolShare(w, call)
  }

  function ProtocolClaims(): Amount {
    (w: World, caller: Address, call: Call) => ClaimedByProtocol(w, call)
  }

  function GatewayFeesOf(g: Address): World -> nat {
    (w: World) => Get(w.distributor.gatewayFees, g)
  }

  function ProtocolFees(): World -> nat {
    (w: World) => w.distributor.protocolFees
  }

  lemma PaymentBooks(w: World, caller: Address, call: Call, g: Address)
    requires Apply(w, caller, call).Ok?
    ensures GatewayFeesOf(g)(Apply(w, caller, call).value) + ShareClaimsBy(g)(w, caller, call)
      == GatewayFeesOf(g)(w) + SharesOf(g)(w, caller, call)
    ensures ProtocolFees()(Apply(w, caller, call).value) + ProtocolClaims()(w, caller, call)
      == ProtocolFees()(w) + ProtocolShares()(w, caller, call)
  {
    if call.Distribute? {
      w.distributor.DistributeBooks(w.token, caller, call.supplier, call.total, call.gateway);
    } else if !call.ClaimProtocolFees? && !call.ClaimGatewayFees? {
      OtherCallsLeaveFees(w, caller, call);
    }
  }

  lemma OtherCallsLeaveFees(w: World, caller: Address, call: Call)
    requires Apply(w, caller, call).Ok?
    requires !call.Distribute? && !call.ClaimProtocolFees? && !call.ClaimGatewayFees?
    ensures var (d, d') := (w.distributor, Apply(w, caller, call).value.distributor);
      d'.protocolFees == d.protocolFees && d'.gatewayFees == d.gatewayFees
  {
    match call
    case FinalizeStatement(_) =>
    case _ =>
  }

  /** Over every run: fees held are the shares of the payments made, at the rates of the time, less what was claimed. */
  lemma FeesAreTheirCalls(w: World, steps: seq<Step>, g: Address)
    ensures var d := Run(w, steps).distributor;
      && Get(d.gatewayFees, g) + OverCalls(w, steps, ShareClaimsBy(g))
         == Get(w.distributor.gatewayFees, g) + OverCalls(w, steps, SharesOf(g))
      && d.protocolFees + OverCalls(w, steps, ProtocolClaims())
         == w.distributor.protocolFees + OverCalls(w, steps, ProtocolShares())
  {
    forall w: World, caller: Address, call: Call | Apply(w, caller, call).Ok?
      ensures GatewayFeesOf(g)(Apply(w, caller, call).value) + ShareClaimsBy(g)(w, caller, call)
        == GatewayFeesOf(g)(w) + SharesOf(g)(w, caller, call)
      ensures ProtocolFees()(Apply(w, caller, call).value) + ProtocolClaims()(w, caller, call)
        == ProtocolFees()(w) + ProtocolShares()(w, caller, call)
    {
      PaymentBooks(w, caller, call, g);
    }
    RunBooks(GatewayFeesOf(g), SharesOf(g), ShareClaimsBy(g), w, steps);
    RunBooks(ProtocolFees(), ProtocolShares(), ProtocolClaims(), w, steps);
  }
}
