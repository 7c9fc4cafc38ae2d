/**
 The three contracts over one token, under every sequence of calls by outside accounts.

 A step is one call at a later time.  A call that reverts changes nothing.  The contracts
 themselves only ever call the token, so no step is a call made by one of them; the owners'
 emergency withdrawal is left out.
 */
module Chain {
  import opened MapSums
  import opened Token
  import opened Wrappers
  import Escrow
  import Settlement
  import Distributor

  datatype World = World(
    token: Token, escrow: Escrow.Escrow, settlement: Settlement.Settlement, distributor: Distributor.Distributor,
    now: uint256)

  datatype Call =
    | TokenTransfer(to: Address, amount: uint256)
    | TokenTransferFrom(from: Address, to: Address, amount: uint256)
    | TokenApprove(spender: Address, amount: uint256)
    | Deposit(amount: uint256)
    | RecordVerification(brand: Address, supplier: Address, amount: uint256, receipt: Escrow.Receipt)
    | TransferToSettlement(supplier: Address, amount: uint256)
    | Withdraw(amount: uint256)
    | SetSettlementContract(settlement: Address)
    | PauseEscrow(paused: bool)
    | SubmitStatement(id: Settlement.StatementId, supplier: Address, amount: uint256, hash: nat)
    | FinalizeStatement(id: Settlement.StatementId)
    | DisputeStatement(id: Settlement.StatementId)
    | ClaimPayment
    | SetDisputeWindow(window: uint256)
    | PauseSettlement(paused: bool)
    | Distribute(supplier: Address, total: uint256, gateway: Address)
    | SetFees(protocol: uint256, gatewayFee: uint256)
    | SetProtocolTreasury(treasury: Address)
    | ClaimProtocolFees
    | ClaimGatewayFees
    | PauseDistributor(paused: bool)

  datatype Step = Step(caller: Address, elapsed: nat, call: Call)

  function Tick(w: World, elapsed: nat): World {
    if w.now + elapsed <= MAX_UINT256 then w.(now := w.now + elapsed) else w
  }

  function Lift<T>(r: Outcome<T>, f: T -> World): Outcome<World> {
    match r
    case Ok(x) => Ok(f(x))
    case Err(e) => Err(e)
  }

  function Apply(w: World, caller: Address, call: Call): Outcome<World> {
    match call
    case TokenTransfer(to, amount) => Lift(w.token.Transfer(caller, to, amount), t => w.(token := t))
    case TokenTransferFrom(from, to, amount) =>
      Lift(w.token.TransferFrom(caller, from, to, amount), t => w.(token := t))
    case TokenApprove(spender, amount) => Ok(w.(token := w.token.Approve(caller, spender, amount)))
    case Deposit(amount) =>
      Lift(w.escrow.Deposit(w.token, caller, amount), (p: (Escrow.Escrow, Token)) => w.(escrow := p.0, token := p.1))
    case RecordVerification(brand, supplier, amount, receipt) =>
      Lift(w.escrow.RecordVerification(caller, brand, supplier, amount, receipt), e => w.(escrow := e))
    case TransferToSettlement(supplier, amount) =>
      Lift(w.escrow.TransferToSettlement(w.token, caller, supplier, amount),
           (p: (Escrow.Escrow, Token)) => w.(escrow := p.0, token := p.1))
    case Withdraw(amount) =>
      Lift(w.escrow.Withdraw(w.token, caller, amount), (p: (Escrow.Escrow, Token)) => w.(escrow := p.0, token := p.1))
    case SetSettlementContract(settlement) =>
      Lift(w.escrow.SetSettlementContract(caller, settlement), e => w.(escrow := e))
    case PauseEscrow(paused) => Lift(w.escrow.SetPaused(caller, paused), e => w.(escrow := e))
    case SubmitStatement(id, supplier, amount, hash) =>
      Lift(w.settlement.SubmitStatement(w.now, caller, id, supplier, amount, hash), s => w.(settlement := s))
    case FinalizeStatement(id) => Lift(w.settlement.FinalizeStatement(w.now, id), s => w.(settlement := s))
    case DisputeStatement(id) => Lift(w.settlement.DisputeStatement(w.now, caller, id), s => w.(settlement := s))
    case ClaimPayment =>
      Lift(w.settlement.ClaimPayment(w.token, caller),
           (p: (Settlement.Settlement, Token)) => w.(settlement := p.0, token := p.1))
    case SetDisputeWindow(window) => Lift(w.settlement.SetDisputeWindow(caller, window), s => w.(settlement := s))
    case PauseSettlement(paused) => Lift(w.settlement.SetPaused(caller, paused), s => w.(settlement := s))
    case Distribute(supplier, total, gateway) =>
      Lift(w.distributor.Distribute(w.token, caller, supplier, total, gateway),
           (p: (Distributor.Distributor, Token)) => w.(distributor := p.0, token := p.1))
    case SetFees(protocol, gatewayFee) =>
      Lift(w.distributor.SetFees(caller, protocol, gatewayFee), d => w.(distributor := d))
    case SetProtocolTreasury(treasury) =>
      Lift(w.distributor.SetProtocolTreasury(caller, treasury), d => w.(distributor := d))
    case ClaimProtocolFees =>
      Lift(w.distributor.ClaimProtocolFees(w.token),
           (p: (Distributor.Distributor, Token)) => w.(distributor := p.0, token := p.1))
    case ClaimGatewayFees =>
      Lift(w.distributor.ClaimGatewayFees(w.token, caller),
           (p: (Distributor.Distributor, Token)) => w.(distributor := p.0, token := p.1))
    case PauseDistributor(paused) => Lift(w.distributor.SetPaused(caller, paused), d => w.(distributor := d))
  }

  function Next(w: World, step: Step): World {
    var later := Tick(w, step.elapsed);
    match Apply(later, step.caller, step.call)
    case Ok(w') => w'
    case Err(_) => later
  }

  function Run(w: World, steps: seq<Step>): World {
    if steps == [] then w else Next(Run(w, steps[..|steps| - 1]), steps[|steps| - 1])
  }

  /** A step moves the clock by the time that passed, and beyond that a call that reverts changes nothing. */
  lemma RevertedStep(w: World, step: Step)
    requires w.now + step.elapsed <= MAX_UINT256
    ensures Tick(w, step.elapsed) == World(w.token, w.escrow, w.settlement, w.distributor, w.now + step.elapsed)
    ensures Next(w, step).now == w.now + step.elapsed
    ensures Apply(Tick(w, step.elapsed), step.caller, step.call).Err? ==>
      Next(w, step) == World(w.token, w.escrow, w.settlement, w.distributor, w.now + step.elapsed)
  {
  }

  /** Each switch of a contract is turned by that contract's owner, and turns nothing else. */
  lemma SwitchCalls(w: World, caller: Address, paused: bool)
    ensures Apply(w, caller, PauseEscrow(paused)).Ok? <==> caller == w.escrow.owner && paused != w.escrow.paused
    ensures Apply(w, caller, PauseEscrow(paused)).Ok? ==>
      Apply(w, caller, PauseEscrow(paused)).value == w.(escrow := w.escrow.(paused := paused))
    ensures Apply(w, caller, PauseSettlement(paused)).Ok? <==>
      caller == w.settlement.owner && paused != w.settlement.paused
    ensures Apply(w, caller, PauseSettlement(paused)).Ok? ==>
      Apply(w, caller, PauseSettlement(paused)).value == w.(settlement := w.settlement.(paused := paused))
    ensures Apply(w, caller, PauseDistributor(paused)).Ok? <==>
      caller == w.distributor.owner && paused != w.distributor.paused
    ensures Apply(w, caller, PauseDistributor(paused)).Ok? ==>
      Apply(w, caller, PauseDistributor(paused)).value == w.(distributor := w.distributor.(paused := paused))
  {
  }

  /** So is each setting. */
  lemma SettingCalls(w: World, caller: Address, a: Address, x: uint256, y: uint256)
    ensures Apply(w, caller, SetSettlementContract(a)).Ok? <==> caller == w.escrow.owner && a != NO_ADDRESS
    ensures Apply(w, caller, SetSettlementContract(a)).Ok? ==>
      Apply(w, caller, SetSettlementContract(a)).value == w.(escrow := w.escrow.(settlement := a))
    ensures Apply(w, caller, SetDisputeWindow(x)).Ok? <==> caller == w.settlement.owner && 0 < x <= 604_800
    ensures Apply(w, caller, SetDisputeWindow(x)).Ok? ==>
      Apply(w, caller, SetDisputeWindow(x)).value == w.(settlement := w.settlement.(disputeWindow := x))
    ensures Apply(w, caller, SetFees(x, y)).Ok? <==> caller == w.distributor.owner && x + y <= 1000
    ensures Apply(w, caller, SetFees(x, y)).Ok? ==>
      Apply(w, caller, SetFees(x, y)).value
        == w.(distributor := w.distributor.(protocolFeeBps := x, gatewayFeeBps := y))
    ensures Apply(w, caller, SetProtocolTreasury(a)).Ok? <==> caller == w.distributor.owner && a != NO_ADDRESS
    ensures Apply(w, caller, SetProtocolTreasury(a)).Ok? ==>
      Apply(w, caller, SetProtocolTreasury(a)).value == w.(distributor := w.distributor.(treasury := a))
  {
  }

  /** A transfer is its caller's, or within an allowance to its caller; an approval is of the caller's tokens. */
  lemma TokenCalls(w: World, caller: Address, from: Address, to: Address, amount: uint256)
    requires w.token.Valid()
    ensures Apply(w, caller, TokenTransfer(to, amount)).Ok? <==>
      to != NO_ADDRESS && amount <= w.token.BalanceOf(caller)
    ensures Apply(w, caller, TokenTransfer(to, amount)).Ok? && to != caller ==>
      var t := Apply(w, caller, TokenTransfer(to, amount)).value.token;
      t.BalanceOf(caller) == w.token.BalanceOf(caller) - amount && t.BalanceOf(to) == w.token.BalanceOf(to) + amount
    ensures Apply(w, caller, TokenTransferFrom(from, to, amount)).Ok? <==>
      amount <= w.token.Allowance(from, caller) && to != NO_ADDRESS && amount <= w.token.BalanceOf(from)
    ensures Apply(w, caller, TokenTransferFrom(from, to, amount)).Ok? ==>
      var t := Apply(w, caller, TokenTransferFrom(from, to, amount)).value.token;
      && t.Allowance(from, caller) == w.token.Allowance(from, caller) - amount
      && (from != to ==>
            && t.BalanceOf(from) == w.token.BalanceOf(from) - amount
            && t.BalanceOf(to) == w.token.BalanceOf(to) + amount)
    ensures var t := Apply(w, caller, TokenApprove(to, amount)).value.token;
      forall h, s :: t.Allowance(h, s) == if h == caller && s == to then amount else w.token.Allowance(h, s)
  {
    w.token.MoveEffect(caller, to, amount);
    w.token.TransferFromEffect(caller, from, to, amount);
    w.token.ApproveEffect(caller, to, amount);
  }

  // ---------------------------------------------------------------- what every reachable state keeps

  ghost predicate IsContract(w: World, a: Address) {
    a == w.escrow.self || a == w.settlement.self || a == w.distributor.self
  }

  ghost predicate SeparateAddresses(w: World) {
    && w.escrow.self != w.settlement.self && w.escrow.self != w.distributor.self
    && w.settlement.self != w.distributor.self
    && !IsContract(w, NO_ADDRESS)
  }

  /** No contract has ever approved a spender. */
  ghost predicate NoApprovals(w: World) {
    forall a, spender :: IsContract(w, a) ==> w.token.Allowance(a, spender) == 0
  }

  ghost predicate Safe(w: World) {
    && SeparateAddresses(w) && NoApprovals(w) && w.token.Valid()
    && w.escrow.Balanced() && w.escrow.Solvent(w.token)
    && w.settlement.Balanced(w.now)
    && w.distributor.RatesCapped() && w.distributor.Solvent(w.token)
  }

  /** The state the three constructors leave, over a token nobody else has special rights to. */
  function Deployed(token: Token, escrow: Address, settlement: Address, distributor: Address, owner: Address,
                    treasury: Address, now: uint256): World
  {
    World(
      token,
      Escrow.Escrow(escrow, owner, false, NO_ADDRESS, map[], map[], map[], {}, []),
      Settlement.Settlement(settlement, owner, false, Settlement.DEFAULT_DISPUTE_WINDOW, map[], map[], []),
      Distributor.Distributor(distributor, owner, false, treasury, Distributor.DEFAULT_PROTOCOL_FEE_BPS,
                              Distributor.DEFAULT_GATEWAY_FEE_BPS, 0, map[]),
      now)
  }

  /** What the constructors set: one owner, nothing paused, a window of a day, and fees of two and a half per cent. */
  lemma DeployedState(token: Token, escrow: Address, settlement: Address, distributor: Address, owner: Address,
                      treasury: Address, now: uint256)
    ensures var w := Deployed(token, escrow, settlement, distributor, owner, treasury, now);
      && w.token == token && w.now == now
      && w.escrow == Escrow.Escrow(escrow, owner, false, NO_ADDRESS, map[], map[], map[], {}, [])
      && w.settlement == Settlement.Settlement(settlement, owner, false, 86_400, map[], map[], [])
      && w.distributor == Distributor.Distributor(distributor, owner, false, treasury, 200, 50, 0, map[])
  {
  }

  lemma DeployedIsSafe(token: Token, escrow: Address, settlement: Address, distributor: Address, owner: Address,
                       treasury: Address, now: uint256)
    requires var w := Deployed(token, escrow, settlement, distributor, owner, treasury, now);
      SeparateAddresses(w) && NoApprovals(w) && token.Valid() && treasury != NO_ADDRESS
    ensures Safe(Deployed(token, escrow, settlement, distributor, owner, treasury, now))
  {
    var w := Deployed(token, escrow, settlement, distributor, owner, treasury, now);
    forall s
      ensures w.settlement.SupplierLine(s) && Escrow.SupplierLine(map[], map[], [], s)
    {
      assert w.settlement.FinalizedFor(s) == map[] && w.settlement.SubmittedFor(s) == map[];
      assert Escrow.ForSupplier(map[], s) == map[];
    }
  }

  /** The token moves by one payer: nobody else has less, and no allowance of a contract has grown. */
  ghost predicate PaidBy(w: World, t': Token, payer: Address) {
    && t'.Valid()
    && (forall a :: a != payer ==> t'.BalanceOf(a) >= w.token.BalanceOf(a))
    && (forall a, spender :: IsContract(w, a) ==> t'.Allowance(a, spender) <= w.token.Allowance(a, spender))
  }

  lemma PaymentKeepsOthers(w: World, t': Token, payer: Address)
    requires Safe(w) && PaidBy(w, t', payer)
    ensures NoApprovals(w.(token := t'))
    ensures w.escrow.self != payer ==> w.escrow.Solvent(t')
    ensures w.distributor.self != payer ==> w.distributor.Solvent(t')
  {
    forall a, spender | IsContract(w, a)
      ensures t'.Allowance(a, spender) == 0
    {
      assert w.token.Allowance(a, spender) == 0;
    }
  }

  lemma MoveIsPaidBy(w: World, from: Address, to: Address, amount: uint256)
    requires Safe(w) && w.token.Move(from, to, amount).Ok?
    ensures PaidBy(w, w.token.Move(from, to, amount).value, from)
  {
    w.token.MoveEffect(from, to, amount);
  }

  /** An outside account can spend only its own tokens or those of an outside account. */
  lemma TransferFromIsPaidBy(w: World, caller: Address, from: Address, to: Address, amount: uint256)
    requires Safe(w) && w.token.TransferFrom(caller, from, to, amount).Ok?
    ensures PaidBy(w, w.token.TransferFrom(caller, from, to, amount).value, from)
    ensures IsContract(w, from) ==> amount == 0
  {
    w.token.TransferFromEffect(caller, from, to, amount);
    if IsContract(w, from) {
      assert w.token.Allowance(from, caller) == 0;
    }
  }

  lemma TokenCallIsSafe(w: World, caller: Address, call: Call)
    requires Safe(w) && !IsContract(w, caller)
    requires call.TokenTransfer? || call.TokenTransferFrom? || call.TokenApprove?
    requires Apply(w, caller, call).Ok?
    ensures Safe(Apply(w, caller, call).value)
  {
    var t' := Apply(w, caller, call).value.token;
    match call
    case TokenTransfer(to, amount) =>
      MoveIsPaidBy(w, caller, to, amount);
      PaymentKeepsOthers(w, t', caller);
    case TokenTransferFrom(from, to, amount) =>
      TransferFromIsPaidBy(w, caller, from, to, amount);
      w.token.TransferFromEffect(caller, from, to, amount);
      PaymentKeepsOthers(w, t', if IsContract(w, from) then caller else from);
    case TokenApprove(spender, amount) =>
      PaymentKeepsOthers(w, t', caller);
  }

  lemma EscrowCallIsSafe(w: World, caller: Address, call: Call)
    requires Safe(w) && !IsContract(w, caller)
    requires call.Deposit? || call.TransferToSettlement? || call.Withdraw?
    requires Apply(w, caller, call).Ok?
    ensures Safe(Apply(w, caller, call).value)
  {
    var t' := Apply(w, caller, call).value.token;
    match call
    case Deposit(amount) =>
      w.escrow.DepositKeepsSolvency(w.token, caller, amount);
      w.escrow.DepositKeepsBalance(w.token, caller, amount);
      TransferFromIsPaidBy(w, w.escrow.self, caller, w.escrow.self, amount);
      PaymentKeepsOthers(w, t', caller);
    case TransferToSettlement(supplier, amount) =>
      w.escrow.TransferKeepsSolvency(w.token, caller, supplier, amount);
      w.escrow.TransferKeepsBalance(w.token, caller, supplier, amount);
      MoveIsPaidBy(w, w.escrow.self, w.escrow.settlement, amount);
      PaymentKeepsOthers(w, t', w.escrow.self);
    case Withdraw(amount) =>
      w.escrow.WithdrawKeepsSolvency(w.token, caller, amount);
      w.escrow.WithdrawKeepsBalance(w.token, caller, amount);
      MoveIsPaidBy(w, w.escrow.self, caller, amount);
      PaymentKeepsOthers(w, t', w.escrow.self);
  }

  lemma RecordIsSafe(w: World, caller: Address, call: Call)
    requires Safe(w)
    requires call.RecordVerification? || call.SetSettlementContract? || call.PauseEscrow?
    requires Apply(w, caller, call).Ok?
    ensures Safe(Apply(w, caller, call).value)
  {
    if call.RecordVerification? {
      w.escrow.RecordKeepsSolvency(w.token, caller, call.brand, call.supplier, call.amount, call.receipt);
      w.escrow.RecordKeepsBalance(caller, call.brand, call.supplier, call.amount, call.receipt);
    }
  }

  lemma StatementCallIsSafe(w: World, caller: Address, call: Call)
    requires Safe(w)
    requires call.SubmitStatement? || call.FinalizeStatement? || call.DisputeStatement? || call.ClaimPayment?
    requires Apply(w, caller, call).Ok?
    ensures Safe(Apply(w, caller, call).value)
  {
    match call
    case SubmitStatement(id, supplier, amount, hash) =>
      w.settlement.SubmitKeepsLedger(w.now, caller, id, supplier, amount, hash);
    case FinalizeStatement(id) =>
      w.settlement.FinalizeKeepsLedger(w.now, id);
    case DisputeStatement(id) =>
      w.settlement.DisputeKeepsLedger(w.now, caller, id);
    case ClaimPayment =>
      w.settlement.ClaimKeepsLedger(w.now, w.token, caller);
      var t' := Apply(w, caller, call).value.token;
      MoveIsPaidBy(w, w.settlement.self, caller, Get(w.settlement.claimableBalances, caller));
      PaymentKeepsOthers(w, t', w.settlement.self);
  }

  lemma SettlementAdminIsSafe(w: World, caller: Address, call: Call)
    requires Safe(w) && (call.SetDisputeWindow? || call.PauseSettlement?)
    requires Apply(w, caller, call).Ok?
    ensures Safe(Apply(w, caller, call).value)
  {
    w.settlement.AdminKeepsLedger(w.now, Apply(w, caller, call).value.settlement, w.now);
  }

  lemma DistributeIsSafe(w: World, caller: Address, supplier: Address, total: uint256, gateway: Address)
    requires Safe(w) && !IsContract(w, caller)
    requires w.distributor.Distribute(w.token, caller, supplier, total, gateway).Ok?
    ensures Safe(Apply(w, caller, Distribute(supplier, total, gateway)).value)
  {
    w.distributor.DistributeKeepsSolvency(w.token, caller, supplier, total, gateway);
    w.distributor.DistributeIsPaidByCaller(w.token, caller, supplier, total, gateway);
    PaymentKeepsOthers(w, w.distributor.Distribute(w.token, caller, supplier, total, gateway).value.1, caller);
  }

  lemma FeeCallIsSafe(w: World, caller: Address, call: Call)
    requires Safe(w)
    requires call.ClaimProtocolFees? || call.ClaimGatewayFees?
    requires Apply(w, caller, call).Ok?
    ensures Safe(Apply(w, caller, call).value)
  {
    var d := w.distributor;
    var t' := Apply(w, caller, call).value.token;
    d.ClaimsKeepSolvency(w.token, caller);
    if call.ClaimProtocolFees? {
      MoveIsPaidBy(w, d.self, d.treasury, d.protocolFees);
    } else {
      MoveIsPaidBy(w, d.self, caller, Get(d.gatewayFees, caller));
    }
    PaymentKeepsOthers(w, t', d.self);
  }

  lemma TimeIsSafe(w: World, elapsed: nat)
    requires Safe(w)
    ensures Safe(Tick(w, elapsed))
  {
    w.settlement.AdminKeepsLedger(w.now, w.settlement, Tick(w, elapsed).now);
  }

  lemma CallIsSafe(w: World, caller: Address, call: Call)
    requires Safe(w) && !IsContract(w, caller) && Apply(w, caller, call).Ok?
    ensures Safe(Apply(w, caller, call).value)
  {
    match call
    case TokenTransfer(_, _) => TokenCallIsSafe(w, caller, call);
    case TokenTransferFrom(_, _, _) => TokenCallIsSafe(w, caller, call);
    case TokenApprove(_, _) => TokenCallIsSafe(w, caller, call);
    case Deposit(_) => EscrowCallIsSafe(w, caller, call);
    case TransferToSettlement(_, _) => EscrowCallIsSafe(w, caller, call);
    case Withdraw(_) => EscrowCallIsSafe(w, caller, call);
    case RecordVerification(_, _, _, _) => RecordIsSafe(w, caller, call);
    case SetSettlementContract(_) => RecordIsSafe(w, caller, call);
    case PauseEscrow(_) => RecordIsSafe(w, caller, call);
    case SubmitStatement(_, _, _, _) => StatementCallIsSafe(w, caller, call);
    case FinalizeStatement(_) => StatementCallIsSafe(w, caller, call);
    case DisputeStatement(_) => StatementCallIsSafe(w, caller, call);
    case ClaimPayment => StatementCallIsSafe(w, caller, call);
    case SetDisputeWindow(_) => SettlementAdminIsSafe(w, caller, call);
    case PauseSettlement(_) => SettlementAdminIsSafe(w, caller, call);
    case Distribute(supplier, total, gateway) => DistributeIsSafe(w, caller, supplier, total, gateway);
    case ClaimProtocolFees => FeeCallIsSafe(w, caller, call);
    case ClaimGatewayFees => FeeCallIsSafe(w, caller, call);
    case SetFees(_, _) =>
    case SetProtocolTreasury(_) =>
    case PauseDistributor(_) =>
  }

  ghost predicate OutsideCallers(w: World, steps: seq<Step>) {
    forall i :: 0 <= i < |steps| ==> !IsContract(w, steps[i].caller)
  }

  ghost predicate SameAddresses(w: World, w': World) {
    w'.escrow.self == w.escrow.self && w'.settlement.self == w.settlement.self
      && w'.distributor.self == w.distributor.self
  }

  lemma ApplyKeepsAddresses(w: World, caller: Address, call: Call)
    requires Apply(w, caller, call).Ok?
    ensures SameAddresses(w, Apply(w, caller, call).value)
  {
    match call
    case Deposit(_) =>
    case TransferToSettlement(_, _) =>
    case FinalizeStatement(_) =>
    case Distribute(_, _, _) =>
    case _ =>
  }

  lemma NextIsSafe(w: World, step: Step)
    requires Safe(w) && !IsContract(w, step.caller)
    ensures Safe(Next(w, step)) && SameAddresses(w, Next(w, step))
  {
    TimeIsSafe(w, step.elapsed);
    var later := Tick(w, step.elapsed);
    if Apply(later, step.caller, step.call).Ok? {
      CallIsSafe(later, step.caller, step.call);
      ApplyKeepsAddresses(later, step.caller, step.call);
    }
  }

  /** All three ledgers hold in every state any sequence of outside calls can reach. */
  lemma {:induction false} EveryRunIsSafe(w: World, steps: seq<Step>)
    requires Safe(w) && OutsideCallers(w, steps)
    ensures Safe(Run(w, steps)) && SameAddresses(w, Run(w, steps))
  {
    if steps != [] {
      var n := |steps| - 1;
      EveryRunIsSafe(w, steps[..n]);
      assert !IsContract(w, steps[n].caller);
      NextIsSafe(Run(w, steps[..n]), steps[n]);
    }
  }

  // ---------------------------------------------------------------- tokens are conserved

  lemma CallKeepsSupply(w: World, caller: Address, call: Call)
    requires w.token.Valid() && Apply(w, caller, call).Ok?
    ensures var t' := Apply(w, caller, call).value.token; t'.Valid() && Sum(t'.balances) == Sum(w.token.balances)
  {
    var (t, d) := (w.token, w.distributor);
    match call
    case TokenTransfer(to, amount) => t.MoveEffect(caller, to, amount);
    case TokenTransferFrom(from, to, amount) => t.TransferFromEffect(caller, from, to, amount);
    case ClaimPayment => t.MoveEffect(w.settlement.self, caller, Get(w.settlement.claimableBalances, caller));
    case Distribute(supplier, total, gateway) => d.DistributeKeepsSupply(t, caller, supplier, total, gateway);
    case ClaimProtocolFees => t.MoveEffect(d.self, d.treasury, d.protocolFees);
    case ClaimGatewayFees => t.MoveEffect(d.self, caller, Get(d.gatewayFees, caller));
    case _ => EscrowKeepsSupply(w, caller, call);
  }

  lemma EscrowKeepsSupply(w: World, caller: Address, call: Call)
    requires w.token.Valid() && Apply(w, caller, call).Ok?
    requires !call.TokenTransfer? && !call.TokenTransferFrom? && !call.ClaimPayment? && !call.Distribute?
    requires !call.ClaimProtocolFees? && !call.ClaimGatewayFees?
    ensures var t' := Apply(w, caller, call).value.token; t'.Valid() && Sum(t'.balances) == Sum(w.token.balances)
  {
    var (t, e) := (w.token, w.escrow);
    match call
    case Deposit(amount) => t.TransferFromEffect(e.self, caller, e.self, amount);
    case TransferToSettlement(_, amount) => t.MoveEffect(e.self, e.settlement, amount);
    case Withdraw(amount) => t.MoveEffect(e.self, caller, amount);
    case _ =>
  }

  /** Over every run of calls by anybody, tokens only change hands. */
  lemma {:induction false} EveryRunKeepsSupply(w: World, steps: seq<Step>)
    requires w.token.Valid()
    ensures Run(w, steps).token.Valid() && Sum(Run(w, steps).token.balances) == Sum(w.token.balances)
  {
    if steps != [] {
      var n := |steps| - 1;
      EveryRunKeepsSupply(w, steps[..n]);
      var later := Tick(Run(w, steps[..n]), steps[n].elapsed);
      if Apply(later, steps[n].caller, steps[n].call).Ok? {
        CallKeepsSupply(later, steps[n].caller, steps[n].call);
      }
    }
  }

  // ---------------------------------------------------------------- the life of a statement over a run

  lemma CallEvolvesStatements(w: World, caller: Address, call: Call)
    requires w.settlement.Balanced(w.now) && Apply(w, caller, call).Ok?
    ensures w.settlement.EvolvesTo(Apply(w, caller, call).value.settlement)
    ensures !call.SubmitStatement? ==>
      Apply(w, caller, call).value.settlement.statements.Keys == w.settlement.statements.Keys
  {
    if call.SubmitStatement? {
      assert w.settlement.StatementLine(w.now, call.id);
    }
  }

  lemma NextEvolvesStatements(w: World, step: Step)
    requires Safe(w)
    ensures w.settlement.EvolvesTo(Next(w, step).settlement)
    ensures !step.call.SubmitStatement? || Apply(Tick(w, step.elapsed), step.caller, step.call).Err? ==>
      Next(w, step).settlement.statements.Keys == w.settlement.statements.Keys
  {
    var later := Tick(w, step.elapsed);
    TimeIsSafe(w, step.elapsed);
    if Apply(later, step.caller, step.call).Ok? {
      CallEvolvesStatements(later, step.caller, step.call);
    }
  }

  /**
   Over every run a statement keeps its hash, supplier, amount and submission time, and moves
   at most once, from submitted to disputed or finalized.
   */
  lemma {:induction false} EveryRunEvolvesStatements(w: World, steps: seq<Step>)
    requires Safe(w) && OutsideCallers(w, steps)
    ensures w.settlement.EvolvesTo(Run(w, steps).settlement)
  {
    if steps != [] {
      var n := |steps| - 1;
      var mid := Run(w, steps[..n]);
      EveryRunEvolvesStatements(w, steps[..n]);
      EveryRunIsSafe(w, steps[..n]);
      NextEvolvesStatements(mid, steps[n]);
      EvolvesTransitive(w.settlement, mid.settlement, Run(w, steps).settlement);
    }
  }

  lemma EvolvesTransitive(a: Settlement.Settlement, b: Settlement.Settlement, c: Settlement.Settlement)
    requires a.EvolvesTo(b) && b.EvolvesTo(c)
    ensures a.EvolvesTo(c)
  {
    forall id | id in a.statements
      ensures id in c.statements
      ensures var (st, st') := (a.statements[id], c.statements[id]);
        && st'.hash == st.hash && st'.supplier == st.supplier
        && st'.totalAmount == st.totalAmount && st'.submittedAt == st.submittedAt
        && (st' == st || (st.status == Settlement.Submitted
          && (st'.status == Settlement.Disputed || st'.status == Settlement.Finalized)))
    {
      assert id in b.statements;
    }
  }
}
