/**
 VerificationEscrow.sol: brands deposit, the owner records verifications, fees move on to the
 settlement contract, unused deposits are withdrawn.

 Each call is a function from the contract's and the token's state to their new states or a
 revert; the class at the end makes the same changes in place.  The events a contract has
 emitted are part of its state and serve as its history.
 */
module Escrow {
  import opened MapSums
  import opened Token
  import opened Wrappers

  type Receipt = nat

  datatype Event =
    | Deposited(brand: Address, amount: uint256)
    | VerificationRecorded(brand: Address, supplier: Address, amount: uint256, receipt: Receipt)
    | TransferredToSettlement(supplier: Address, amount: uint256)
    | Withdrawn(brand: Address, amount: uint256)

  // ---------------------------------------------------------------- totals over the history

  datatype Tally = Deposits | Withdrawals | BrandFees | SupplierFees | Transfers

  function Entry(tally: Tally, e: Event): Option<(Address, nat)> {
    match (tally, e)
    case (Deposits, Deposited(b, a)) => Some((b, a))
    case (Withdrawals, Withdrawn(b, a)) => Some((b, a))
    case (BrandFees, VerificationRecorded(b, _, a, _)) => Some((b, a))
    case (SupplierFees, VerificationRecorded(_, s, a, _)) => Some((s, a))
    case (Transfers, TransferredToSettlement(s, a)) => Some((s, a))
    case _ => None
  }

  /** For each address, the sum of the amounts the history holds for it. */
  function Total(tally: Tally, log: seq<Event>): map<Address, nat> {
    if log == [] then map[]
    else
      var before := Total(tally, log[..|log| - 1]);
      match Entry(tally, log[|log| - 1])
      case Some((k, a)) => Credit(before, k, a)
      case None => before
  }

  /** The amount recorded for each receipt, and how many records there are. */
  function ReceiptAmounts(log: seq<Event>): map<Receipt, nat> {
    if log == [] then map[]
    else
      var before := ReceiptAmounts(log[..|log| - 1]);
      match log[|log| - 1]
      case VerificationRecorded(_, _, a, r) => before[r := a]
      case _ => before
  }

  function RecordCount(log: seq<Event>): nat {
    if log == [] then 0
    else RecordCount(log[..|log| - 1]) + if log[|log| - 1].VerificationRecorded? then 1 else 0
  }

  /** What one more event does to every total. */
  lemma TotalAppend(tally: Tally, log: seq<Event>, e: Event)
    ensures Total(tally, log + [e]) ==
      match Entry(tally, e)
      case Some((k, a)) => Credit(Total(tally, log), k, a)
      case None => Total(tally, log)
  {
    assert (log + [e])[..|log|] == log;
  }

  lemma ReceiptAppend(log: seq<Event>, e: Event)
    ensures ReceiptAmounts(log + [e]) ==
      if e.VerificationRecorded? then ReceiptAmounts(log)[e.receipt := e.amount] else ReceiptAmounts(log)
    ensures RecordCount(log + [e]) == RecordCount(log) + if e.VerificationRecorded? then 1 else 0
  {
    assert (log + [e])[..|log|] == log;
  }

  /** The part of a brand-and-supplier table that belongs to one supplier. */
  function ForSupplier(records: map<(Address, Address), nat>, supplier: Address): map<(Address, Address), nat> {
    map k | k in records && k.1 == supplier :: records[k]
  }

  lemma ForSupplierCredit(records: map<(Address, Address), nat>, brand: Address, supplier: Address, amount: nat,
                          s: Address)
    ensures Sum(ForSupplier(Credit(records, (brand, supplier), amount), s))
         == Sum(ForSupplier(records, s)) + if s == supplier then amount else 0
  {
    var k, v := (brand, supplier), Get(records, (brand, supplier)) + amount;
    if s == supplier {
      assert ForSupplier(records[k := v], s) == ForSupplier(records, s)[k := v];
      SumUpdate(ForSupplier(records, s), k, v);
    } else {
      assert ForSupplier(records[k := v], s) == ForSupplier(records, s);
    }
  }

  // ---------------------------------------------------------------- what the tables say of the history

  /** Per brand: balance = deposits - withdrawals - fees recorded. */
  ghost predicate BrandLine(balances: map<Address, nat>, log: seq<Event>, b: Address) {
    Get(balances, b) + Get(Total(Withdrawals, log), b) + Get(Total(BrandFees, log), b) == Get(Total(Deposits, log), b)
  }

  /** Per supplier: fees recorded = pending + transferred = the records of all brands together. */
  ghost predicate SupplierLine(pending: map<Address, nat>, records: map<(Address, Address), nat>, log: seq<Event>,
                               s: Address)
  {
    && Get(pending, s) + Get(Total(Transfers, log), s) == Get(Total(SupplierFees, log), s)
    && Sum(ForSupplier(records, s)) == Get(Total(SupplierFees, log), s)
  }

  /** Every receipt is recorded once, and the records hold exactly the receipts' amounts. */
  ghost predicate ReceiptLines(records: map<(Address, Address), nat>, receipts: set<Receipt>, log: seq<Event>) {
    && Sum(records) == Sum(ReceiptAmounts(log))
    && ReceiptAmounts(log).Keys == receipts
    && RecordCount(log) == |receipts|
  }

  function BrandDelta(e: Event, b: Address): int {
    match e
    case Deposited(b', a) => if b == b' then a else 0
    case Withdrawn(b', a) => if b == b' then -(a as int) else 0
    case VerificationRecorded(b', _, a, _) => if b == b' then -(a as int) else 0
    case _ => 0
  }

  lemma BrandLineAppend(balances: map<Address, nat>, balances': map<Address, nat>, log: seq<Event>, e: Event,
                        b: Address)
    requires BrandLine(balances, log, b)
    requires Get(balances', b) == Get(balances, b) + BrandDelta(e, b)
    ensures BrandLine(balances', log + [e], b)
  {
    TotalAppend(Deposits, log, e);
    TotalAppend(Withdrawals, log, e);
    TotalAppend(BrandFees, log, e);
  }

  function PendingDelta(e: Event, s: Address): int {
    match e
    case VerificationRecorded(_, s', a, _) => if s == s' then a else 0
    case TransferredToSettlement(s', a) => if s == s' then -(a as int) else 0
    case _ => 0
  }

  function RecordsAfter(records: map<(Address, Address), nat>, e: Event): map<(Address, Address), nat> {
    match e
    case VerificationRecorded(b, s, a, _) => Credit(records, (b, s), a)
    case _ => records
  }

  lemma SupplierLineAppend(pending: map<Address, nat>, pending': map<Address, nat>,
                           records: map<(Address, Address), nat>, log: seq<Event>, e: Event, s: Address)
    requires SupplierLine(pending, records, log, s)
    requires Get(pending', s) == Get(pending, s) + PendingDelta(e, s)
    ensures SupplierLine(pending', RecordsAfter(records, e), log + [e], s)
  {
    TotalAppend(SupplierFees, log, e);
    TotalAppend(Transfers, log, e);
    if e.VerificationRecorded? {
      ForSupplierCredit(records, e.brand, e.supplier, e.amount, s);
    }
  }

  lemma ReceiptLinesAppend(records: map<(Address, Address), nat>, receipts: set<Receipt>, log: seq<Event>, e: Event)
    requires ReceiptLines(records, receipts, log)
    requires e.VerificationRecorded? ==> e.receipt !in receipts
    ensures ReceiptLines(RecordsAfter(records, e), receipts + (if e.VerificationRecorded? then {e.receipt} else {}),
      log + [e])
  {
    ReceiptAppend(log, e);
    if e.VerificationRecorded? {
      var amounts := ReceiptAmounts(log);
      assert amounts[e.receipt := e.amount].Keys == receipts + {e.receipt};
      RecordedSum(records, amounts, e.brand, e.supplier, e.amount, e.receipt);
    } else {
      assert receipts + {} == receipts;
    }
  }

  lemma RecordedSum(records: map<(Address, Address), nat>, amounts: map<Receipt, nat>, b: Address, s: Address, a: nat,
                    r: Receipt)
    requires Sum(records) == Sum(amounts) && r !in amounts
    ensures Sum(Credit(records, (b, s), a)) == Sum(amounts[r := a])
  {
    SumUpdate(records, (b, s), Get(records, (b, s)) + a);
    SumUpdate(amounts, r, a);
  }

  // ---------------------------------------------------------------- the contract as functions

  datatype Escrow = Escrow(
    self: Address,
    owner: Address,
    paused: bool,
    settlement: Address,
    brandBalances: map<Address, uint256>,
    pendingRecords: map<(Address, Address), uint256>,
    supplierPendingTotals: map<Address, uint256>,
    recordedReceipts: set<Receipt>,
    log: seq<Event>)
  {
    function SetSettlementContract(caller: Address, settlement': Address): Outcome<Escrow> {
      if caller != owner then Err(NotOwner)
      else if settlement' == NO_ADDRESS then Err(InvalidAddress)
      else Ok(this.(settlement := settlement'))
    }

    function SetPaused(caller: Address, paused': bool): Outcome<Escrow> {
      if caller != owner then Err(NotOwner)
      else if paused == paused' then Err(if paused then EnforcedPause else ExpectedPause)
      else Ok(this.(paused := paused'))
    }

    function Deposit(t: Token, caller: Address, amount: uint256): Outcome<(Escrow, Token)> {
      if paused then Err(EnforcedPause)
      else if amount == 0 then Err(InvalidAmount)
      else
        match t.TransferFrom(self, caller, self, amount)
        case Err(e) => Err(e)
        case Ok(t') =>
          var balance := Get(brandBalances, caller) + amount;
          if balance > MAX_UINT256 then Err(ArithmeticOverflow)
          else Ok((this.(brandBalances := brandBalances[caller := balance], log := log + [Deposited(caller, amount)]),
            t'))
    }

    function RecordVerification(caller: Address, brand: Address, supplier: Address, amount: uint256, receipt: Receipt)
      : Outcome<Escrow>
    {
      if caller != owner then Err(NotOwner)
      else if paused then Err(EnforcedPause)
      else if brand == NO_ADDRESS || supplier == NO_ADDRESS then Err(InvalidAddress)
      else if amount == 0 then Err(InvalidAmount)
      else if receipt in recordedReceipts then Err(ReceiptAlreadyRecorded)
      else if Get(brandBalances, brand) < amount then Err(InsufficientBalance)
      else
        var record := Get(pendingRecords, (brand, supplier)) + amount;
        var pending := Get(supplierPendingTotals, supplier) + amount;
        if record > MAX_UINT256 || pending > MAX_UINT256 then Err(ArithmeticOverflow)
        else Ok(this.(
          recordedReceipts := recordedReceipts + {receipt},
          brandBalances := brandBalances[brand := Get(brandBalances, brand) - amount],
          pendingRecords := pendingRecords[(brand, supplier) := record],
          supplierPendingTotals := supplierPendingTotals[supplier := pending],
          log := log + [VerificationRecorded(brand, supplier, amount, receipt)]))
    }

    /** Only the supplier's total goes down; the per-brand records stay. */
    function TransferToSettlement(t: Token, caller: Address, supplier: Address, amount: uint256)
      : Outcome<(Escrow, Token)>
    {
      if paused then Err(EnforcedPause)
      else if settlement == NO_ADDRESS then Err(SettlementContractNotSet)
      else if caller != settlement && caller != owner then Err(NotSettlementContract)
      else if supplier == NO_ADDRESS then Err(InvalidAddress)
      else if amount == 0 then Err(InvalidAmount)
      else if Get(supplierPendingTotals, supplier) < amount then Err(InsufficientPendingAmount)
      else
        match t.Transfer(self, settlement, amount)
        case Err(e) => Err(e)
        case Ok(t') =>
          Ok((this.(
            supplierPendingTotals := supplierPendingTotals[supplier := Get(supplierPendingTotals, supplier) - amount],
            log := log + [TransferredToSettlement(supplier, amount)]), t'))
    }

    function Withdraw(t: Token, caller: Address, amount: uint256): Outcome<(Escrow, Token)> {
      if paused then Err(EnforcedPause)
      else if amount == 0 then Err(InvalidAmount)
      else if Get(brandBalances, caller) < amount then Err(InsufficientBalance)
      else
        match t.Transfer(self, caller, amount)
        case Err(e) => Err(e)
        case Ok(t') =>
          Ok((this.(
            brandBalances := brandBalances[caller := Get(brandBalances, caller) - amount],
            log := log + [Withdrawn(caller, amount)]), t'))
    }

    // -------------------------------------------------------------- what each call does, entry by entry

    /** A deposit is the caller's: its balance alone grows, and it alone pays. */
    lemma DepositEffect(t: Token, caller: Address, amount: uint256)
      requires t.Valid()
      ensures Deposit(t, caller, amount).Ok? <==>
        && !paused && amount > 0 && self != NO_ADDRESS
        && amount <= t.Allowance(caller, self) && amount <= t.BalanceOf(caller)
        && Get(brandBalances, caller) + amount <= MAX_UINT256
      ensures Deposit(t, caller, amount).Ok? ==>
        var (e, t') := Deposit(t, caller, amount).value;
        && e == this.(brandBalances := e.brandBalances, log := log + [Deposited(caller, amount)])
        && (forall b :: Get(e.brandBalances, b) == Get(brandBalances, b) + if b == caller then amount else 0)
        && (caller != self ==>
              && t'.BalanceOf(caller) == t.BalanceOf(caller) - amount
              && t'.BalanceOf(self) == t.BalanceOf(self) + amount)
      ensures paused ==> Deposit(t, caller, amount) == Err(EnforcedPause)
      ensures !paused && amount == 0 ==> Deposit(t, caller, amount) == Err(InvalidAmount)
    {
      t.TransferFromEffect(self, caller, self, amount);
    }

    /** The owner moves an amount from one brand's balance to one supplier's pending total, once per receipt. */
    lemma RecordEffect(caller: Address, brand: Address, supplier: Address, amount: uint256, receipt: Receipt)
      ensures RecordVerification(caller, brand, supplier, amount, receipt).Ok? <==>
        && caller == owner && !paused && brand != NO_ADDRESS && supplier != NO_ADDRESS && amount > 0
        && receipt !in recordedReceipts && amount <= Get(brandBalances, brand)
        && Get(pendingRecords, (brand, supplier)) + amount <= MAX_UINT256
        && Get(supplierPendingTotals, supplier) + amount <= MAX_UINT256
      ensures RecordVerification(caller, brand, supplier, amount, receipt).Ok? ==>
        var e := RecordVerification(caller, brand, supplier, amount, receipt).value;
        && (e.self, e.owner, e.paused, e.settlement) == (self, owner, paused, settlement)
        && e.log == log + [VerificationRecorded(brand, supplier, amount, receipt)]
        && e.recordedReceipts == recordedReceipts + {receipt}
        && (forall b :: Get(e.brandBalances, b) == Get(brandBalances, b) - if b == brand then amount else 0)
        && (forall s ::
              Get(e.supplierPendingTotals, s) == Get(supplierPendingTotals, s) + if s == supplier then amount else 0)
        && (forall b, s :: Get(e.pendingRecords, (b, s)) ==
              Get(pendingRecords, (b, s)) + if b == brand && s == supplier then amount else 0)
      ensures caller != owner ==> RecordVerification(caller, brand, supplier, amount, receipt) == Err(NotOwner)
      ensures caller == owner && paused ==>
        RecordVerification(caller, brand, supplier, amount, receipt) == Err(EnforcedPause)
    {
    }

    /** What is pending for the supplier goes, as tokens, to the settlement address. */
    lemma TransferEffect(t: Token, caller: Address, supplier: Address, amount: uint256)
      requires t.Valid()
      ensures TransferToSettlement(t, caller, supplier, amount).Ok? <==>
        && !paused && settlement != NO_ADDRESS && (caller == settlement || caller == owner)
        && supplier != NO_ADDRESS && 0 < amount <= Get(supplierPendingTotals, supplier) && amount <= t.BalanceOf(self)
      ensures TransferToSettlement(t, caller, supplier, amount).Ok? ==>
        var (e, t') := TransferToSettlement(t, caller, supplier, amount).value;
        && e == this.(supplierPendingTotals := e.supplierPendingTotals,
                      log := log + [TransferredToSettlement(supplier, amount)])
        && (forall s ::
              Get(e.supplierPendingTotals, s) == Get(supplierPendingTotals, s) - if s == supplier then amount else 0)
        && (settlement != self ==>
              && t'.BalanceOf(self) == t.BalanceOf(self) - amount
              && t'.BalanceOf(settlement) == t.BalanceOf(settlement) + amount)
    {
      t.MoveEffect(self, settlement, amount);
    }

    /** A withdrawal pays its caller out of the caller's own balance. */
    lemma WithdrawEffect(t: Token, caller: Address, amount: uint256)
      requires t.Valid()
      ensures Withdraw(t, caller, amount).Ok? <==>
        && !paused && caller != NO_ADDRESS && 0 < amount <= Get(brandBalances, caller) && amount <= t.BalanceOf(self)
      ensures Withdraw(t, caller, amount).Ok? ==>
        var (e, t') := Withdraw(t, caller, amount).value;
        && e == this.(brandBalances := e.brandBalances, log := log + [Withdrawn(caller, amount)])
        && (forall b :: Get(e.brandBalances, b) == Get(brandBalances, b) - if b == caller then amount else 0)
        && (caller != self ==>
              && t'.BalanceOf(caller) == t.BalanceOf(caller) + amount
              && t'.BalanceOf(self) == t.BalanceOf(self) - amount)
    {
      t.MoveEffect(self, caller, amount);
    }

    /** The owner alone sets the settlement address and pauses, and changes nothing else by it. */
    lemma AdminEffect(caller: Address, settlement': Address, paused': bool)
      ensures SetSettlementContract(caller, settlement') ==
        if caller != owner then Err(NotOwner)
        else if settlement' == NO_ADDRESS then Err(InvalidAddress)
        else Ok(Escrow(self, owner, paused, settlement', brandBalances, pendingRecords, supplierPendingTotals,
                       recordedReceipts, log))
      ensures SetPaused(caller, paused').Ok? <==> caller == owner && paused' != paused
      ensures SetPaused(caller, paused').Ok? ==>
        SetPaused(caller, paused').value ==
          Escrow(self, owner, !paused, settlement, brandBalances, pendingRecords, supplierPendingTotals,
                 recordedReceipts, log)
    {
    }

    // -------------------------------------------------------------- the ledger

    /** What the contract's tables say, checked against its history. */
    ghost predicate Balanced() {
      && (forall b :: BrandLine(brandBalances, log, b))
      && (forall s :: SupplierLine(supplierPendingTotals, pendingRecords, log, s))
      && ReceiptLines(pendingRecords, recordedReceipts, log)
    }

    /** A step that appends one event and changes the tables as the event says keeps them balanced. */
    lemma BalancedAppend(e: Escrow, event: Event)
      requires Balanced() && e.log == log + [event]
      requires forall b :: Get(e.brandBalances, b) == Get(brandBalances, b) + BrandDelta(event, b)
      requires forall s :: Get(e.supplierPendingTotals, s) == Get(supplierPendingTotals, s) + PendingDelta(event, s)
      requires e.pendingRecords == RecordsAfter(pendingRecords, event)
      requires event.VerificationRecorded? ==> event.receipt !in recordedReceipts
      requires e.recordedReceipts == recordedReceipts + if event.VerificationRecorded? then {event.receipt} else {}
      ensures e.Balanced()
    {
      forall b
        ensures BrandLine(e.brandBalances, e.log, b)
      {
        BrandLineAppend(brandBalances, e.brandBalances, log, event, b);
      }
      forall s
        ensures SupplierLine(e.supplierPendingTotals, e.pendingRecords, e.log, s)
      {
        SupplierLineAppend(supplierPendingTotals, e.supplierPendingTotals, pendingRecords, log, event, s);
      }
      ReceiptLinesAppend(pendingRecords, recordedReceipts, log, event);
    }

    /** The contract holds what it owes to brands and for suppliers. */
    ghost predicate Solvent(t: Token) {
      Sum(brandBalances) + Sum(supplierPendingTotals) <= t.BalanceOf(self)
    }

    lemma DepositKeepsSolvency(t: Token, caller: Address, amount: uint256)
      requires t.Valid() && caller != self && Solvent(t) && Deposit(t, caller, amount).Ok?
      ensures var (e, t') := Deposit(t, caller, amount).value;
        && e.Solvent(t')
        && t'.BalanceOf(caller) == t.BalanceOf(caller) - amount && t'.BalanceOf(self) == t.BalanceOf(self) + amount
    {
      t.TransferFromEffect(self, caller, self, amount);
      SumUpdate(brandBalances, caller, Get(brandBalances, caller) + amount);
    }

    lemma DepositKeepsBalance(t: Token, caller: Address, amount: uint256)
      requires Balanced() && Deposit(t, caller, amount).Ok?
      ensures Deposit(t, caller, amount).value.0.Balanced()
    {
      BalancedAppend(Deposit(t, caller, amount).value.0, Deposited(caller, amount));
    }

    lemma RecordKeepsSolvency(t: Token, caller: Address, brand: Address, supplier: Address, amount: uint256,
                              receipt: Receipt)
      requires Solvent(t) && RecordVerification(caller, brand, supplier, amount, receipt).Ok?
      ensures RecordVerification(caller, brand, supplier, amount, receipt).value.Solvent(t)
    {
      SumUpdate(brandBalances, brand, Get(brandBalances, brand) - amount);
      SumUpdate(supplierPendingTotals, supplier, Get(supplierPendingTotals, supplier) + amount);
    }

    lemma RecordKeepsBalance(caller: Address, brand: Address, supplier: Address, amount: uint256, receipt: Receipt)
      requires Balanced() && RecordVerification(caller, brand, supplier, amount, receipt).Ok?
      ensures RecordVerification(caller, brand, supplier, amount, receipt).value.Balanced()
    {
      var e := RecordVerification(caller, brand, supplier, amount, receipt).value;
      BalancedAppend(e, VerificationRecorded(brand, supplier, amount, receipt));
    }

    lemma TransferKeepsSolvency(t: Token, caller: Address, supplier: Address, amount: uint256)
      requires t.Valid() && Solvent(t) && TransferToSettlement(t, caller, supplier, amount).Ok?
      ensures var (e, t') := TransferToSettlement(t, caller, supplier, amount).value;
        && e.Solvent(t')
        && (settlement != self ==> t'.BalanceOf(settlement) == t.BalanceOf(settlement) + amount)
    {
      t.MoveEffect(self, settlement, amount);
      SumUpdate(supplierPendingTotals, supplier, Get(supplierPendingTotals, supplier) - amount);
    }

    lemma TransferKeepsBalance(t: Token, caller: Address, supplier: Address, amount: uint256)
      requires Balanced() && TransferToSettlement(t, caller, supplier, amount).Ok?
      ensures TransferToSettlement(t, caller, supplier, amount).value.0.Balanced()
    {
      BalancedAppend(TransferToSettlement(t, caller, supplier, amount).value.0,
        TransferredToSettlement(supplier, amount));
    }

    lemma WithdrawKeepsSolvency(t: Token, caller: Address, amount: uint256)
      requires t.Valid() && Solvent(t) && Withdraw(t, caller, amount).Ok?
      ensures var (e, t') := Withdraw(t, caller, amount).value;
        && e.Solvent(t')
        && (caller != self ==> t'.BalanceOf(caller) == t.BalanceOf(caller) + amount)
    {
      t.MoveEffect(self, caller, amount);
      SumUpdate(brandBalances, caller, Get(brandBalances, caller) - amount);
    }

    lemma WithdrawKeepsBalance(t: Token, caller: Address, amount: uint256)
      requires Balanced() && Withdraw(t, caller, amount).Ok?
      ensures Withdraw(t, caller, amount).value.0.Balanced()
    {
      BalancedAppend(Withdraw(t, caller, amount).value.0, Withdrawn(caller, amount));
    }

    /** A solvent escrow never refuses a withdrawal or a transfer for want of tokens. */
    lemma NeverShort(t: Token, caller: Address, supplier: Address, amount: uint256)
      requires t.Valid() && Solvent(t)
      ensures Withdraw(t, caller, amount) != Err(TokenBalanceTooLow)
      ensures TransferToSettlement(t, caller, supplier, amount) != Err(TokenBalanceTooLow)
    {
      t.MoveEffect(self, caller, amount);
      t.MoveEffect(self, settlement, amount);
      GetAtMostSum(brandBalances, caller);
      GetAtMostSum(supplierPendingTotals, supplier);
    }
  }

  // ---------------------------------------------------------------- the contract in place

  class VerificationEscrow {
    const paymentToken: Erc20
    const self: Address
    var owner: Address
    var paused: bool
    var settlementContract: Address
    var brandBalances: map<Address, uint256>
    var pendingRecords: map<(Address, Address), uint256>
    var supplierPendingTotals: map<Address, uint256>
    var recordedReceipts: set<Receipt>
    var log: seq<Event>

    constructor (self: Address, paymentToken: Erc20, initialOwner: Address)
      ensures this.paymentToken == paymentToken
      ensures State() == Escrow(self, initialOwner, false, NO_ADDRESS, map[], map[], map[], {}, [])
    {
      this.self := self;
      this.paymentToken := paymentToken;
      owner := initialOwner;
      paused := false;
      settlementContract := NO_ADDRESS;
      brandBalances := map[];
      pendingRecords := map[];
      supplierPendingTotals := map[];
      recordedReceipts := {};
      log := [];
    }

    function State(): Escrow
      reads this
    {
      Escrow(self, owner, paused, settlementContract, brandBalances, pendingRecords, supplierPendingTotals,
        recordedReceipts, log)
    }

    method Deposit(caller: Address, amount: uint256) returns (r: Outcome<()>)
      modifies this, paymentToken
      ensures match old(State()).Deposit(old(paymentToken.State()), caller, amount)
        case Ok((e, t)) => r == Ok(()) && State() == e && paymentToken.State() == t
        case Err(e) => r == Err(e) && State() == old(State()) && paymentToken.State() == old(paymentToken.State())
    {
      if paused {
        return Err(EnforcedPause);
      }
      if amount == 0 {
        return Err(InvalidAmount);
      }
      var balances, allowances := paymentToken.balances, paymentToken.allowances;
      r := paymentToken.TransferFrom(self, caller, self, amount);
      if r.Err? {
        return;
      }
      if Get(brandBalances, caller) + amount > MAX_UINT256 {
        // a revert undoes the token transfer
        paymentToken.balances, paymentToken.allowances := balances, allowances;
        return Err(ArithmeticOverflow);
      }
      brandBalances := brandBalances[caller := Get(brandBalances, caller) + amount];
      log := log + [Deposited(caller, amount)];
    }

    method RecordVerification(caller: Address, brand: Address, supplier: Address, amount: uint256, receipt: Receipt)
      returns (r: Outcome<()>)
      modifies this
      ensures match old(State()).RecordVerification(caller, brand, supplier, amount, receipt)
        case Ok(e) => r == Ok(()) && State() == e
        case Err(e) => r == Err(e) && State() == old(State())
    {
      if caller != owner {
        return Err(NotOwner);
      }
      if paused {
        return Err(EnforcedPause);
      }
      if brand == NO_ADDRESS || supplier == NO_ADDRESS {
        return Err(InvalidAddress);
      }
      if amount == 0 {
        return Err(InvalidAmount);
      }
      if receipt in recordedReceipts {
        return Err(ReceiptAlreadyRecorded);
      }
      if Get(brandBalances, brand) < amount {
        return Err(InsufficientBalance);
      }
      var record, pending :=
        Get(pendingRecords, (brand, supplier)) + amount, Get(supplierPendingTotals, supplier) + amount;
      if record > MAX_UINT256 || pending > MAX_UINT256 {
        return Err(ArithmeticOverflow);
      }
      recordedReceipts := recordedReceipts + {receipt};
      brandBalances := brandBalances[brand := Get(brandBalances, brand) - amount];
      pendingRecords := pendingRecords[(brand, supplier) := record];
      supplierPendingTotals := supplierPendingTotals[supplier := pending];
      log := log + [VerificationRecorded(brand, supplier, amount, receipt)];
      r := Ok(());
    }

    method TransferToSettlement(caller: Address, supplier: Address, amount: uint256) returns (r: Outcome<()>)
      modifies this, paymentToken
      ensures match old(State()).TransferToSettlement(old(paymentToken.State()), caller, supplier, amount)
        case Ok((e, t)) => r == Ok(()) && State() == e && paymentToken.State() == t
        case Err(e) => r == Err(e) && State() == old(State()) && paymentToken.State() == old(paymentToken.State())
    {
      if paused {
        return Err(EnforcedPause);
      }
      if settlementContract == NO_ADDRESS {
        return Err(SettlementContractNotSet);
      }
      if caller != settlementContract && caller != owner {
        return Err(NotSettlementContract);
      }
      if supplier == NO_ADDRESS {
        return Err(InvalidAddress);
      }
      if amount == 0 {
        return Err(InvalidAmount);
      }
      if Get(supplierPendingTotals, supplier) < amount {
        return Err(InsufficientPendingAmount);
      }
      var before := supplierPendingTotals;
      supplierPendingTotals := supplierPendingTotals[supplier := Get(supplierPendingTotals, supplier) - amount];
      r := paymentToken.Transfer(self, settlementContract, amount);
      if r.Err? {
        supplierPendingTotals := before;
        return;
      }
      log := log + [TransferredToSettlement(supplier, amount)];
    }

    method Withdraw(caller: Address, amount: uint256) returns (r: Outcome<()>)
      modifies this, paymentToken
      ensures match old(State()).Withdraw(old(paymentToken.State()), caller, amount)
        case Ok((e, t)) => r == Ok(()) && State() == e && paymentToken.State() == t
        case Err(e) => r == Err(e) && State() == old(State()) && paymentToken.State() == old(paymentToken.State())
    {
      if paused {
        return Err(EnforcedPause);
      }
      if amount == 0 {
        return Err(InvalidAmount);
      }
      if Get(brandBalances, caller) < amount {
        return Err(InsufficientBalance);
      }
      var before := brandBalances;
      brandBalances := brandBalances[caller := Get(brandBalances, caller) - amount];
      r := paymentToken.Transfer(self, caller, amount);
      if r.Err? {
        brandBalances := before;
        return;
      }
      log := log + [Withdrawn(caller, amount)];
    }

    method SetSettlementContract(caller: Address, settlement: Address) returns (r: Outcome<()>)
      modifies this
      ensures match old(State()).SetSettlementContract(caller, settlement)
        case Ok(e) => r == Ok(()) && State() == e
        case Err(e) => r == Err(e) && State() == old(State())
    {
      if caller != owner {
        return Err(NotOwner);
      }
      if settlement == NO_ADDRESS {
        return Err(InvalidAddress);
      }
      settlementContract := settlement;
      r := Ok(());
    }

    /** `pause` and `unpause`. */
    method SetPaused(caller: Address, paused': bool) returns (r: Outcome<()>)
      modifies this
      ensures match old(State()).SetPaused(caller, paused')
        case Ok(e) => r == Ok(()) && State() == e
        case Err(e) => r == Err(e) && State() == old(State())
    {
      if caller != owner {
        return Err(NotOwner);
      }
      if paused == paused' {
        return Err(if paused then EnforcedPause else ExpectedPause);
      }
      paused := paused';
      r := Ok(());
    }
  }
}
