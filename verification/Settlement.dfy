/**
 RoyaltySettlement.sol: statements are submitted by the owner, may be disputed by their
 supplier inside the dispute window, are finalized by anyone after it, and pay into a
 balance the supplier claims.
 */
module Settlement {
  import opened MapSums
  import opened Token
  import opened Wrappers

  type StatementId = nat

  datatype Status = None_ | Submitted | Disputed | Finalized | Paid

  datatype Statement = Statement(
    hash: nat, supplier: Address, totalAmount: uint256, submittedAt: uint256, finalizedAt: uint256, status: Status)

  datatype Event =
    | StatementSubmitted(id: StatementId, supplier: Address, amount: uint256)
    | StatementFinalized(id: StatementId, supplier: Address, amount: uint256)
    | StatementDisputedBy(id: StatementId, supplier: Address)
    | PaymentClaimed(supplier: Address, amount: uint256)

  const DEFAULT_DISPUTE_WINDOW: uint256 := 86_400
  const MAX_DISPUTE_WINDOW: uint256 := 604_800

  // ---------------------------------------------------------------- totals over the history

  datatype Tally = Submissions | Finalizations | Claims

  function Entry(tally: Tally, e: Event): Option<(Address, nat)> {
    match (tally, e)
    case (Submissions, StatementSubmitted(_, s, a)) => Some((s, a))
    case (Finalizations, StatementFinalized(_, s, a)) => Some((s, a))
    case (Claims, PaymentClaimed(s, a)) => Some((s, a))
    case _ => None
  }

  function Total(tally: Tally, log: seq<Event>): map<Address, nat> {
    if log == [] then map[]
    else
      var before := Total(tally, log[..|log| - 1]);
      match Entry(tally, log[|log| - 1])
      case Some((k, a)) => Credit(before, k, a)
      case None => before
  }

  /** How often a statement has been credited to its supplier. */
  function CreditCount(log: seq<Event>, id: StatementId): nat {
    if log == [] then 0
    else
      var last := log[|log| - 1];
      CreditCount(log[..|log| - 1], id) + if last.StatementFinalized? && last.id == id then 1 else 0
  }

  lemma TotalAppend(tally: Tally, log: seq<Event>, e: Event)
    ensures Total(tally, log + [e]) ==
      match Entry(tally, e)
      case Some((k, a)) => Credit(Total(tally, log), k, a)
      case None => Total(tally, log)
  {
    assert (log + [e])[..|log|] == log;
  }

  lemma CreditCountAppend(log: seq<Event>, e: Event, id: StatementId)
    ensures CreditCount(log + [e], id) == CreditCount(log, id) + if e.StatementFinalized? && e.id == id then 1 else 0
  {
    assert (log + [e])[..|log|] == log;
  }

  // ---------------------------------------------------------------- the contract as functions

  datatype Settlement = Settlement(
    self: Address,
    owner: Address,
    paused: bool,
    disputeWindow: uint256,
    statements: map<StatementId, Statement>,
    claimableBalances: map<Address, uint256>,
    log: seq<Event>)
  {
    function StatusOf(id: StatementId): Status {
      if id in statements then statements[id].status else None_
    }

    function SubmitStatement(now: uint256, caller: Address, id: StatementId, supplier: Address, amount: uint256,
                             hash: nat)
      : Outcome<Settlement>
    {
      if caller != owner then Err(NotOwner)
      else if paused then Err(EnforcedPause)
      else if StatusOf(id) != None_ then Err(StatementAlreadyExists)
      else if supplier == NO_ADDRESS then Err(InvalidAddress)
      else if amount == 0 then Err(InvalidAmount)
      else Ok(this.(
        statements := statements[id := Statement(hash, supplier, amount, now, 0, Submitted)],
        log := log + [StatementSubmitted(id, supplier, amount)]))
    }

    function FinalizeStatement(now: uint256, id: StatementId): Outcome<Settlement> {
      if paused then Err(EnforcedPause)
      else
        match StatusOf(id)
        case None_ => Err(StatementNotFound)
        case Finalized => Err(StatementAlreadyFinalized)
        case Paid => Err(StatementAlreadyFinalized)
        case Disputed => Err(StatementDisputed)
        case Submitted =>
          var st := statements[id];
          var windowEnd := st.submittedAt + disputeWindow;
          if windowEnd > MAX_UINT256 then Err(ArithmeticOverflow)
          else if now < windowEnd then Err(DisputeWindowNotPassed)
          else
            var balance := Get(claimableBalances, st.supplier) + st.totalAmount;
            if balance > MAX_UINT256 then Err(ArithmeticOverflow)
            else Ok(this.(
              statements := statements[id := st.(status := Finalized, finalizedAt := now)],
              claimableBalances := claimableBalances[st.supplier := balance],
              log := log + [StatementFinalized(id, st.supplier, st.totalAmount)]))
    }

    function DisputeStatement(now: uint256, caller: Address, id: StatementId): Outcome<Settlement> {
      if paused then Err(EnforcedPause)
      else if StatusOf(id) == None_ then Err(StatementNotFound)
      else
        var st := statements[id];
        if st.supplier != caller then Err(NotSupplier)
        else if st.status != Submitted then Err(StatementNotSubmitted)
        else if st.submittedAt + disputeWindow > MAX_UINT256 then Err(ArithmeticOverflow)
        else if now >= st.submittedAt + disputeWindow then Err(DisputeWindowPassed)
        else Ok(this.(
          statements := statements[id := st.(status := Disputed)],
          log := log + [StatementDisputedBy(id, st.supplier)]))
    }

    function ClaimPayment(t: Token, caller: Address): Outcome<(Settlement, Token)> {
      if paused then Err(EnforcedPause)
      else
        var amount := Get(claimableBalances, caller);
        if amount == 0 then Err(NothingToClaim)
        else
          match t.Transfer(self, caller, amount)
          case Err(e) => Err(e)
          case Ok(t') =>
            Ok((this.(
              claimableBalances := claimableBalances[caller := 0],
              log := log + [PaymentClaimed(caller, amount)]), t'))
    }

    function SetDisputeWindow(caller: Address, newWindow: uint256): Outcome<Settlement> {
      if caller != owner then Err(NotOwner)
      else if newWindow == 0 || newWindow > MAX_DISPUTE_WINDOW then Err(InvalidDisputeWindow)
      else Ok(this.(disputeWindow := newWindow))
    }

    function SetPaused(caller: Address, paused': bool): Outcome<Settlement> {
      if caller != owner then Err(NotOwner)
      else if paused == paused' then Err(if paused then EnforcedPause else ExpectedPause)
      else Ok(this.(paused := paused'))
    }

    function IsFinalizable(now: uint256, id: StatementId): Outcome<bool> {
      if StatusOf(id) != Submitted then Ok(false)
      else if statements[id].submittedAt + disputeWindow > MAX_UINT256 then Err(ArithmeticOverflow)
      else Ok(now >= statements[id].submittedAt + disputeWindow)
    }

    function GetRemainingDisputeTime(now: uint256, id: StatementId): Outcome<uint256> {
      if StatusOf(id) != Submitted then Ok(0)
      else if statements[id].submittedAt + disputeWindow > MAX_UINT256 then Err(ArithmeticOverflow)
      else
        var windowEnd := statements[id].submittedAt + disputeWindow;
        if now >= windowEnd then Ok(0) else Ok(windowEnd - now)
    }

    // -------------------------------------------------------------- what each call does, entry by entry

    /** The owner submits under an unused id, and the dispute window starts with the clock. */
    lemma SubmitEffect(now: uint256, caller: Address, id: StatementId, supplier: Address, amount: uint256, hash: nat)
      ensures SubmitStatement(now, caller, id, supplier, amount, hash).Ok? <==>
        && caller == owner && !paused && StatusOf(id) == None_ && supplier != NO_ADDRESS && amount > 0
      ensures SubmitStatement(now, caller, id, supplier, amount, hash).Ok? ==>
        var s := SubmitStatement(now, caller, id, supplier, amount, hash).value;
        && s == this.(statements := s.statements, log := log + [StatementSubmitted(id, supplier, amount)])
        && id in s.statements && s.statements.Keys == statements.Keys + {id}
        && (forall i :: i in statements && i != id ==> s.statements[i] == statements[i])
        && var st := s.statements[id];
        && st.hash == hash && st.supplier == supplier && st.totalAmount == amount
        && st.submittedAt == now && st.status == Submitted
      ensures caller != owner ==> SubmitStatement(now, caller, id, supplier, amount, hash) == Err(NotOwner)
      ensures caller == owner && !paused && StatusOf(id) != None_ ==>
        SubmitStatement(now, caller, id, supplier, amount, hash) == Err(StatementAlreadyExists)
    {
    }

    /**
     From a submission at `now` until the window has passed the supplier can dispute and nobody can
     finalize; from then on, as long as nothing else happens, it is the other way round.
     */
    lemma SubmissionOpensWindow(now: uint256, caller: Address, id: StatementId, supplier: Address, amount: uint256,
                                hash: nat, later: uint256)
      requires SubmitStatement(now, caller, id, supplier, amount, hash).Ok?
      requires now <= later && now + disputeWindow <= MAX_UINT256
      ensures var s := SubmitStatement(now, caller, id, supplier, amount, hash).value;
        && (later < now + disputeWindow ==>
              && s.DisputeStatement(later, supplier, id).Ok?
              && s.FinalizeStatement(later, id) == Err(DisputeWindowNotPassed)
              && s.IsFinalizable(later, id) == Ok(false)
              && s.GetRemainingDisputeTime(later, id) == Ok(now + disputeWindow - later))
        && (later >= now + disputeWindow ==>
              && s.DisputeStatement(later, supplier, id) == Err(DisputeWindowPassed)
              && (s.FinalizeStatement(later, id).Ok? <==> Get(claimableBalances, supplier) + amount <= MAX_UINT256)
              && s.IsFinalizable(later, id) == Ok(true)
              && s.GetRemainingDisputeTime(later, id) == Ok(0))
    {
    }

    /** After the window anybody may finalize a submitted statement, which credits its supplier alone. */
    lemma FinalizeEffect(now: uint256, id: StatementId)
      ensures FinalizeStatement(now, id).Ok? <==>
        && !paused && StatusOf(id) == Submitted && statements[id].submittedAt + disputeWindow <= now
        && Get(claimableBalances, statements[id].supplier) + statements[id].totalAmount <= MAX_UINT256
      ensures FinalizeStatement(now, id).Ok? ==>
        var (s, st) := (FinalizeStatement(now, id).value, statements[id]);
        && s.log == log + [StatementFinalized(id, st.supplier, st.totalAmount)]
        && (s.self, s.owner, s.paused, s.disputeWindow) == (self, owner, paused, disputeWindow)
        && s.statements.Keys == statements.Keys
        && (forall i :: i in statements && i != id ==> s.statements[i] == statements[i])
        && s.statements[id] ==
           Statement(st.hash, st.supplier, st.totalAmount, st.submittedAt, now, Finalized)
        && (forall a :: Get(s.claimableBalances, a) ==
              Get(claimableBalances, a) + if a == st.supplier then st.totalAmount else 0)
      ensures !paused && StatusOf(id) == None_ ==> FinalizeStatement(now, id) == Err(StatementNotFound)
      ensures !paused && StatusOf(id) == Disputed ==> FinalizeStatement(now, id) == Err(StatementDisputed)
      ensures !paused && StatusOf(id) == Finalized ==> FinalizeStatement(now, id) == Err(StatementAlreadyFinalized)
    {
    }

    /** Within the window the supplier, and nobody else, may dispute. */
    lemma DisputeEffect(now: uint256, caller: Address, id: StatementId)
      ensures DisputeStatement(now, caller, id).Ok? <==>
        && !paused && StatusOf(id) == Submitted && caller == statements[id].supplier
        && now < statements[id].submittedAt + disputeWindow <= MAX_UINT256
      ensures DisputeStatement(now, caller, id).Ok? ==>
        var (s, st) := (DisputeStatement(now, caller, id).value, statements[id]);
        && s == this.(statements := s.statements, log := log + [StatementDisputedBy(id, caller)])
        && s.statements.Keys == statements.Keys
        && (forall i :: i in statements && i != id ==> s.statements[i] == statements[i])
        && s.statements[id] ==
           Statement(st.hash, st.supplier, st.totalAmount, st.submittedAt, st.finalizedAt, Disputed)
    {
    }

    /** A claim empties the caller's balance and pays it to the caller. */
    lemma ClaimEffect(t: Token, caller: Address)
      requires t.Valid()
      ensures var due := Get(claimableBalances, caller);
        && (ClaimPayment(t, caller).Ok? <==>
              !paused && caller != NO_ADDRESS && 0 < due <= t.BalanceOf(self))
        && (ClaimPayment(t, caller).Ok? ==>
              var (s, t') := ClaimPayment(t, caller).value;
              && s == this.(claimableBalances := s.claimableBalances, log := log + [PaymentClaimed(caller, due)])
              && (forall a :: Get(s.claimableBalances, a) == if a == caller then 0 else Get(claimableBalances, a))
              && (caller != self ==>
                    && t'.BalanceOf(caller) == t.BalanceOf(caller) + due
                    && t'.BalanceOf(self) == t.BalanceOf(self) - due))
    {
      t.MoveEffect(self, caller, Get(claimableBalances, caller));
    }

    /** The owner alone sets the window, up to a week, and pauses, and changes nothing else by it. */
    lemma AdminEffect(caller: Address, newWindow: uint256, paused': bool)
      ensures SetDisputeWindow(caller, newWindow) ==
        if caller != owner then Err(NotOwner)
        else if !(0 < newWindow <= 604_800) then Err(InvalidDisputeWindow)
        else Ok(Settlement(self, owner, paused, newWindow, statements, claimableBalances, log))
      ensures SetPaused(caller, paused').Ok? <==> caller == owner && paused' != paused
      ensures SetPaused(caller, paused').Ok? ==>
        SetPaused(caller, paused').value ==
          Settlement(self, owner, !paused, disputeWindow, statements, claimableBalances, log)
    {
    }

    // -------------------------------------------------------------- the ledger

    function SubmittedFor(s: Address): map<StatementId, nat> {
      map id | id in statements && statements[id].supplier == s :: statements[id].totalAmount
    }

    function FinalizedFor(s: Address): map<StatementId, nat> {
      map id | id in statements && statements[id].supplier == s && statements[id].status == Finalized
        :: statements[id].totalAmount
    }

    /** For one supplier: balance + claimed = its finalized statements, and the history agrees with the statements. */
    ghost predicate SupplierLine(s: Address) {
      && Get(claimableBalances, s) + Get(Total(Claims, log), s) == Sum(FinalizedFor(s))
      && Get(Total(Finalizations, log), s) == Sum(FinalizedFor(s))
      && Get(Total(Submissions, log), s) == Sum(SubmittedFor(s))
    }

    /**
     A statement is credited once if finalized and never otherwise, later than it was submitted,
     and is never paid.
     */
    ghost predicate StatementLine(now: uint256, id: StatementId) {
      && CreditCount(log, id) == (if StatusOf(id) == Finalized then 1 else 0)
      && (id in statements ==>
            && statements[id].status != None_ && statements[id].status != Paid
            && statements[id].submittedAt <= now
            && (statements[id].status == Finalized ==> statements[id].submittedAt < statements[id].finalizedAt <= now))
    }

    ghost predicate Balanced(now: uint256) {
      && 0 < disputeWindow <= MAX_DISPUTE_WINDOW
      && (forall s :: SupplierLine(s))
      && (forall id :: StatementLine(now, id))
    }

    // -------------------------------------------------------------- each call keeps the ledger

    lemma SubmitKeepsLedger(now: uint256, caller: Address, id: StatementId, supplier: Address, amount: uint256,
                            hash: nat)
      requires Balanced(now) && SubmitStatement(now, caller, id, supplier, amount, hash).Ok?
      ensures SubmitStatement(now, caller, id, supplier, amount, hash).value.Balanced(now)
    {
      var s' := SubmitStatement(now, caller, id, supplier, amount, hash).value;
      assert StatementLine(now, id);
      forall s
        ensures s'.SupplierLine(s)
      {
        assert SupplierLine(s);
        SubmitSupplierLine(s', id, s'.statements[id], s);
      }
      StatementLinesAppend(now, s', id, StatementSubmitted(id, supplier, amount));
    }

    lemma SubmitSupplierLine(s': Settlement, id: StatementId, st: Statement, s: Address)
      requires id !in statements && st.status == Submitted && s'.statements == statements[id := st]
      requires s'.log == log + [StatementSubmitted(id, st.supplier, st.totalAmount)]
      requires s'.claimableBalances == claimableBalances && SupplierLine(s)
      ensures s'.SupplierLine(s)
    {
      LineTotals(s', StatementSubmitted(id, st.supplier, st.totalAmount), s);
      assert s'.FinalizedFor(s) == FinalizedFor(s);
      SubmittedForInsert(s', id, st, s);
    }

    lemma SubmittedForInsert(s': Settlement, id: StatementId, st: Statement, s: Address)
      requires id !in statements && s'.statements == statements[id := st]
      ensures Sum(s'.SubmittedFor(s)) == Sum(SubmittedFor(s)) + if s == st.supplier then st.totalAmount else 0
    {
      if s == st.supplier {
        assert s'.SubmittedFor(s) == SubmittedFor(s)[id := st.totalAmount];
        SumUpdate(SubmittedFor(s), id, st.totalAmount);
      } else {
        assert s'.SubmittedFor(s) == SubmittedFor(s);
      }
    }

    lemma FinalizeKeepsLedger(now: uint256, id: StatementId)
      requires Balanced(now) && FinalizeStatement(now, id).Ok?
      ensures FinalizeStatement(now, id).value.Balanced(now)
    {
      var s' := FinalizeStatement(now, id).value;
      var st := statements[id];
      var event := StatementFinalized(id, st.supplier, st.totalAmount);
      assert StatementLine(now, id);
      forall s
        ensures s'.SupplierLine(s)
      {
        assert SupplierLine(s);
        ResolveSupplierLine(s', id, event, s);
      }
      StatementLinesAppend(now, s', id, event);
    }

    lemma ResolveSupplierLine(s': Settlement, id: StatementId, event: Event, s: Address)
      requires StatusOf(id) == Submitted && id in s'.statements
      requires var (st, st') := (statements[id], s'.statements[id]);
        && s'.statements == statements[id := st']
        && st'.supplier == st.supplier && st'.totalAmount == st.totalAmount
        && (match event
            case StatementFinalized(i, x, a) =>
              i == id && x == st.supplier && a == st.totalAmount && st'.status == Finalized
            case StatementDisputedBy(i, x) => i == id && x == st.supplier && st'.status == Disputed
            case _ => false)
      requires s'.log == log + [event] && SupplierLine(s)
      requires Get(s'.claimableBalances, s) == Get(claimableBalances, s) + EventAmount(Finalizations, event, s)
      ensures s'.SupplierLine(s)
    {
      LineTotals(s', event, s);
      ResolveSums(s', id, s'.statements[id], s);
    }

    /** Finalizing or disputing moves an amount from submitted to finalized, or nowhere. */
    lemma ResolveSums(s': Settlement, id: StatementId, st': Statement, s: Address)
      requires StatusOf(id) == Submitted && s'.statements == statements[id := st']
      requires st'.supplier == statements[id].supplier && st'.totalAmount == statements[id].totalAmount
      ensures s'.SubmittedFor(s) == SubmittedFor(s)
      ensures Sum(s'.FinalizedFor(s)) ==
        Sum(FinalizedFor(s)) + if st'.status == Finalized && s == st'.supplier then st'.totalAmount else 0
    {
      if st'.status == Finalized && s == st'.supplier {
        assert s'.FinalizedFor(s) == FinalizedFor(s)[id := st'.totalAmount];
        SumUpdate(FinalizedFor(s), id, st'.totalAmount);
      } else {
        assert s'.FinalizedFor(s) == FinalizedFor(s);
      }
    }

    lemma DisputeKeepsLedger(now: uint256, caller: Address, id: StatementId)
      requires Balanced(now) && DisputeStatement(now, caller, id).Ok?
      ensures DisputeStatement(now, caller, id).value.Balanced(now)
      ensures DisputeStatement(now, caller, id).value.claimableBalances == claimableBalances
    {
      var s' := DisputeStatement(now, caller, id).value;
      var event := StatementDisputedBy(id, statements[id].supplier);
      assert StatementLine(now, id);
      forall s
        ensures s'.SupplierLine(s)
      {
        assert SupplierLine(s);
        ResolveSupplierLine(s', id, event, s);
      }
      StatementLinesAppend(now, s', id, event);
    }

    lemma ClaimKeepsLedger(now: uint256, t: Token, caller: Address)
      requires Balanced(now) && ClaimPayment(t, caller).Ok?
      ensures ClaimPayment(t, caller).value.0.Balanced(now)
    {
      var s' := ClaimPayment(t, caller).value.0;
      var event := PaymentClaimed(caller, Get(claimableBalances, caller));
      forall s
        ensures s'.SupplierLine(s)
      {
        assert SupplierLine(s);
        LineTotals(s', event, s);
        assert s'.SubmittedFor(s) == SubmittedFor(s);
        assert s'.FinalizedFor(s) == FinalizedFor(s);
      }
      forall i
        ensures s'.StatementLine(now, i)
      {
        assert StatementLine(now, i);
        CreditCountAppend(log, event, i);
      }
    }

    /** A claim pays its caller the whole balance, out of the contract's tokens, and leaves the caller none. */
    lemma ClaimPays(t: Token, caller: Address)
      requires t.Valid() && caller != self && ClaimPayment(t, caller).Ok?
      ensures var (s', t') := ClaimPayment(t, caller).value;
        && t'.BalanceOf(caller) == t.BalanceOf(caller) + Get(claimableBalances, caller)
        && t'.BalanceOf(self) == t.BalanceOf(self) - Get(claimableBalances, caller)
        && Sum(s'.claimableBalances) == Sum(claimableBalances) - Get(claimableBalances, caller)
        && Get(s'.claimableBalances, caller) == 0
    {
      t.MoveEffect(self, caller, Get(claimableBalances, caller));
      SumUpdate(claimableBalances, caller, 0);
    }

    /** The other statements' lines are untouched by an event about `id`. */
    lemma StatementLinesAppend(now: uint256, s': Settlement, id: StatementId, event: Event)
      requires Balanced(now) && s'.log == log + [event]
      requires id in s'.statements && s'.statements == statements[id := s'.statements[id]]
      requires event.StatementFinalized? ==> event.id == id
      requires event.StatementFinalized? <==> s'.statements[id].status == Finalized
      requires StatusOf(id) != Finalized
      requires var st := s'.statements[id];
        && st.status != None_ && st.status != Paid && st.submittedAt <= now
        && (st.status == Finalized ==> st.submittedAt < st.finalizedAt <= now)
      ensures forall i :: s'.StatementLine(now, i)
    {
      forall i
        ensures s'.StatementLine(now, i)
      {
        assert StatementLine(now, i);
        CreditCountAppend(log, event, i);
      }
    }

    lemma LineTotals(s': Settlement, event: Event, s: Address)
      requires s'.log == log + [event]
      ensures Get(Total(Claims, s'.log), s) == Get(Total(Claims, log), s) + EventAmount(Claims, event, s)
      ensures Get(Total(Finalizations, s'.log), s)
        == Get(Total(Finalizations, log), s) + EventAmount(Finalizations, event, s)
      ensures Get(Total(Submissions, s'.log), s) == Get(Total(Submissions, log), s) + EventAmount(Submissions, event, s)
    {
      TotalAppend(Claims, log, event);
      TotalAppend(Finalizations, log, event);
      TotalAppend(Submissions, log, event);
    }

    /** Time passing and the admin calls keep the ledger too. */
    lemma AdminKeepsLedger(now: uint256, s': Settlement, later: uint256)
      requires Balanced(now) && now <= later
      requires s'.statements == statements && s'.claimableBalances == claimableBalances && s'.log == log
      requires 0 < s'.disputeWindow <= MAX_DISPUTE_WINDOW
      ensures s'.Balanced(later)
    {
      forall s
        ensures s'.SupplierLine(s)
      {
        assert SupplierLine(s);
        assert s'.SubmittedFor(s) == SubmittedFor(s);
        assert s'.FinalizedFor(s) == FinalizedFor(s);
      }
      forall i
        ensures s'.StatementLine(later, i)
      {
        assert StatementLine(now, i);
      }
    }

    // -------------------------------------------------------------- dispute against finalize

    /**
     A submitted statement of an unpaused contract can be disputed by its supplier or finalized
     by anyone, never both; one of the two always holds unless the supplier's balance would
     overflow.  The views agree with the calls.
     */
    lemma DisputeOrFinalize(now: uint256, id: StatementId)
      requires !paused && StatusOf(id) == Submitted
      requires statements[id].submittedAt + disputeWindow <= MAX_UINT256
      ensures var st := statements[id];
        var disputable := DisputeStatement(now, st.supplier, id).Ok?;
        var finalizable := FinalizeStatement(now, id).Ok?;
        var fits := Get(claimableBalances, st.supplier) + st.totalAmount <= MAX_UINT256;
        && !(disputable && finalizable)
        && ((disputable || finalizable) <==> (fits || now < st.submittedAt + disputeWindow))
        && IsFinalizable(now, id) == Ok(!disputable)
        && (GetRemainingDisputeTime(now, id) == Ok(0) <==> !disputable)
        && (disputable ==> GetRemainingDisputeTime(now, id) == Ok(st.submittedAt + disputeWindow - now))
        && (forall caller :: DisputeStatement(now, caller, id).Ok? ==> caller == st.supplier)
    {
    }

    // -------------------------------------------------------------- the life of a statement

    /** How one state may follow another, over any number of calls. */
    ghost predicate EvolvesTo(s': Settlement) {
      forall id :: id in statements ==>
        && id in s'.statements
        && var (st, st') := (statements[id], s'.statements[id]);
        && st'.hash == st.hash && st'.supplier == st.supplier
        && st'.totalAmount == st.totalAmount && st'.submittedAt == st.submittedAt
        && (st' == st || (st.status == Submitted && (st'.status == Disputed || st'.status == Finalized)))
    }
  }

  function EventAmount(tally: Tally, e: Event, s: Address): nat {
    match Entry(tally, e)
    case Some((k, a)) => if k == s then a else 0
    case None => 0
  }

  // ---------------------------------------------------------------- the contract in place

  class RoyaltySettlement {
    const paymentToken: Erc20
    const self: Address
    var owner: Address
    var paused: bool
    var disputeWindow: uint256
    var statements: map<StatementId, Statement>
    var claimableBalances: map<Address, uint256>
    var log: seq<Event>

    constructor (self: Address, paymentToken: Erc20, initialOwner: Address)
      ensures this.paymentToken == paymentToken
      ensures State() == Settlement(self, initialOwner, false, 86_400, map[], map[], [])
    {
      this.self := self;
      this.paymentToken := paymentToken;
      owner := initialOwner;
      paused := false;
      disputeWindow := DEFAULT_DISPUTE_WINDOW;
      statements := map[];
      claimableBalances := map[];
      log := [];
    }

    function State(): Settlement
      reads this
    {
      Settlement(self, owner, paused, disputeWindow, statements, claimableBalances, log)
    }

    method SubmitStatement(now: uint256, caller: Address, id: StatementId, supplier: Address, amount: uint256,
                           hash: nat)
      returns (r: Outcome<()>)
      modifies this
      ensures match old(State()).SubmitStatement(now, caller, id, supplier, amount, hash)
        case Ok(s) => r == Ok(()) && State() == s
        case Err(e) => r == Err(e) && State() == old(State())
    {
      if caller != owner {
        return Err(NotOwner);
      }
      if paused {
        return Err(EnforcedPause);
      }
      if id in statements && statements[id].status != None_ {
        return Err(StatementAlreadyExists);
      }
      if supplier == NO_ADDRESS {
        return Err(InvalidAddress);
      }
      if amount == 0 {
        return Err(InvalidAmount);
      }
      statements := statements[id := Statement(hash, supplier, amount, now, 0, Submitted)];
      log := log + [StatementSubmitted(id, supplier, amount)];
      r := Ok(());
    }

    method FinalizeStatement(now: uint256, id: StatementId) returns (r: Outcome<()>)
      modifies this
      ensures match old(State()).FinalizeStatement(now, id)
        case Ok(s) => r == Ok(()) && State() == s
        case Err(e) => r == Err(e) && State() == old(State())
    {
      if paused {
        return Err(EnforcedPause);
      }
      if id !in statements || statements[id].status == None_ {
        return Err(StatementNotFound);
      }
      var st := statements[id];
      if st.status != Submitted {
        if st.status == Finalized || st.status == Paid {
          return Err(StatementAlreadyFinalized);
        }
        return Err(StatementDisputed);
      }
      if st.submittedAt + disputeWindow > MAX_UINT256 {
        return Err(ArithmeticOverflow);
      }
      if now < st.submittedAt + disputeWindow {
        return Err(DisputeWindowNotPassed);
      }
      if Get(claimableBalances, st.supplier) + st.totalAmount > MAX_UINT256 {
        return Err(ArithmeticOverflow);
      }
      statements := statements[id := st.(status := Finalized, finalizedAt := now)];
      claimableBalances := claimableBalances[st.supplier := Get(claimableBalances, st.supplier) + st.totalAmount];
      log := log + [StatementFinalized(id, st.supplier, st.totalAmount)];
      r := Ok(());
    }

    method DisputeStatement(now: uint256, caller: Address, id: StatementId) returns (r: Outcome<()>)
      modifies this
      ensures match old(State()).DisputeStatement(now, caller, id)
        case Ok(s) => r == Ok(()) && State() == s
        case Err(e) => r == Err(e) && State() == old(State())
    {
      if paused {
        return Err(EnforcedPause);
      }
      if id !in statements || statements[id].status == None_ {
        return Err(StatementNotFound);
      }
      var st := statements[id];
      if st.supplier != caller {
        return Err(NotSupplier);
      }
      if st.status != Submitted {
        return Err(StatementNotSubmitted);
      }
      if st.submittedAt + disputeWindow > MAX_UINT256 {
        return Err(ArithmeticOverflow);
      }
      if now >= st.submittedAt + disputeWindow {
        return Err(DisputeWindowPassed);
      }
      statements := statements[id := st.(status := Disputed)];
      log := log + [StatementDisputedBy(id, st.supplier)];
      r := Ok(());
    }

    method ClaimPayment(caller: Address) returns (r: Outcome<()>)
      modifies this, paymentToken
      ensures match old(State()).ClaimPayment(old(paymentToken.State()), caller)
        case Ok((s, t)) => r == Ok(()) && State() == s && paymentToken.State() == t
        case Err(e) => r == Err(e) && State() == old(State()) && paymentToken.State() == old(paymentToken.State())
    {
      if paused {
        return Err(EnforcedPause);
      }
      var amount := Get(claimableBalances, caller);
      if amount == 0 {
        return Err(NothingToClaim);
      }
      var before := claimableBalances;
      claimableBalances := claimableBalances[caller := 0];
      r := paymentToken.Transfer(self, caller, amount);
      if r.Err? {
        claimableBalances := before;
        return;
      }
      log := log + [PaymentClaimed(caller, amount)];
    }

    method SetDisputeWindow(caller: Address, newWindow: uint256) returns (r: Outcome<()>)
      modifies this
      ensures match old(State()).SetDisputeWindow(caller, newWindow)
        case Ok(s) => r == Ok(()) && State() == s
        case Err(e) => r == Err(e) && State() == old(State())
    {
      if caller != owner {
        return Err(NotOwner);
      }
      if newWindow == 0 || newWindow > MAX_DISPUTE_WINDOW {
        return Err(InvalidDisputeWindow);
      }
      disputeWindow := newWindow;
      r := Ok(());
    }

    /** `pause` and `unpause`. */
    method SetPaused(caller: Address, paused': bool) returns (r: Outcome<()>)
      modifies this
      ensures match old(State()).SetPaused(caller, paused')
        case Ok(s) => r == Ok(()) && State() == s
        case Err(e) => r == Err(e) && State() == old(State())
    {
      if caller != owner {
        return Err(NotOwner);
      }
      if paused == paused' {
        return Err(if paused then EnforcedPause else ExpectedPause);
      }
      paused := paused';
      r := Ok(());
    }
  }
}
