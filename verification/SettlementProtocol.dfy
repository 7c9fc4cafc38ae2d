/**
 The billing service's submit and finalize handlers, interleaved with each other, with the
 chain and with everybody else's transactions.

 Every `await` of a handler is a step of its own and may fail before or after it took effect.
 A transaction that was sent may land at any later time, or never, whatever its handler has
 heard.  A statement's chain id is the row's id; the hash of a row's content is a parameter.
 */
module SettlementProtocol {
  import opened Token
  import opened Wrappers
  import Chain
  import Settlement

  type RowId = Settlement.StatementId

  /** DECIMAL(12,4), counted in units of 10^-4. */
  type Money = n: nat | n < 1_000_000_000_000

  datatype RowStatus = Draft | Final | PaidOut

  datatype ChainStatus = NotSubmitted | Pending | Submitted | Finalized | Disputed | Paid | Failed

  datatype Row = Row(total: Money, status: RowStatus, chainStatus: ChainStatus, wallet: Option<Address>)

  datatype Request =
    | SubmitTx(id: RowId, supplier: Address, amount: uint256, hash: nat)
    | FinalizeTx(id: RowId)

  datatype TxState = InFlight | Landed | Reverted

  datatype Tx = Tx(request: Request, state: TxState)

  /** Where a handler is: the await it is about to make, with the values it has read so far. */
  datatype Handler =
    | SubmitRead(id: RowId, wallet: Address)
    | SubmitConnect(id: RowId, wallet: Address, total: Money)
    | SubmitMark(id: RowId, wallet: Address, total: Money)
    | SubmitSend(id: RowId, wallet: Address, total: Money)
    | SubmitWait(id: RowId, tx: nat)
    | SubmitRecord(id: RowId)
    | SubmitFail(id: RowId)
    | FinalizeRead(id: RowId)
    | FinalizeConnect(id: RowId)
    | FinalizeCheck(id: RowId)
    | FinalizeSend(id: RowId)
    | FinalizeWait(id: RowId, tx: nat)
    | FinalizeRecord(id: RowId)
    | Done(code: nat)

  datatype System = System(rows: map<RowId, Row>, handlers: seq<Handler>, txs: seq<Tx>, world: Chain.World,
    service: Address)

  /** How an await ends: with its effect, with an error and no effect, or with an error after its effect. */
  datatype Await = Succeeds | FailsBefore | FailsAfter

  datatype Action =
    | CreateRow(id: RowId, total: Money)
    | FinalizeRow(id: RowId)
    | RequestSubmit(id: RowId, wallet: Address)
    | RequestFinalize(id: RowId)
    | Advance(h: nat, await_: Await)
    | Crash(h: nat)
    | Include(tx: nat)
    | Outside(step: Chain.Step)

  // ---------------------------------------------------------------- the database

  /** USDC has six decimals and a row four. */
  function UsdcUnits(total: Money): uint256 {
    total * 100
  }

  function WithChainStatus(s: System, id: RowId, status: ChainStatus): System {
    if id in s.rows then s.(rows := s.rows[id := s.rows[id].(chainStatus := status)]) else s
  }

  function MarkPending(s: System, id: RowId, wallet: Address): System {
    if id in s.rows then s.(rows := s.rows[id := s.rows[id].(chainStatus := Pending, wallet := Some(wallet))]) else s
  }

  function MarkPaid(s: System, id: RowId): System {
    if id in s.rows then s.(rows := s.rows[id := s.rows[id].(chainStatus := Finalized, status := PaidOut)]) else s
  }

  // ---------------------------------------------------------------- one await of a handler

  function Goto(s: System, h: nat, next: Handler): System
    requires h < |s.handlers|
  {
    s.(handlers := s.handlers[h := next])
  }

  /** An await with an effect on the database: the effect happens unless it failed before. */
  function Write(s: System, effect: System, h: nat, w: Await, next: Handler, failed: Handler): System
    requires h < |s.handlers| && effect.handlers == s.handlers
  {
    match w
    case Succeeds => Goto(effect, h, next)
    case FailsBefore => Goto(s, h, failed)
    case FailsAfter => Goto(effect, h, failed)
  }

  function Send(s: System, request: Request): System {
    s.(txs := s.txs + [Tx(request, InFlight)])
  }

  function AdvanceSubmit(hashOf: (RowId, Money) -> nat, s: System, h: nat, w: Await): System
    requires h < |s.handlers|
  {
    match s.handlers[h]
    case SubmitRead(id, wallet) =>
      if !w.Succeeds? then Goto(s, h, SubmitFail(id))
      else if id !in s.rows then Goto(s, h, Done(404))
      else if s.rows[id].status != Final then Goto(s, h, Done(400))
      else if s.rows[id].chainStatus != NotSubmitted then Goto(s, h, Done(400))
      else Goto(s, h, SubmitConnect(id, wallet, s.rows[id].total))
    case SubmitConnect(id, wallet, total) =>
      Goto(s, h, if w.Succeeds? then SubmitMark(id, wallet, total) else SubmitFail(id))
    case SubmitMark(id, wallet, total) =>
      Write(s, MarkPending(s, id, wallet), h, w, SubmitSend(id, wallet, total), SubmitFail(id))
    case SubmitSend(id, wallet, total) =>
      Write(s, Send(s, SubmitTx(id, wallet, UsdcUnits(total), hashOf(id, total))), h, w,
            SubmitWait(id, |s.txs|), SubmitFail(id))
    case SubmitWait(id, tx) =>
      if !w.Succeeds? then Goto(s, h, SubmitFail(id))
      else if tx < |s.txs| && s.txs[tx].state == Landed then Goto(s, h, SubmitRecord(id))
      else if tx < |s.txs| && s.txs[tx].state == Reverted then Goto(s, h, SubmitFail(id))
      else s
    case SubmitRecord(id) => Write(s, WithChainStatus(s, id, Submitted), h, w, Done(200), SubmitFail(id))
    case SubmitFail(id) => Write(s, WithChainStatus(s, id, Failed), h, w, Done(500), Done(500))
    case _ => s
  }

  function AdvanceFinalize(s: System, h: nat, w: Await): System
    requires h < |s.handlers|
  {
    match s.handlers[h]
    case FinalizeRead(id) =>
      if !w.Succeeds? then Goto(s, h, Done(500))
      else if id !in s.rows then Goto(s, h, Done(404))
      else if s.rows[id].chainStatus != Submitted then Goto(s, h, Done(400))
      else Goto(s, h, FinalizeConnect(id))
    case FinalizeConnect(id) => Goto(s, h, if w.Succeeds? then FinalizeCheck(id) else Done(500))
    case FinalizeCheck(id) =>
      if !w.Succeeds? then Goto(s, h, Done(500))
      else
        Goto(s, h, match s.world.settlement.IsFinalizable(s.world.now, id)
                   case Ok(true) => FinalizeSend(id)
                   case Ok(false) => Done(400)
                   case Err(_) => Done(500))
    case FinalizeSend(id) => Write(s, Send(s, FinalizeTx(id)), h, w, FinalizeWait(id, |s.txs|), Done(500))
    case FinalizeWait(id, tx) =>
      if !w.Succeeds? then Goto(s, h, Done(500))
      else if tx < |s.txs| && s.txs[tx].state == Landed then Goto(s, h, FinalizeRecord(id))
      else if tx < |s.txs| && s.txs[tx].state == Reverted then Goto(s, h, Done(500))
      else s
    case FinalizeRecord(id) => Write(s, MarkPaid(s, id), h, w, Done(200), Done(500))
    case _ => s
  }

  // ---------------------------------------------------------------- the whole system

  function CallOf(request: Request): Chain.Call {
    match request
    case SubmitTx(id, supplier, amount, hash) => Chain.SubmitStatement(id, supplier, amount, hash)
    case FinalizeTx(id) => Chain.FinalizeStatement(id)
  }

  /** A transaction in flight lands or reverts, once. */
  function IncludeTx(s: System, tx: nat): System {
    if tx >= |s.txs| || s.txs[tx].state != InFlight then s
    else
      match Chain.Apply(s.world, s.service, CallOf(s.txs[tx].request))
      case Ok(world) => s.(world := world, txs := s.txs[tx := s.txs[tx].(state := Landed)])
      case Err(_) => s.(txs := s.txs[tx := s.txs[tx].(state := Reverted)])
  }

  function Next(hashOf: (RowId, Money) -> nat, s: System, action: Action): System {
    match action
    case CreateRow(id, total) =>
      if id in s.rows then s else s.(rows := s.rows[id := Row(total, Draft, NotSubmitted, None)])
    case FinalizeRow(id) =>
      if id in s.rows && s.rows[id].status == Draft then s.(rows := s.rows[id := s.rows[id].(status := Final)]) else s
    case RequestSubmit(id, wallet) => s.(handlers := s.handlers + [SubmitRead(id, wallet)])
    case RequestFinalize(id) => s.(handlers := s.handlers + [FinalizeRead(id)])
    case Advance(h, w) =>
      if h >= |s.handlers| then s
      else if s.handlers[h].SubmitRead? || s.handlers[h].SubmitConnect? || s.handlers[h].SubmitMark?
        || s.handlers[h].SubmitSend?
              || s.handlers[h].SubmitWait? || s.handlers[h].SubmitRecord? || s.handlers[h].SubmitFail?
      then AdvanceSubmit(hashOf, s, h, w)
      else AdvanceFinalize(s, h, w)
    case Crash(h) => if h < |s.handlers| then Goto(s, h, Done(0)) else s
    case Include(tx) => IncludeTx(s, tx)
    case Outside(step) => s.(world := Chain.Next(s.world, step))
  }

  function Run(hashOf: (RowId, Money) -> nat, s: System, actions: seq<Action>): System {
    if actions == [] then s
    else Next(hashOf, Run(hashOf, s, actions[..|actions| - 1]), actions[|actions| - 1])
  }

  /** Outsiders may do and try anything on the chain, but no statement submission of theirs succeeds. */
  ghost predicate Permitted(s: System, action: Action) {
    action.Outside? ==>
      && !Chain.IsContract(s.world, action.step.caller)
      && (action.step.call.SubmitStatement? ==>
            Chain.Apply(Chain.Tick(s.world, action.step.elapsed), action.step.caller, action.step.call).Err?)
  }

  // ---------------------------------------------------------------- agreement

  ghost predicate OnChain(s: System, id: RowId) {
    id in s.world.settlement.statements
  }

  ghost predicate ChainFinal(s: System, id: RowId) {
    s.world.settlement.StatusOf(id) == Settlement.Finalized
  }

  ghost predicate LeftDraft(s: System, id: RowId) {
    id in s.rows && s.rows[id].status != Draft
  }

  /** A chain statement belongs to a row that left DRAFT, for that row's amount and content. */
  ghost predicate StatementOk(hashOf: (RowId, Money) -> nat, s: System, id: RowId) {
    OnChain(s, id) ==>
      && LeftDraft(s, id)
      && s.world.settlement.statements[id].totalAmount == UsdcUnits(s.rows[id].total)
      && s.world.settlement.statements[id].hash == hashOf(id, s.rows[id].total)
  }

  /** What a row says of the chain is true. */
  ghost predicate RowOk(s: System, id: RowId) {
    id in s.rows ==>
      && (s.rows[id].status == PaidOut ==> ChainFinal(s, id))
      && (s.rows[id].chainStatus == Submitted ==> OnChain(s, id))
      && (s.rows[id].chainStatus == Finalized ==> ChainFinal(s, id))
  }

  ghost predicate TxOk(hashOf: (RowId, Money) -> nat, s: System, tx: Tx) {
    match tx.request
    case SubmitTx(id, _, amount, hash) =>
      && LeftDraft(s, id) && amount == UsdcUnits(s.rows[id].total) && hash == hashOf(id, s.rows[id].total)
      && (tx.state == Landed ==> OnChain(s, id))
    case FinalizeTx(id) => tx.state == Landed ==> ChainFinal(s, id)
  }

  ghost predicate HandlerOk(s: System, handler: Handler) {
    match handler
    case SubmitConnect(id, _, total) => LeftDraft(s, id) && s.rows[id].total == total
    case SubmitMark(id, _, total) => LeftDraft(s, id) && s.rows[id].total == total
    case SubmitSend(id, _, total) => LeftDraft(s, id) && s.rows[id].total == total
    case SubmitWait(id, tx) => tx < |s.txs| && s.txs[tx].request.SubmitTx? && s.txs[tx].request.id == id
    case SubmitRecord(id) => OnChain(s, id)
    case FinalizeWait(id, tx) => tx < |s.txs| && s.txs[tx].request == FinalizeTx(id)
    case FinalizeRecord(id) => ChainFinal(s, id)
    case _ => true
  }

  ghost predicate Agreement(hashOf: (RowId, Money) -> nat, s: System) {
    && Chain.Safe(s.world) && !Chain.IsContract(s.world, s.service)
    && (forall id :: StatementOk(hashOf, s, id))
    && (forall id :: RowOk(s, id))
    && (forall i :: 0 <= i < |s.txs| ==> TxOk(hashOf, s, s.txs[i]))
    && (forall h :: 0 <= h < |s.handlers| ==> HandlerOk(s, s.handlers[h]))
  }

  // ---------------------------------------------------------------- what never goes back

  ghost predicate RowGrows(row: Row, row': Row) {
    && row'.total == row.total
    && (row.status != Draft ==> row'.status != Draft)
    && (row.status == PaidOut ==> row'.status == PaidOut)
    && (row.chainStatus != NotSubmitted ==> row'.chainStatus != NotSubmitted)
  }

  /** Rows keep their total and never return to DRAFT or NOT_SUBMITTED; chain statements only evolve. */
  ghost predicate Grows(s: System, s': System) {
    && (forall id :: id in s.rows ==> id in s'.rows && RowGrows(s.rows[id], s'.rows[id]))
    && s.world.settlement.EvolvesTo(s'.world.settlement)
    && |s.txs| <= |s'.txs|
    && (forall i :: 0 <= i < |s.txs| ==> s'.txs[i].request == s.txs[i].request)
  }

  lemma GrownFacts(s: System, s': System, id: RowId)
    requires Grows(s, s')
    ensures LeftDraft(s, id) ==> LeftDraft(s', id) && s'.rows[id].total == s.rows[id].total
    ensures OnChain(s, id) ==> OnChain(s', id)
    ensures ChainFinal(s, id) ==> ChainFinal(s', id)
  {
  }

  lemma GrownHandler(s: System, s': System, handler: Handler)
    requires Grows(s, s') && HandlerOk(s, handler)
    ensures HandlerOk(s', handler)
  {
    if !handler.Done? {
      GrownFacts(s, s', handler.id);
    }
  }

  lemma GrownTx(hashOf: (RowId, Money) -> nat, s: System, s': System, tx: Tx)
    requires Grows(s, s') && TxOk(hashOf, s, tx)
    ensures TxOk(hashOf, s', tx)
  {
    GrownFacts(s, s', tx.request.id);
  }

  /** A step that grows the system, adds sound transactions and changes at most one handler, soundly. */
  lemma GrownAgreement(hashOf: (RowId, Money) -> nat, s: System, s': System)
    requires Agreement(hashOf, s) && Grows(s, s')
    requires Chain.Safe(s'.world) && !Chain.IsContract(s'.world, s'.service)
    requires forall id :: StatementOk(hashOf, s', id)
    requires forall id :: RowOk(s', id)
    requires forall i :: 0 <= i < |s'.txs| ==> (i < |s.txs| && s'.txs[i] == s.txs[i]) || TxOk(hashOf, s', s'.txs[i])
    requires forall h :: 0 <= h < |s'.handlers| ==>
      (h < |s.handlers| && s'.handlers[h] == s.handlers[h]) || HandlerOk(s', s'.handlers[h])
    ensures Agreement(hashOf, s')
  {
    forall i | 0 <= i < |s'.txs|
      ensures TxOk(hashOf, s', s'.txs[i])
    {
      if i < |s.txs| && s'.txs[i] == s.txs[i] {
        GrownTx(hashOf, s, s', s.txs[i]);
      }
    }
    forall h | 0 <= h < |s'.handlers|
      ensures HandlerOk(s', s'.handlers[h])
    {
      if h < |s.handlers| && s'.handlers[h] == s.handlers[h] {
        GrownHandler(s, s', s.handlers[h]);
      }
    }
  }

  /** Steps that leave the chain alone and change at most the row `id`, soundly. */
  lemma OffChainAgreement(hashOf: (RowId, Money) -> nat, s: System, s': System, id: RowId)
    requires Agreement(hashOf, s) && s'.world == s.world && s'.service == s.service && s'.txs == s.txs
    requires id in s.rows ==> id in s'.rows && RowGrows(s.rows[id], s'.rows[id])
    requires forall i :: i != id ==> (i in s'.rows <==> i in s.rows) && (i in s.rows ==> s'.rows[i] == s.rows[i])
    requires RowOk(s', id)
    requires forall h :: 0 <= h < |s'.handlers| ==>
      (h < |s.handlers| && s'.handlers[h] == s.handlers[h]) || HandlerOk(s', s'.handlers[h])
    ensures Grows(s, s') && Agreement(hashOf, s')
  {
    assert Grows(s, s');
    forall i
      ensures StatementOk(hashOf, s', i) && RowOk(s', i)
    {
      assert StatementOk(hashOf, s, i) && RowOk(s, i);
    }
    GrownAgreement(hashOf, s, s');
  }

  // ---------------------------------------------------------------- each step keeps the agreement

  lemma HandlerStep(hashOf: (RowId, Money) -> nat, s: System, h: nat, next: Handler)
    requires Agreement(hashOf, s) && h < |s.handlers| && HandlerOk(s, next)
    ensures Grows(s, Goto(s, h, next)) && Agreement(hashOf, Goto(s, h, next))
  {
    var s' := Goto(s, h, next);
    GrownHandlerSame(s, s', next);
    assert RowOk(s, 0);
    OffChainAgreement(hashOf, s, s', 0);
  }

  lemma GrownHandlerSame(s: System, s': System, handler: Handler)
    requires s'.rows == s.rows && s'.txs == s.txs && s'.world == s.world && HandlerOk(s, handler)
    ensures HandlerOk(s', handler)
  {
  }

  /** A database write of the handler `h` to the row `id`, followed by its next step. */
  lemma WriteStep(hashOf: (RowId, Money) -> nat, s: System, effect: System, id: RowId, h: nat, w: Await, next: Handler,
                  failed: Handler)
    requires Agreement(hashOf, s) && h < |s.handlers| && (HandlerOk(s, next) || next.Done?)
    requires failed.Done? || failed.SubmitFail?
    requires effect == s.(rows := effect.rows)
    requires id in s.rows ==> id in effect.rows && RowGrows(s.rows[id], effect.rows[id])
    requires forall i :: i != id ==>
      (i in effect.rows <==> i in s.rows) && (i in s.rows ==> effect.rows[i] == s.rows[i])
    requires RowOk(effect, id)
    ensures Grows(s, Write(s, effect, h, w, next, failed)) && Agreement(hashOf, Write(s, effect, h, w, next, failed))
  {
    if w == FailsBefore {
      HandlerStep(hashOf, s, h, failed);
    } else {
      OffChainAgreement(hashOf, s, effect, id);
      var target := if w == Succeeds then next else failed;
      GrownHandler(s, effect, target);
      HandlerStep(hashOf, effect, h, target);
      GrowsTransitive(s, effect, Goto(effect, h, target));
    }
  }

  lemma GrowsTransitive(a: System, b: System, c: System)
    requires Grows(a, b) && Grows(b, c)
    ensures Grows(a, c)
  {
    Chain.EvolvesTransitive(a.world.settlement, b.world.settlement, c.world.settlement);
    forall id | id in a.rows
      ensures id in c.rows && RowGrows(a.rows[id], c.rows[id])
    {
      assert id in b.rows;
    }
    forall i | 0 <= i < |a.txs|
      ensures c.txs[i].request == a.txs[i].request
    {
      assert b.txs[i].request == a.txs[i].request;
    }
  }

  lemma SendKeeps(hashOf: (RowId, Money) -> nat, s: System, request: Request)
    requires Agreement(hashOf, s) && TxOk(hashOf, s, Tx(request, InFlight))
    ensures Grows(s, Send(s, request)) && Agreement(hashOf, Send(s, request))
  {
    var s' := Send(s, request);
    assert Grows(s, s');
    GrownTx(hashOf, s, s', Tx(request, InFlight));
    forall id
      ensures StatementOk(hashOf, s', id) && RowOk(s', id)
    {
      assert StatementOk(hashOf, s, id) && RowOk(s, id);
    }
    GrownAgreement(hashOf, s, s');
  }

  lemma SendStep(hashOf: (RowId, Money) -> nat, s: System, request: Request, h: nat, w: Await, next: Handler,
                 failed: Handler)
    requires Agreement(hashOf, s) && TxOk(hashOf, s, Tx(request, InFlight)) && h < |s.handlers|
    requires HandlerOk(Send(s, request), next) && (failed.Done? || failed.SubmitFail?)
    ensures var s' := Write(s, Send(s, request), h, w, next, failed); Grows(s, s') && Agreement(hashOf, s')
  {
    if w == FailsBefore {
      HandlerStep(hashOf, s, h, failed);
    } else {
      SendKeeps(hashOf, s, request);
      var target := if w == Succeeds then next else failed;
      HandlerStep(hashOf, Send(s, request), h, target);
      GrowsTransitive(s, Send(s, request), Goto(Send(s, request), h, target));
    }
  }

  /** The awaits that only read: the row, the client, the transaction's receipt, the chain. */
  lemma ReadStepKeeps(hashOf: (RowId, Money) -> nat, s: System, h: nat, w: Await)
    requires Agreement(hashOf, s) && h < |s.handlers|
    requires var x := s.handlers[h]; x.SubmitRead? || x.SubmitConnect? || x.SubmitWait?
    ensures Grows(s, AdvanceSubmit(hashOf, s, h, w)) && Agreement(hashOf, AdvanceSubmit(hashOf, s, h, w))
  {
    var s' := AdvanceSubmit(hashOf, s, h, w);
    assert HandlerOk(s, s.handlers[h]);
    if s.handlers[h].SubmitWait? {
      assert TxOk(hashOf, s, s.txs[s.handlers[h].tx]);
    }
    if s' != s {
      HandlerStep(hashOf, s, h, s'.handlers[h]);
    }
  }

  lemma FinalizeReadStepKeeps(hashOf: (RowId, Money) -> nat, s: System, h: nat, w: Await)
    requires Agreement(hashOf, s) && h < |s.handlers|
    requires var x := s.handlers[h]; x.FinalizeRead? || x.FinalizeConnect? || x.FinalizeCheck? || x.FinalizeWait?
    ensures Grows(s, AdvanceFinalize(s, h, w)) && Agreement(hashOf, AdvanceFinalize(s, h, w))
  {
    var s' := AdvanceFinalize(s, h, w);
    assert HandlerOk(s, s.handlers[h]);
    if s.handlers[h].FinalizeWait? {
      assert TxOk(hashOf, s, s.txs[s.handlers[h].tx]);
    }
    if s' != s {
      HandlerStep(hashOf, s, h, s'.handlers[h]);
    }
  }

  lemma AdvanceSubmitKeeps(hashOf: (RowId, Money) -> nat, s: System, h: nat, w: Await)
    requires Agreement(hashOf, s) && h < |s.handlers|
    ensures Grows(s, AdvanceSubmit(hashOf, s, h, w)) && Agreement(hashOf, AdvanceSubmit(hashOf, s, h, w))
  {
    assert HandlerOk(s, s.handlers[h]);
    match s.handlers[h]
    case SubmitRead(_, _) => ReadStepKeeps(hashOf, s, h, w);
    case SubmitConnect(_, _, _) => ReadStepKeeps(hashOf, s, h, w);
    case SubmitWait(_, _) => ReadStepKeeps(hashOf, s, h, w);
    case SubmitMark(id, wallet, total) =>
      assert RowOk(s, id);
      WriteStep(hashOf, s, MarkPending(s, id, wallet), id, h, w, SubmitSend(id, wallet, total), SubmitFail(id));
    case SubmitSend(id, wallet, total) =>
      SendStep(hashOf, s, SubmitTx(id, wallet, UsdcUnits(total), hashOf(id, total)), h, w, SubmitWait(id, |s.txs|),
        SubmitFail(id));
    case SubmitRecord(id) =>
      assert RowOk(s, id);
      WriteStep(hashOf, s, WithChainStatus(s, id, Submitted), id, h, w, Done(200), SubmitFail(id));
    case SubmitFail(id) =>
      assert RowOk(s, id);
      WriteStep(hashOf, s, WithChainStatus(s, id, Failed), id, h, w, Done(500), Done(500));
    case _ =>
  }

  lemma AdvanceFinalizeKeeps(hashOf: (RowId, Money) -> nat, s: System, h: nat, w: Await)
    requires Agreement(hashOf, s) && h < |s.handlers|
    ensures Grows(s, AdvanceFinalize(s, h, w)) && Agreement(hashOf, AdvanceFinalize(s, h, w))
  {
    assert HandlerOk(s, s.handlers[h]);
    match s.handlers[h]
    case FinalizeRead(_) => FinalizeReadStepKeeps(hashOf, s, h, w);
    case FinalizeConnect(_) => FinalizeReadStepKeeps(hashOf, s, h, w);
    case FinalizeCheck(_) => FinalizeReadStepKeeps(hashOf, s, h, w);
    case FinalizeWait(_, _) => FinalizeReadStepKeeps(hashOf, s, h, w);
    case FinalizeSend(id) =>
      SendStep(hashOf, s, FinalizeTx(id), h, w, FinalizeWait(id, |s.txs|), Done(500));
    case FinalizeRecord(id) =>
      assert RowOk(s, id) && StatementOk(hashOf, s, id);
      WriteStep(hashOf, s, MarkPaid(s, id), id, h, w, Done(200), Done(500));
    case _ =>
  }

  /** A step of the chain that submits nothing new keeps what rows and transactions say of it. */
  lemma ChainStepKeeps(hashOf: (RowId, Money) -> nat, s: System, s': System)
    requires Agreement(hashOf, s) && s'.rows == s.rows && s'.handlers == s.handlers && s'.service == s.service
    requires Chain.Safe(s'.world) && !Chain.IsContract(s'.world, s'.service)
    requires s.world.settlement.EvolvesTo(s'.world.settlement)
    requires |s'.txs| == |s.txs| && forall i :: 0 <= i < |s.txs| ==>
      s'.txs[i].request == s.txs[i].request && (s'.txs[i] == s.txs[i] || TxOk(hashOf, s', s'.txs[i]))
    requires forall id :: OnChain(s', id) && !OnChain(s, id) ==> StatementOk(hashOf, s', id)
    ensures Grows(s, s') && Agreement(hashOf, s')
  {
    forall id
      ensures StatementOk(hashOf, s', id) && RowOk(s', id)
    {
      assert StatementOk(hashOf, s, id) && RowOk(s, id);
      GrownFacts(s, s', id);
    }
    GrownAgreement(hashOf, s, s');
  }

  lemma IncludeKeeps(hashOf: (RowId, Money) -> nat, s: System, tx: nat)
    requires Agreement(hashOf, s)
    ensures Grows(s, IncludeTx(s, tx)) && Agreement(hashOf, IncludeTx(s, tx))
  {
    if tx < |s.txs| && s.txs[tx].state == InFlight {
      assert TxOk(hashOf, s, s.txs[tx]);
      if Chain.Apply(s.world, s.service, CallOf(s.txs[tx].request)).Ok? {
        TxLands(hashOf, s, tx);
      } else {
        ChainStepKeeps(hashOf, s, IncludeTx(s, tx));
      }
    }
  }

  lemma TxLands(hashOf: (RowId, Money) -> nat, s: System, tx: nat)
    requires Agreement(hashOf, s) && tx < |s.txs| && s.txs[tx].state == InFlight && TxOk(hashOf, s, s.txs[tx])
    requires Chain.Apply(s.world, s.service, CallOf(s.txs[tx].request)).Ok?
    ensures Grows(s, IncludeTx(s, tx)) && Agreement(hashOf, IncludeTx(s, tx))
  {
    var s' := IncludeTx(s, tx);
    var request := s.txs[tx].request;
    Chain.CallIsSafe(s.world, s.service, CallOf(request));
    Chain.ApplyKeepsAddresses(s.world, s.service, CallOf(request));
    Chain.CallEvolvesStatements(s.world, s.service, CallOf(request));
    LandedFacts(hashOf, s, tx);
    ChainStepKeeps(hashOf, s, s');
  }

  lemma LandedFacts(hashOf: (RowId, Money) -> nat, s: System, tx: nat)
    requires tx < |s.txs| && s.txs[tx].state == InFlight && TxOk(hashOf, s, s.txs[tx])
    requires Chain.Apply(s.world, s.service, CallOf(s.txs[tx].request)).Ok?
    ensures var s' := IncludeTx(s, tx);
      TxOk(hashOf, s', s'.txs[tx]) && forall id :: OnChain(s', id) && !OnChain(s, id) ==> StatementOk(hashOf, s', id)
  {
  }

  lemma OutsideKeeps(hashOf: (RowId, Money) -> nat, s: System, step: Chain.Step)
    requires Agreement(hashOf, s) && Permitted(s, Outside(step))
    ensures var s' := s.(world := Chain.Next(s.world, step)); Grows(s, s') && Agreement(hashOf, s')
  {
    var s' := s.(world := Chain.Next(s.world, step));
    Chain.NextIsSafe(s.world, step);
    Chain.NextEvolvesStatements(s.world, step);
    ChainStepKeeps(hashOf, s, s');
  }

  /** The requests of users: a new row, its finalization in the database, a new handler. */
  lemma RequestKeeps(hashOf: (RowId, Money) -> nat, s: System, action: Action)
    requires Agreement(hashOf, s)
    requires action.CreateRow? || action.FinalizeRow? || action.RequestSubmit? || action.RequestFinalize?
    ensures Grows(s, Next(hashOf, s, action)) && Agreement(hashOf, Next(hashOf, s, action))
  {
    assert RowOk(s, action.id);
    OffChainAgreement(hashOf, s, Next(hashOf, s, action), action.id);
  }

  lemma NextKeeps(hashOf: (RowId, Money) -> nat, s: System, action: Action)
    requires Agreement(hashOf, s) && Permitted(s, action)
    ensures Grows(s, Next(hashOf, s, action)) && Agreement(hashOf, Next(hashOf, s, action))
  {
    match action
    case CreateRow(_, _) => RequestKeeps(hashOf, s, action);
    case FinalizeRow(_) => RequestKeeps(hashOf, s, action);
    case RequestSubmit(_, _) => RequestKeeps(hashOf, s, action);
    case RequestFinalize(_) => RequestKeeps(hashOf, s, action);
    case Advance(h, w) =>
      if h < |s.handlers| {
        AdvanceSubmitKeeps(hashOf, s, h, w);
        AdvanceFinalizeKeeps(hashOf, s, h, w);
      }
    case Crash(h) =>
      if h < |s.handlers| {
        HandlerStep(hashOf, s, h, Done(0));
      }
    case Include(tx) => IncludeKeeps(hashOf, s, tx);
    case Outside(step) => OutsideKeeps(hashOf, s, step);
  }

  ghost predicate PermittedRun(hashOf: (RowId, Money) -> nat, s: System, actions: seq<Action>) {
    forall i :: 0 <= i < |actions| ==> Permitted(Run(hashOf, s, actions[..i]), actions[i])
  }

  lemma FrontIsPermitted(hashOf: (RowId, Money) -> nat, s: System, actions: seq<Action>)
    requires actions != [] && PermittedRun(hashOf, s, actions)
    ensures var n := |actions| - 1;
      PermittedRun(hashOf, s, actions[..n]) && Permitted(Run(hashOf, s, actions[..n]), actions[n])
  {
    var front := actions[..|actions| - 1];
    forall i | 0 <= i < |front|
      ensures Permitted(Run(hashOf, s, front[..i]), front[i])
    {
      assert front[..i] == actions[..i];
    }
  }

  /** The agreement holds in every state any interleaving can reach, and nothing it covers goes back. */
  lemma {:induction false} EveryRunAgrees(hashOf: (RowId, Money) -> nat, s: System, actions: seq<Action>)
    requires Agreement(hashOf, s) && PermittedRun(hashOf, s, actions)
    ensures Agreement(hashOf, Run(hashOf, s, actions)) && Grows(s, Run(hashOf, s, actions))
  {
    if actions != [] {
      var n := |actions| - 1;
      var front := actions[..n];
      FrontIsPermitted(hashOf, s, actions);
      EveryRunAgrees(hashOf, s, front);
      NextKeeps(hashOf, Run(hashOf, s, front), actions[n]);
      GrowsTransitive(s, Run(hashOf, s, front), Run(hashOf, s, actions));
    }
  }

  // ---------------------------------------------------------------- what the agreement means

  /** At deployment, with no row and no request, the service and the chain agree. */
  lemma StartAgrees(hashOf: (RowId, Money) -> nat, world: Chain.World, service: Address)
    requires Chain.Safe(world) && !Chain.IsContract(world, service) && world.settlement.statements == map[]
    ensures Agreement(hashOf, System(map[], [], [], world, service))
  {
  }

  /** What the rows, the transactions and the chain say about one row's statement. */
  ghost predicate AgreesOn(hashOf: (RowId, Money) -> nat, s: System, id: RowId) {
    && (id in s.rows && s.rows[id].status == PaidOut ==>
          && ChainFinal(s, id)
          && s.world.settlement.statements[id].totalAmount == s.rows[id].total * 100
          && Settlement.CreditCount(s.world.settlement.log, id) == 1)
    && (id in s.rows && s.rows[id].chainStatus == Submitted ==> OnChain(s, id))
    && (OnChain(s, id) ==> LeftDraft(s, id) && s.world.settlement.statements[id].hash == hashOf(id, s.rows[id].total))
    && Settlement.CreditCount(s.world.settlement.log, id) == (if ChainFinal(s, id) then 1 else 0)
  }

  /**
   In every reachable state: a PAID row's statement is finalized on chain for the row's amount
   in USDC units, a SUBMITTED row has a statement, a statement belongs to a row that has left
   DRAFT, and a row has credited its supplier once if its statement is finalized and never otherwise.
   */
  lemma DatabaseAgreesWithChain(hashOf: (RowId, Money) -> nat, start: System, actions: seq<Action>, id: RowId)
    requires Agreement(hashOf, start) && PermittedRun(hashOf, start, actions)
    ensures AgreesOn(hashOf, Run(hashOf, start, actions), id)
  {
    EveryRunAgrees(hashOf, start, actions);
    var s := Run(hashOf, start, actions);
    assert RowOk(s, id) && StatementOk(hashOf, s, id);
    assert s.world.settlement.StatementLine(s.world.now, id);
  }

  // ---------------------------------------------------------------- which rows have a statement

  predicate IsLandedSubmit(tx: Tx, id: RowId) {
    tx.state == Landed && tx.request.SubmitTx? && tx.request.id == id
  }

  /** The submit transaction that put a row's statement on chain. */
  ghost predicate LandedAs(s: System, id: RowId, i: nat) {
    i < |s.txs| && IsLandedSubmit(s.txs[i], id)
  }

  ghost predicate SubmitLanded(s: System, id: RowId) {
    exists i: nat :: LandedAs(s, id, i)
  }

  ghost predicate CreditsSupplierOf(s: System, id: RowId, i: nat) {
    LandedAs(s, id, i) && OnChain(s, id) && s.txs[i].request.supplier == s.world.settlement.statements[id].supplier
  }

  /** Every statement was put on chain by a landed submit transaction, for that transaction's supplier. */
  ghost predicate Traced(s: System) {
    && (forall id | OnChain(s, id) :: exists i: nat :: CreditsSupplierOf(s, id, i))
    && (forall id, i: nat, j: nat :: LandedAs(s, id, i) && LandedAs(s, id, j) ==> i == j)
  }

  /** Steps that add no statement and land no submission. */
  lemma TracedFrame(s: System, s': System)
    requires Traced(s) && s.world.settlement.EvolvesTo(s'.world.settlement)
    requires s'.world.settlement.statements.Keys == s.world.settlement.statements.Keys
    requires forall id, i: nat :: LandedAs(s', id, i) <==> LandedAs(s, id, i)
    requires forall i :: 0 <= i < |s.txs| ==> i < |s'.txs| && s'.txs[i].request == s.txs[i].request
    ensures Traced(s')
  {
    forall id | OnChain(s', id)
      ensures exists i: nat :: CreditsSupplierOf(s', id, i)
    {
      assert OnChain(s, id);
      var i: nat :| CreditsSupplierOf(s, id, i);
      assert CreditsSupplierOf(s', id, i);
    }
  }

  /** A handler sends transactions but never lands them. */
  lemma AdvanceSends(hashOf: (RowId, Money) -> nat, s: System, h: nat, w: Await)
    requires h < |s.handlers|
    ensures var s' := Next(hashOf, s, Advance(h, w));
      s'.world == s.world && (s'.txs == s.txs
        || (|s'.txs| == |s.txs| + 1 && s'.txs[..|s.txs|] == s.txs && s'.txs[|s.txs|].state == InFlight))
  {
  }

  lemma NextTraced(hashOf: (RowId, Money) -> nat, s: System, action: Action)
    requires Agreement(hashOf, s) && Permitted(s, action) && Traced(s)
    ensures Traced(Next(hashOf, s, action))
  {
    var s' := Next(hashOf, s, action);
    match action
    case Include(tx) => IncludeTraced(hashOf, s, tx);
    case Outside(step) =>
      Chain.NextEvolvesStatements(s.world, step);
      TracedFrame(s, s');
    case Advance(h, w) =>
      if h < |s.handlers| {
        AdvanceSends(hashOf, s, h, w);
        SentTraced(s, s');
      }
    case _ => TracedFrame(s, s');
  }

  lemma SentTraced(s: System, s': System)
    requires Traced(s) && s'.world == s.world
    requires s'.txs == s.txs
      || (|s'.txs| == |s.txs| + 1 && s'.txs[..|s.txs|] == s.txs && s'.txs[|s.txs|].state == InFlight)
    ensures Traced(s')
  {
    forall i | 0 <= i < |s.txs|
      ensures s'.txs[i] == s.txs[i]
    {
      assert s'.txs[..|s.txs|][i] == s'.txs[i];
    }
    TracedFrame(s, s');
  }

  lemma IncludeTraced(hashOf: (RowId, Money) -> nat, s: System, tx: nat)
    requires Agreement(hashOf, s) && Traced(s)
    ensures Traced(IncludeTx(s, tx))
  {
    if tx < |s.txs| && s.txs[tx].state == InFlight {
      var request := s.txs[tx].request;
      var result := Chain.Apply(s.world, s.service, CallOf(request));
      if result.Ok? && request.SubmitTx? {
        SubmissionTraced(hashOf, s, tx);
      } else {
        if result.Ok? {
          Chain.CallEvolvesStatements(s.world, s.service, CallOf(request));
        }
        TracedFrame(s, IncludeTx(s, tx));
      }
    }
  }

  lemma NoneLanded(hashOf: (RowId, Money) -> nat, s: System, id: RowId)
    requires Agreement(hashOf, s) && !OnChain(s, id)
    ensures forall i: nat :: !LandedAs(s, id, i)
  {
    forall i: nat | i < |s.txs|
      ensures !IsLandedSubmit(s.txs[i], id)
    {
      assert TxOk(hashOf, s, s.txs[i]);
    }
  }

  /** A submission lands only for a row that has no statement, so it is the row's first and only one. */
  lemma SubmissionTraced(hashOf: (RowId, Money) -> nat, s: System, tx: nat)
    requires Agreement(hashOf, s) && Traced(s) && tx < |s.txs| && s.txs[tx].state == InFlight
    requires s.txs[tx].request.SubmitTx?
    requires Chain.Apply(s.world, s.service, CallOf(s.txs[tx].request)).Ok?
    ensures Traced(IncludeTx(s, tx))
  {
    var (s', id) := (IncludeTx(s, tx), s.txs[tx].request.id);
    assert s.world.settlement.StatementLine(s.world.now, id);
    NoneLanded(hashOf, s, id);
    forall i: nat | LandedAs(s', id, i)
      ensures i == tx
    {
      assert i != tx ==> LandedAs(s, id, i);
    }
    assert CreditsSupplierOf(s', id, tx);
    forall k | OnChain(s', k) && k != id
      ensures exists i: nat :: CreditsSupplierOf(s', k, i)
    {
      assert OnChain(s, k);
      var i: nat :| CreditsSupplierOf(s, k, i);
      assert CreditsSupplierOf(s', k, i);
    }
    forall k, i: nat, j: nat | LandedAs(s', k, i) && LandedAs(s', k, j) && k != id
      ensures i == j
    {
      assert LandedAs(s, k, i) && LandedAs(s, k, j);
    }
  }

  lemma {:induction false} EveryRunTraced(hashOf: (RowId, Money) -> nat, s: System, actions: seq<Action>)
    requires Agreement(hashOf, s) && Traced(s) && PermittedRun(hashOf, s, actions)
    ensures Traced(Run(hashOf, s, actions))
  {
    if actions != [] {
      var n := |actions| - 1;
      FrontIsPermitted(hashOf, s, actions);
      EveryRunTraced(hashOf, s, actions[..n]);
      EveryRunAgrees(hashOf, s, actions[..n]);
      NextTraced(hashOf, Run(hashOf, s, actions[..n]), actions[n]);
    }
  }

  /**
   In every reachable state a row has a chain statement exactly when a submit transaction for it
   has landed.  No second one can land, and the statement's supplier is that transaction's.
   */
  lemma StatementIffSubmitLanded(hashOf: (RowId, Money) -> nat, start: System, actions: seq<Action>, id: RowId)
    requires Agreement(hashOf, start) && Traced(start) && PermittedRun(hashOf, start, actions)
    ensures var s := Run(hashOf, start, actions);
      && (OnChain(s, id) <==> SubmitLanded(s, id))
      && (forall i: nat, j: nat :: LandedAs(s, id, i) && LandedAs(s, id, j) ==> i == j)
      && (forall i: nat :: LandedAs(s, id, i) ==> CreditsSupplierOf(s, id, i))
  {
    EveryRunAgrees(hashOf, start, actions);
    EveryRunTraced(hashOf, start, actions);
    TracedFacts(hashOf, Run(hashOf, start, actions), id);
  }

  lemma TracedFacts(hashOf: (RowId, Money) -> nat, s: System, id: RowId)
    requires Agreement(hashOf, s) && Traced(s)
    ensures OnChain(s, id) <==> SubmitLanded(s, id)
    ensures forall i: nat :: LandedAs(s, id, i) ==> CreditsSupplierOf(s, id, i)
  {
    forall i: nat | LandedAs(s, id, i)
      ensures CreditsSupplierOf(s, id, i)
    {
      assert TxOk(hashOf, s, s.txs[i]);
      var j: nat :| CreditsSupplierOf(s, id, j);
      assert LandedAs(s, id, j);
    }
    if OnChain(s, id) {
      var j: nat :| CreditsSupplierOf(s, id, j);
      assert LandedAs(s, id, j);
    }
  }

  // ---------------------------------------------------------------- what FAILED means

  /**
   A submission is attempted at most until its first mark: once a row's chain status has left
   NOT_SUBMITTED, for FAILED as for any other, every later submit request for it is refused.
   */
  lemma NoSecondAttempt(hashOf: (RowId, Money) -> nat, s: System, actions: seq<Action>, id: RowId, wallet: Address,
                        h: nat)
    requires Agreement(hashOf, s) && PermittedRun(hashOf, s, actions)
    requires id in s.rows && s.rows[id].chainStatus != NotSubmitted
    requires h < |Run(hashOf, s, actions).handlers| && Run(hashOf, s, actions).handlers[h] == SubmitRead(id, wallet)
    ensures var later := Run(hashOf, s, actions);
      Next(hashOf, later, Advance(h, Succeeds)) == Goto(later, h, Done(400))
  {
    EveryRunAgrees(hashOf, s, actions);
    StaysMarked(s, Run(hashOf, s, actions), id);
    MarkedIsRefused(hashOf, Run(hashOf, s, actions), id, wallet, h);
  }

  lemma StaysMarked(s: System, s': System, id: RowId)
    requires Grows(s, s') && id in s.rows && s.rows[id].chainStatus != NotSubmitted
    ensures id in s'.rows && s'.rows[id].chainStatus != NotSubmitted
  {
  }

  lemma MarkedIsRefused(hashOf: (RowId, Money) -> nat, s: System, id: RowId, wallet: Address, h: nat)
    requires id in s.rows && s.rows[id].chainStatus != NotSubmitted
    requires h < |s.handlers| && s.handlers[h] == SubmitRead(id, wallet)
    ensures Next(hashOf, s, Advance(h, Succeeds)) == Goto(s, h, Done(400))
  {
  }

  /**
   What can be said of a FAILED row in a reachable state: it has a statement exactly if its one
   submission landed; if it is PAID the statement is final; and neither handler goes on with it.
   */
  lemma FailedRow(hashOf: (RowId, Money) -> nat, start: System, actions: seq<Action>, id: RowId, h: nat)
    requires Agreement(hashOf, start) && Traced(start) && PermittedRun(hashOf, start, actions)
    requires var s := Run(hashOf, start, actions);
      && id in s.rows && s.rows[id].chainStatus == Failed && h < |s.handlers|
    ensures var s := Run(hashOf, start, actions);
      && (OnChain(s, id) <==> SubmitLanded(s, id))
      && (s.rows[id].status == PaidOut ==> ChainFinal(s, id))
      && (s.handlers[h] == FinalizeRead(id) ==> Next(hashOf, s, Advance(h, Succeeds)) == Goto(s, h, Done(400)))
      && (s.handlers[h].SubmitRead? && s.handlers[h].id == id ==>
        Next(hashOf, s, Advance(h, Succeeds)) == Goto(s, h, Done(400)))
  {
    var s := Run(hashOf, start, actions);
    StatementIffSubmitLanded(hashOf, start, actions, id);
    DatabaseAgreesWithChain(hashOf, start, actions, id);
    FailedIsRefused(hashOf, s, id, h);
  }

  lemma FailedIsRefused(hashOf: (RowId, Money) -> nat, s: System, id: RowId, h: nat)
    requires id in s.rows && s.rows[id].chainStatus == Failed && h < |s.handlers|
    ensures s.handlers[h] == FinalizeRead(id) ==> Next(hashOf, s, Advance(h, Succeeds)) == Goto(s, h, Done(400))
    ensures s.handlers[h].SubmitRead? && s.handlers[h].id == id ==>
      Next(hashOf, s, Advance(h, Succeeds)) == Goto(s, h, Done(400))
  {
  }

  /**
   A submit request whose read of the row fails writes FAILED over any chain status, SUBMITTED and
   FINALIZED included.
   */
  lemma FailedReadOverwrites(hashOf: (RowId, Money) -> nat, s: System, h: nat, id: RowId, wallet: Address)
    requires h < |s.handlers| && s.handlers[h] == SubmitRead(id, wallet) && id in s.rows
    ensures var end := Next(hashOf, Next(hashOf, s, Advance(h, FailsBefore)), Advance(h, Succeeds));
      && end.rows == s.rows[id := s.rows[id].(chainStatus := Failed)]
      && end.world == s.world && end.txs == s.txs
  {
    var failed := Next(hashOf, s, Advance(h, FailsBefore));
    assert failed.handlers[h] == SubmitFail(id);
  }

  /** If the response to a submission is lost and the transaction lands, the row ends FAILED with a live statement. */
  lemma LostResponseLeavesFailedRow(hashOf: (RowId, Money) -> nat, s: System, h: nat, id: RowId, wallet: Address,
                                    total: Money)
    requires h < |s.handlers| && s.handlers[h] == SubmitSend(id, wallet, total) && id in s.rows
    requires s.service == s.world.settlement.owner && !s.world.settlement.paused
    requires s.world.settlement.StatusOf(id) == Settlement.None_ && wallet != NO_ADDRESS && total > 0
    ensures var end := Next(hashOf, Next(hashOf, Next(hashOf, s, Advance(h, FailsAfter)), Include(|s.txs|)),
      Advance(h, Succeeds));
      end.rows[id].chainStatus == Failed && end.world.settlement.StatusOf(id) == Settlement.Submitted
  {
    var sent := Next(hashOf, s, Advance(h, FailsAfter));
    assert sent.handlers[h] == SubmitFail(id);
    var landed := Next(hashOf, sent, Include(|s.txs|));
    assert landed.world.settlement.StatusOf(id) == Settlement.Submitted;
  }

  /**
   Two handlers that have both sent a submission for one row: the first lands and is recorded, then
   the second fails.
   */
  function Race(hashOf: (RowId, Money) -> nat, s: System, a: nat, b: nat, n: nat): System {
    var landed := Next(hashOf, s, Include(n));
    var reverted := Next(hashOf, landed, Include(n + 1));
    var heard := Next(hashOf, reverted, Advance(a, Succeeds));
    var recorded := Next(hashOf, heard, Advance(a, Succeeds));
    var lost := Next(hashOf, recorded, Advance(b, Succeeds));
    Next(hashOf, lost, Advance(b, Succeeds))
  }

  /** The row differs only in its FAILED status, and its live statement credits `supplier`. */
  ghost predicate LeftFailed(s: System, end: System, id: RowId, supplier: Address) {
    && id in s.rows && end.rows == s.rows[id := s.rows[id].(chainStatus := Failed)]
    && end.world.settlement.StatusOf(id) == Settlement.Submitted
    && end.world.settlement.statements[id].supplier == supplier
  }

  /**
   The loser of two concurrent submissions writes FAILED over the winner's SUBMITTED.  If it had
   marked the row last, the row keeps the loser's wallet while the chain credits the winner's.
   */
  lemma RaceLeavesFailedRow(hashOf: (RowId, Money) -> nat, s: System, a: nat, b: nat, n: nat, id: RowId,
                            winner: Address, loser: Address, amount: uint256, hash: nat)
    requires a < |s.handlers| && b < |s.handlers| && a != b && n + 1 < |s.txs| && id in s.rows
    requires s.handlers[a] == SubmitWait(id, n) && s.handlers[b] == SubmitWait(id, n + 1)
    requires s.txs[n] == Tx(SubmitTx(id, winner, amount, hash), InFlight)
    requires s.txs[n + 1] == Tx(SubmitTx(id, loser, amount, hash), InFlight)
    requires s.service == s.world.settlement.owner && !s.world.settlement.paused
    requires s.world.settlement.StatusOf(id) == Settlement.None_ && winner != NO_ADDRESS && amount > 0
    ensures LeftFailed(s, Race(hashOf, s, a, b, n), id, winner)
  {
    var landed := Next(hashOf, s, Include(n));
    assert landed.world.settlement.StatusOf(id) == Settlement.Submitted;
    assert landed.txs == s.txs[n := s.txs[n].(state := Landed)] && landed.handlers == s.handlers;
    var reverted := Next(hashOf, landed, Include(n + 1));
    assert reverted == landed.(txs := landed.txs[n + 1 := landed.txs[n + 1].(state := Reverted)]);
    var heard := Next(hashOf, reverted, Advance(a, Succeeds));
    assert heard == Goto(reverted, a, SubmitRecord(id));
    var recorded := Next(hashOf, heard, Advance(a, Succeeds));
    assert recorded == Goto(WithChainStatus(heard, id, Submitted), a, Done(200));
    var lost := Next(hashOf, recorded, Advance(b, Succeeds));
    assert lost == Goto(recorded, b, SubmitFail(id));
  }

  // ---------------------------------------------------------------- from deployment

  /** No rows, no requests, no transactions, over freshly deployed contracts. */
  function Started(world: Chain.World, service: Address): System {
    System(map[], [], [], world, service)
  }

  lemma FromDeployment(hashOf: (RowId, Money) -> nat, token: Token, escrow: Address, settlement: Address,
                       distributor: Address, owner: Address, treasury: Address, now: uint256, service: Address,
                       actions: seq<Action>, id: RowId)
    requires var world := Chain.Deployed(token, escrow, settlement, distributor, owner, treasury, now);
      && Chain.SeparateAddresses(world) && Chain.NoApprovals(world) && token.Valid() && treasury != NO_ADDRESS
      && !Chain.IsContract(world, service) && PermittedRun(hashOf, Started(world, service), actions)
    ensures var world := Chain.Deployed(token, escrow, settlement, distributor, owner, treasury, now);
      var s := Run(hashOf, Started(world, service), actions);
      AgreesOn(hashOf, s, id) && (OnChain(s, id) <==> SubmitLanded(s, id))
  {
    var world := Chain.Deployed(token, escrow, settlement, distributor, owner, treasury, now);
    Chain.DeployedIsSafe(token, escrow, settlement, distributor, owner, treasury, now);
    StartAgrees(hashOf, world, service);
    DatabaseAgreesWithChain(hashOf, Started(world, service), actions, id);
    StatementIffSubmitLanded(hashOf, Started(world, service), actions, id);
  }
}
