/**
 The wallet column of a settlement row.  A submission writes it in one await and sends it to the
 chain in the next, and nothing keeps two submissions of one row apart in between.
 */
module SettlementWallets {
  import opened SettlementProtocol
  import opened Token
  import opened Wrappers
  import Chain
  import Settlement

  /** The row holds the wallet that its statement on chain credits. */
  ghost predicate WalletAgrees(s: System, id: RowId) {
    OnChain(s, id) ==> HasWallet(s, id, s.world.settlement.statements[id].supplier)
  }

  predicate HasWallet(s: System, id: RowId, w: Address) {
    id in s.rows && s.rows[id].wallet == Some(w)
  }

  /** Every submit request for the row names a wallet of the set. */
  predicate RequestsName(actions: seq<Action>, id: RowId, wallets: set<Address>) {
    forall i :: 0 <= i < |actions| ==> RequestNames(actions[i], id, wallets)
  }

  predicate RequestNames(action: Action, id: RowId, wallets: set<Address>) {
    action.RequestSubmit? && action.id == id ==> action.wallet in wallets
  }

  // ---------------------------------------------------------------- one wallet

  ghost predicate HandlerNames(s: System, id: RowId, w: Address, handler: Handler) {
    match handler
    case SubmitRead(i, wallet) => i == id ==> wallet == w
    case SubmitConnect(i, wallet, _) => i == id ==> wallet == w
    case SubmitMark(i, wallet, _) => i == id ==> wallet == w
    case SubmitSend(i, wallet, _) => i == id ==> wallet == w && HasWallet(s, id, w)
    case _ => true
  }

  ghost predicate TxNames(s: System, id: RowId, w: Address, tx: Tx) {
    tx.request.SubmitTx? && tx.request.id == id ==> tx.request.supplier == w && HasWallet(s, id, w)
  }

  ghost predicate ChainNames(s: System, id: RowId, w: Address) {
    OnChain(s, id) ==> s.world.settlement.statements[id].supplier == w && HasWallet(s, id, w)
  }

  /** Handlers, transactions, the row and the chain know no wallet for the row but `w`. */
  ghost predicate OneWallet(s: System, id: RowId, w: Address) {
    && (forall h :: 0 <= h < |s.handlers| ==> HandlerNames(s, id, w, s.handlers[h]))
    && (forall i :: 0 <= i < |s.txs| ==> TxNames(s, id, w, s.txs[i]))
    && ChainNames(s, id, w)
  }

  /** Steps that leave the chain alone, keep the row's wallet, and change handlers and transactions soundly. */
  lemma OneWalletFrame(s: System, s': System, id: RowId, w: Address)
    requires OneWallet(s, id, w) && s'.world == s.world
    requires HasWallet(s, id, w) ==> HasWallet(s', id, w)
    requires forall h :: 0 <= h < |s'.handlers| ==>
      (h < |s.handlers| && s'.handlers[h] == s.handlers[h]) || HandlerNames(s', id, w, s'.handlers[h])
    requires forall i :: 0 <= i < |s'.txs| ==>
      (i < |s.txs| && s'.txs[i] == s.txs[i]) || TxNames(s', id, w, s'.txs[i])
    ensures OneWallet(s', id, w)
  {
    forall h | 0 <= h < |s'.handlers|
      ensures HandlerNames(s', id, w, s'.handlers[h])
    {
      assert h < |s.handlers| ==> HandlerNames(s, id, w, s.handlers[h]);
    }
    forall i | 0 <= i < |s'.txs|
      ensures TxNames(s', id, w, s'.txs[i])
    {
      assert i < |s.txs| ==> TxNames(s, id, w, s.txs[i]);
    }
  }

  lemma SubmitKeepsWallet(hashOf: (RowId, Money) -> nat, s: System, h: nat, a: Await, id: RowId, w: Address)
    requires OneWallet(s, id, w) && h < |s.handlers| && HandlerOk(s, s.handlers[h])
    ensures OneWallet(AdvanceSubmit(hashOf, s, h, a), id, w)
  {
    assert HandlerNames(s, id, w, s.handlers[h]);
    OneWalletFrame(s, AdvanceSubmit(hashOf, s, h, a), id, w);
  }

  lemma FinalizeKeepsWallet(s: System, h: nat, a: Await, id: RowId, w: Address)
    requires OneWallet(s, id, w) && h < |s.handlers|
    ensures OneWallet(AdvanceFinalize(s, h, a), id, w)
  {
    OneWalletFrame(s, AdvanceFinalize(s, h, a), id, w);
  }

  /** Steps of the chain alone: every statement there is now was there before, or credits `w` to a marked row. */
  lemma ChainKeepsWallet(s: System, s': System, id: RowId, w: Address)
    requires OneWallet(s, id, w) && s'.rows == s.rows && s'.handlers == s.handlers
    requires s.world.settlement.EvolvesTo(s'.world.settlement)
    requires OnChain(s', id) && !OnChain(s, id) ==> ChainNames(s', id, w)
    requires |s'.txs| == |s.txs| && forall i :: 0 <= i < |s.txs| ==> s'.txs[i].request == s.txs[i].request
    ensures OneWallet(s', id, w)
  {
    forall h | 0 <= h < |s'.handlers|
      ensures HandlerNames(s', id, w, s'.handlers[h])
    {
      assert HandlerNames(s, id, w, s.handlers[h]);
    }
    forall i | 0 <= i < |s'.txs|
      ensures TxNames(s', id, w, s'.txs[i])
    {
      assert TxNames(s, id, w, s.txs[i]);
    }
  }

  lemma IncludeKeepsWallet(s: System, tx: nat, id: RowId, w: Address)
    requires OneWallet(s, id, w) && Chain.Safe(s.world)
    ensures OneWallet(IncludeTx(s, tx), id, w)
  {
    if tx < |s.txs| && s.txs[tx].state == InFlight {
      var request := s.txs[tx].request;
      assert TxNames(s, id, w, s.txs[tx]);
      if Chain.Apply(s.world, s.service, CallOf(request)).Ok? {
        Chain.CallEvolvesStatements(s.world, s.service, CallOf(request));
      }
      ChainKeepsWallet(s, IncludeTx(s, tx), id, w);
    }
  }

  lemma NextKeepsWallet(hashOf: (RowId, Money) -> nat, s: System, action: Action, id: RowId, w: Address)
    requires Agreement(hashOf, s) && OneWallet(s, id, w) && Permitted(s, action) && RequestNames(action, id, {w})
    ensures OneWallet(Next(hashOf, s, action), id, w)
  {
    match action
    case Advance(h, a) =>
      if h < |s.handlers| {
        SubmitKeepsWallet(hashOf, s, h, a, id, w);
        FinalizeKeepsWallet(s, h, a, id, w);
      }
    case Include(tx) => IncludeKeepsWallet(s, tx, id, w);
    case Outside(step) =>
      Chain.NextEvolvesStatements(s.world, step);
      ChainKeepsWallet(s, Next(hashOf, s, action), id, w);
    case _ => OneWalletFrame(s, Next(hashOf, s, action), id, w);
  }

  /** If all submit requests for a row name one wallet, no interleaving gives row or chain another. */
  lemma {:induction false} EveryRunKeepsWallet(hashOf: (RowId, Money) -> nat, s: System, actions: seq<Action>,
                                               id: RowId, w: Address)
    requires Agreement(hashOf, s) && OneWallet(s, id, w) && PermittedRun(hashOf, s, actions)
    requires RequestsName(actions, id, {w})
    ensures OneWallet(Run(hashOf, s, actions), id, w)
  {
    if actions != [] {
      var n := |actions| - 1;
      FrontIsPermitted(hashOf, s, actions);
      EveryRunKeepsWallet(hashOf, s, actions[..n], id, w);
      EveryRunAgrees(hashOf, s, actions[..n]);
      NextKeepsWallet(hashOf, Run(hashOf, s, actions[..n]), actions[n], id, w);
    }
  }

  // ---------------------------------------------------------------- two wallets

  /** A row is created, finalized, and submitted twice. */
  function Requests(id: RowId, total: Money, winner: Address, loser: Address): seq<Action> {
    [CreateRow(id, total), FinalizeRow(id), RequestSubmit(id, winner), RequestSubmit(id, loser)]
  }

  /** The two handlers take two awaits each, in turns. */
  function InTurns(): seq<Action> {
    [Advance(0, Succeeds), Advance(1, Succeeds), Advance(0, Succeeds), Advance(1, Succeeds)]
  }

  /** Both requests read the row, mark it and send before either is heard of. */
  function TwoSubmissions(id: RowId, total: Money, winner: Address, loser: Address): seq<Action> {
    Requests(id, total, winner, loser) + InTurns() + InTurns()
  }

  lemma {:induction false} RunAppend(hashOf: (RowId, Money) -> nat, s: System, first: seq<Action>, second: seq<Action>)
    ensures Run(hashOf, s, first + second) == Run(hashOf, Run(hashOf, s, first), second)
    decreases |second|
  {
    if second == [] {
      assert first + second == first;
    } else {
      var m := |second| - 1;
      RunAppend(hashOf, s, first, second[..m]);
      assert (first + second)[..|first + second| - 1] == first + second[..m];
    }
  }

  lemma RunFour(hashOf: (RowId, Money) -> nat, s: System, a: Action, b: Action, c: Action, d: Action)
    ensures Run(hashOf, s, [a, b, c, d])
      == Next(hashOf, Next(hashOf, Next(hashOf, Next(hashOf, s, a), b), c), d)
  {
    assert [a, b, c, d][..3] == [a, b, c] && [a, b, c][..2] == [a, b] && [a, b][..1] == [a] && [a][..0] == [];
    assert Run(hashOf, s, []) == s;
    assert Run(hashOf, s, [a]) == Next(hashOf, s, a);
    assert Run(hashOf, s, [a, b]) == Next(hashOf, Next(hashOf, s, a), b);
  }

  /** Where the twelve actions lead: both transactions are in flight, and the row holds the wallet marked last. */
  function BothSent(hashOf: (RowId, Money) -> nat, world: Chain.World, service: Address, id: RowId, total: Money,
                    winner: Address, loser: Address): System
  {
    System(map[id := Row(total, Final, Pending, Some(loser))],
           [SubmitWait(id, 0), SubmitWait(id, 1)],
           [Tx(SubmitTx(id, winner, UsdcUnits(total), hashOf(id, total)), InFlight),
            Tx(SubmitTx(id, loser, UsdcUnits(total), hashOf(id, total)), InFlight)],
           world, service)
  }

  /** Both requests have come in for a finalized row, and neither handler has read it. */
  function BothAsked(world: Chain.World, service: Address, id: RowId, total: Money, winner: Address, loser: Address)
    : System
  {
    System(map[id := Row(total, Final, NotSubmitted, None)], [SubmitRead(id, winner), SubmitRead(id, loser)], [],
           world, service)
  }

  /** Both handlers have read the row and connected, and neither has marked it. */
  function BothRead(world: Chain.World, service: Address, id: RowId, total: Money, winner: Address, loser: Address)
    : System
  {
    BothAsked(world, service, id, total, winner, loser).(
      handlers := [SubmitMark(id, winner, total), SubmitMark(id, loser, total)])
  }

  lemma AskedAndRead(hashOf: (RowId, Money) -> nat, world: Chain.World, service: Address, id: RowId, total: Money,
                     winner: Address, loser: Address)
    ensures Run(hashOf, Started(world, service), Requests(id, total, winner, loser))
      == BothAsked(world, service, id, total, winner, loser)
    ensures Run(hashOf, BothAsked(world, service, id, total, winner, loser), InTurns())
      == BothRead(world, service, id, total, winner, loser)
  {
    var (first, turns) := (Requests(id, total, winner, loser), InTurns());
    RunFour(hashOf, Started(world, service), first[0], first[1], first[2], first[3]);
    RunFour(hashOf, BothAsked(world, service, id, total, winner, loser), turns[0], turns[1], turns[2], turns[3]);
  }

  lemma ReadAndSent(hashOf: (RowId, Money) -> nat, world: Chain.World, service: Address, id: RowId, total: Money,
                    winner: Address, loser: Address)
    ensures Run(hashOf, BothRead(world, service, id, total, winner, loser), InTurns())
      == BothSent(hashOf, world, service, id, total, winner, loser)
  {
    var turns := InTurns();
    RunFour(hashOf, BothRead(world, service, id, total, winner, loser), turns[0], turns[1], turns[2], turns[3]);
  }

  lemma TwoSubmissionsSend(hashOf: (RowId, Money) -> nat, world: Chain.World, service: Address, id: RowId, total: Money,
                           winner: Address, loser: Address)
    ensures Run(hashOf, Started(world, service), TwoSubmissions(id, total, winner, loser))
      == BothSent(hashOf, world, service, id, total, winner, loser)
  {
    var first := Requests(id, total, winner, loser);
    AskedAndRead(hashOf, world, service, id, total, winner, loser);
    ReadAndSent(hashOf, world, service, id, total, winner, loser);
    RunAppend(hashOf, Started(world, service), first, InTurns());
    RunAppend(hashOf, Started(world, service), first + InTurns(), InTurns());
  }

  /** Then the first transaction lands, the second reverts, and both handlers hear of it. */
  function Hearing(): seq<Action> {
    [Include(0), Include(1), Advance(0, Succeeds), Advance(0, Succeeds)] + [Advance(1, Succeeds), Advance(1, Succeeds)]
  }

  lemma OutcomeIsRace(hashOf: (RowId, Money) -> nat, s: System)
    ensures Run(hashOf, s, Hearing()) == Race(hashOf, s, 0, 1, 0)
  {
    var last := [Advance(1, Succeeds), Advance(1, Succeeds)];
    var first := [Include(0), Include(1), Advance(0, Succeeds), Advance(0, Succeeds)];
    RunAppend(hashOf, s, first, last);
    RunFour(hashOf, s, first[0], first[1], first[2], first[3]);
    var mid := Run(hashOf, s, first);
    assert last[..1] == [Advance(1, Succeeds)] && last[..1][..0] == [];
    assert Run(hashOf, mid, last[..1]) == Next(hashOf, mid, Advance(1, Succeeds));
  }

  /** The row is all there is, FAILED and holding `loser`, and its live statement credits `winner`. */
  ghost predicate HoldsLoser(s: System, id: RowId, total: Money, winner: Address, loser: Address) {
    && s.rows == map[id := Row(total, Final, Failed, Some(loser))]
    && s.world.settlement.StatusOf(id) == Settlement.Submitted
    && s.world.settlement.statements[id].supplier == winner
  }

  lemma SentIsLost(hashOf: (RowId, Money) -> nat, world: Chain.World, id: RowId, total: Money, winner: Address,
                   loser: Address)
    requires !world.settlement.paused && world.settlement.StatusOf(id) == Settlement.None_
    requires winner != NO_ADDRESS && total > 0
    ensures var sent := BothSent(hashOf, world, world.settlement.owner, id, total, winner, loser);
      HoldsLoser(Race(hashOf, sent, 0, 1, 0), id, total, winner, loser)
  {
    var sent := BothSent(hashOf, world, world.settlement.owner, id, total, winner, loser);
    RaceLeavesFailedRow(hashOf, sent, 0, 1, 0, id, winner, loser, UsdcUnits(total), hashOf(id, total));
  }

  /**
   From an empty database: two requests for one row that name different wallets can end with the
   row FAILED and holding the one, while its live statement credits the other.
   */
  lemma TwoWalletsDisagree(hashOf: (RowId, Money) -> nat, world: Chain.World, id: RowId, total: Money, winner: Address,
                           loser: Address)
    requires !world.settlement.paused && world.settlement.StatusOf(id) == Settlement.None_
    requires winner != NO_ADDRESS && total > 0
    ensures var actions := TwoSubmissions(id, total, winner, loser) + Hearing();
      HoldsLoser(Run(hashOf, Started(world, world.settlement.owner), actions), id, total, winner, loser)
  {
    var start := Started(world, world.settlement.owner);
    RunAppend(hashOf, start, TwoSubmissions(id, total, winner, loser), Hearing());
    TwoSubmissionsSend(hashOf, world, world.settlement.owner, id, total, winner, loser);
    OutcomeIsRace(hashOf, BothSent(hashOf, world, world.settlement.owner, id, total, winner, loser));
    SentIsLost(hashOf, world, id, total, winner, loser);
  }

  // ---------------------------------------------------------------- exactly when row and chain agree

  /** In every state that requests naming only these wallets can lead to, row and chain agree on the wallet. */
  ghost predicate AlwaysAgrees(hashOf: (RowId, Money) -> nat, start: System, id: RowId, wallets: set<Address>) {
    forall actions :: PermittedRun(hashOf, start, actions) && RequestsName(actions, id, wallets) ==>
      WalletAgrees(Run(hashOf, start, actions), id)
  }

  /**
   The wallet column is sure to be the supplier on chain exactly if no two requests for the row can
   name different wallets.
   */
  lemma WalletAgreesExactly(hashOf: (RowId, Money) -> nat, world: Chain.World, id: RowId, wallets: set<Address>)
    requires Chain.Safe(world) && world.settlement.statements == map[] && !world.settlement.paused
    requires !Chain.IsContract(world, world.settlement.owner)
    ensures AlwaysAgrees(hashOf, Started(world, world.settlement.owner), id, wallets)
      <==> forall a, b :: a in wallets && b in wallets ==> a == b
  {
    var start := Started(world, world.settlement.owner);
    if a, b :| a in wallets && b in wallets && a != b {
      if a != NO_ADDRESS {
        TwoWalletsBreak(hashOf, world, id, wallets, a, b);
      } else {
        TwoWalletsBreak(hashOf, world, id, wallets, b, a);
      }
    } else {
      forall actions | PermittedRun(hashOf, start, actions) && RequestsName(actions, id, wallets)
        ensures WalletAgrees(Run(hashOf, start, actions), id)
      {
        OneWalletAgrees(hashOf, world, id, wallets, actions);
      }
    }
  }

  lemma TwoWalletsBreak(hashOf: (RowId, Money) -> nat, world: Chain.World, id: RowId, wallets: set<Address>,
                        winner: Address, loser: Address)
    requires !world.settlement.paused && world.settlement.StatusOf(id) == Settlement.None_
    requires winner in wallets && loser in wallets && winner != loser && winner != NO_ADDRESS
    ensures !AlwaysAgrees(hashOf, Started(world, world.settlement.owner), id, wallets)
  {
    var actions := TwoSubmissions(id, 1, winner, loser) + Hearing();
    var s := Run(hashOf, Started(world, world.settlement.owner), actions);
    TwoWalletsDisagree(hashOf, world, id, 1, winner, loser);
    assert !WalletAgrees(s, id);
    assert forall i :: 0 <= i < |actions| ==> !actions[i].Outside? && RequestNames(actions[i], id, wallets);
    assert PermittedRun(hashOf, Started(world, world.settlement.owner), actions) && RequestsName(actions, id, wallets);
  }

  /** The converse: where the set has at most one wallet, so have handlers, transactions, row and chain. */
  lemma OneWalletAgrees(hashOf: (RowId, Money) -> nat, world: Chain.World, id: RowId, wallets: set<Address>,
                        actions: seq<Action>)
    requires Chain.Safe(world) && world.settlement.statements == map[]
    requires !Chain.IsContract(world, world.settlement.owner)
    requires forall a, b :: a in wallets && b in wallets ==> a == b
    requires var start := Started(world, world.settlement.owner);
      PermittedRun(hashOf, start, actions) && RequestsName(actions, id, wallets)
    ensures WalletAgrees(Run(hashOf, Started(world, world.settlement.owner), actions), id)
  {
    var w := if wallets == {} then NO_ADDRESS else var w :| w in wallets; w;
    StartAgrees(hashOf, world, world.settlement.owner);
    forall i | 0 <= i < |actions|
      ensures RequestNames(actions[i], id, {w})
    {
      assert RequestNames(actions[i], id, wallets);
    }
    EveryRunKeepsWallet(hashOf, Started(world, world.settlement.owner), actions, id, w);
    assert ChainNames(Run(hashOf, Started(world, world.settlement.owner), actions), id, w);
  }
}
