/** PaymentDistributor.sol: each payment is split between supplier, protocol and gateway. */
module Distributor {
  import opened MapSums
  import opened Token
  import opened Wrappers

  const MAX_TOTAL_FEE_BPS: nat := 1000
  const DEFAULT_PROTOCOL_FEE_BPS: uint256 := 200
  const DEFAULT_GATEWAY_FEE_BPS: uint256 := 50

  /** A fee of `bps` basis points, rounded down. */
  function Fee(amount: nat, bps: nat): nat {
    amount * bps / 10_000
  }

  datatype Split = Split(supplier: uint256, protocol: uint256, gateway: uint256)

  datatype Distributor = Distributor(
    self: Address,
    owner: Address,
    paused: bool,
    treasury: Address,
    protocolFeeBps: uint256,
    gatewayFeeBps: uint256,
    protocolFees: uint256,
    gatewayFees: map<Address, uint256>)
  {
    function CalculateFees(total: uint256): Outcome<Split> {
      if total * protocolFeeBps > MAX_UINT256 || total * gatewayFeeBps > MAX_UINT256 then Err(ArithmeticOverflow)
      else
        var protocol, gateway := Fee(total, protocolFeeBps), Fee(total, gatewayFeeBps);
        if protocol + gateway > total then Err(ArithmeticOverflow)
        else Ok(Split(total - protocol - gateway, protocol, gateway))
    }

    function Distribute(t: Token, caller: Address, supplier: Address, total: uint256, gateway: Address)
      : Outcome<(Distributor, Token)>
    {
      if paused then Err(EnforcedPause)
      else if supplier == NO_ADDRESS then Err(InvalidAddress)
      else if total == 0 then Err(InvalidAmount)
      else
        match CalculateFees(total)
        case Err(e) => Err(e)
        case Ok(split) =>
          match t.TransferFrom(self, caller, self, total)
          case Err(e) => Err(e)
          case Ok(received) =>
            match received.Transfer(self, supplier, split.supplier)
            case Err(e) => Err(e)
            case Ok(t') =>
              match Accrue(split, gateway)
              case Err(e) => Err(e)
              case Ok(d) => Ok((d, t'))
    }

    /** Both fees go to the protocol when there is no gateway or no gateway fee. */
    function Accrue(split: Split, gateway: Address): Outcome<Distributor> {
      if gateway != NO_ADDRESS && split.gateway > 0 then
        if protocolFees + split.protocol > MAX_UINT256 || Get(gatewayFees, gateway) + split.gateway > MAX_UINT256
        then Err(ArithmeticOverflow)
        else Ok(this.(
          protocolFees := protocolFees + split.protocol,
          gatewayFees := gatewayFees[gateway := Get(gatewayFees, gateway) + split.gateway]))
      else if protocolFees + split.protocol + split.gateway > MAX_UINT256 then Err(ArithmeticOverflow)
      else Ok(this.(protocolFees := protocolFees + split.protocol + split.gateway))
    }

    function SetFees(caller: Address, protocol: uint256, gateway: uint256): Outcome<Distributor> {
      if caller != owner then Err(NotOwner)
      else if protocol + gateway > MAX_UINT256 then Err(ArithmeticOverflow)
      else if protocol + gateway > MAX_TOTAL_FEE_BPS then Err(FeesTooHigh)
      else Ok(this.(protocolFeeBps := protocol, gatewayFeeBps := gateway))
    }

    function SetProtocolTreasury(caller: Address, treasury': Address): Outcome<Distributor> {
      if caller != owner then Err(NotOwner)
      else if treasury' == NO_ADDRESS then Err(InvalidAddress)
      else Ok(this.(treasury := treasury'))
    }

    function ClaimProtocolFees(t: Token): Outcome<(Distributor, Token)> {
      if protocolFees == 0 then Err(NothingToClaim)
      else
        match t.Transfer(self, treasury, protocolFees)
        case Err(e) => Err(e)
        case Ok(t') => Ok((this.(protocolFees := 0), t'))
    }

    function ClaimGatewayFees(t: Token, caller: Address): Outcome<(Distributor, Token)> {
      if Get(gatewayFees, caller) == 0 then Err(NothingToClaim)
      else
        match t.Transfer(self, caller, Get(gatewayFees, caller))
        case Err(e) => Err(e)
        case Ok(t') => Ok((this.(gatewayFees := gatewayFees[caller := 0]), t'))
    }

    function SetPaused(caller: Address, paused': bool): Outcome<Distributor> {
      if caller != owner then Err(NotOwner)
      else if paused == paused' then Err(if paused then EnforcedPause else ExpectedPause)
      else Ok(this.(paused := paused'))
    }

    // -------------------------------------------------------------- invariants

    ghost predicate RatesCapped() {
      protocolFeeBps + gatewayFeeBps <= MAX_TOTAL_FEE_BPS && treasury != NO_ADDRESS
    }

    /** The contract holds every fee it has accumulated. */
    ghost predicate Solvent(t: Token) {
      protocolFees + Sum(gatewayFees) <= t.BalanceOf(self)
    }

    /** With capped rates a split fails only by overflow, adds up, and leaves the supplier nine tenths. */
    lemma SplitAddsUp(total: uint256)
      requires RatesCapped()
      ensures total * MAX_TOTAL_FEE_BPS <= MAX_UINT256 ==> CalculateFees(total).Ok?
      ensures CalculateFees(total).Ok? ==>
        var split := CalculateFees(total).value;
        split.supplier + split.protocol + split.gateway == total && 10 * split.supplier >= 9 * total
    {
      var p, g := protocolFeeBps, gatewayFeeBps;
      assert total * p + total * g == total * (p + g);
      Scale(total, p, MAX_TOTAL_FEE_BPS);
      Scale(total, g, MAX_TOTAL_FEE_BPS);
      Scale(total, p + g, MAX_TOTAL_FEE_BPS);
    }

    /** Each fee is its own rate's share of the payment, rounded down to a whole unit. */
    lemma FeesAreShares(total: uint256)
      requires CalculateFees(total).Ok?
      ensures var split := CalculateFees(total).value;
        && 10_000 * split.protocol <= total * protocolFeeBps < 10_000 * (split.protocol + 1)
        && 10_000 * split.gateway <= total * gatewayFeeBps < 10_000 * (split.gateway + 1)
    {
    }

    /** What a payment books: each rate's share, to the protocol and to the gateway if there is one. */
    lemma DistributeBooks(t: Token, caller: Address, supplier: Address, total: uint256, gateway: Address)
      requires Distribute(t, caller, supplier, total, gateway).Ok?
      ensures var d := Distribute(t, caller, supplier, total, gateway).value.0;
        var (p, g) := (total * protocolFeeBps / 10_000, total * gatewayFeeBps / 10_000);
        && d == this.(protocolFees := d.protocolFees, gatewayFees := d.gatewayFees)
        && d.protocolFees == protocolFees + p + (if gateway == NO_ADDRESS then g else 0)
        && (forall a :: Get(d.gatewayFees, a) == Get(gatewayFees, a) + if a == gateway && a != NO_ADDRESS then g else 0)
    {
    }

    /** A payment with the contract's rates: who pays and who receives what. */
    lemma DistributeEffect(t: Token, caller: Address, supplier: Address, total: uint256, gateway: Address)
      requires t.Valid() && RatesCapped() && caller != self
      requires Distribute(t, caller, supplier, total, gateway).Ok?
      ensures var (d, t') := Distribute(t, caller, supplier, total, gateway).value;
        var (p, g) := (total * protocolFeeBps / 10_000, total * gatewayFeeBps / 10_000);
        && !paused && supplier != NO_ADDRESS && total > 0 && p + g <= total
        && (supplier != self && supplier != caller ==>
              && t'.BalanceOf(caller) == t.BalanceOf(caller) - total
              && t'.BalanceOf(supplier) == t.BalanceOf(supplier) + total - p - g
              && t'.BalanceOf(self) == t.BalanceOf(self) + p + g)
    {
      var split := CalculateFees(total).value;
      SplitAddsUp(total);
      t.TransferFromEffect(self, caller, self, total);
      var received := t.TransferFrom(self, caller, self, total).value;
      received.MoveEffect(self, supplier, split.supplier);
    }

    /** A payment is refused exactly when paused, without supplier or amount, unfunded, or by overflow. */
    lemma DistributeSucceeds(t: Token, caller: Address, supplier: Address, total: uint256, gateway: Address)
      requires t.Valid() && RatesCapped() && caller != self && supplier != self && supplier != caller
      ensures var (p, g) := (total * protocolFeeBps / 10_000, total * gatewayFeeBps / 10_000);
        Distribute(t, caller, supplier, total, gateway).Ok? <==>
        && !paused && supplier != NO_ADDRESS && total > 0 && self != NO_ADDRESS
        && total * protocolFeeBps <= MAX_UINT256 && total * gatewayFeeBps <= MAX_UINT256
        && total <= t.Allowance(caller, self) && total <= t.BalanceOf(caller)
        && protocolFees + p + (if gateway == NO_ADDRESS then g else 0) <= MAX_UINT256
        && (gateway != NO_ADDRESS ==> Get(gatewayFees, gateway) + g <= MAX_UINT256)
    {
      var (p, g) := (total * protocolFeeBps / 10_000, total * gatewayFeeBps / 10_000);
      if CalculateFees(total).Ok? {
        SplitAddsUp(total);
        t.TransferFromEffect(self, caller, self, total);
        if t.TransferFrom(self, caller, self, total).Ok? {
          var received := t.TransferFrom(self, caller, self, total).value;
          received.MoveEffect(self, supplier, CalculateFees(total).value.supplier);
        }
      } else {
        SharesFit(total);
      }
    }

    lemma SharesFit(total: uint256)
      requires RatesCapped()
      ensures total * protocolFeeBps / 10_000 + total * gatewayFeeBps / 10_000 <= total
    {
      var p, g := protocolFeeBps, gatewayFeeBps;
      assert total * p + total * g == total * (p + g);
      Scale(total, p + g, MAX_TOTAL_FEE_BPS);
    }

    /** The owner sets each rate, up to a tenth together; the next payment is split by them. */
    lemma SetFeesEffect(caller: Address, protocol: uint256, gateway: uint256, total: uint256)
      ensures SetFees(caller, protocol, gateway).Ok? <==> caller == owner && protocol + gateway <= 1000
      ensures SetFees(caller, protocol, gateway).Ok? ==>
        var d := SetFees(caller, protocol, gateway).value;
        && d == Distributor(self, owner, paused, treasury, protocol, gateway, protocolFees, gatewayFees)
        && (d.CalculateFees(total).Ok? ==>
              d.CalculateFees(total).value.protocol == total * protocol / 10_000
              && d.CalculateFees(total).value.gateway == total * gateway / 10_000)
      ensures caller == owner && 1000 < protocol + gateway <= MAX_UINT256 ==>
        SetFees(caller, protocol, gateway) == Err(FeesTooHigh)
    {
    }

    /** Fees are paid out whole: the protocol's to the treasury, a gateway's to the gateway. */
    lemma ClaimFeesEffect(t: Token, caller: Address)
      requires t.Valid()
      ensures ClaimProtocolFees(t).Ok? <==> treasury != NO_ADDRESS && 0 < protocolFees <= t.BalanceOf(self)
      ensures ClaimProtocolFees(t).Ok? ==>
        var (d, t') := ClaimProtocolFees(t).value;
        && d == Distributor(self, owner, paused, treasury, protocolFeeBps, gatewayFeeBps, 0, gatewayFees)
        && (treasury != self ==> t'.BalanceOf(treasury) == t.BalanceOf(treasury) + protocolFees)
      ensures var due := Get(gatewayFees, caller);
        && (ClaimGatewayFees(t, caller).Ok? <==> caller != NO_ADDRESS && 0 < due <= t.BalanceOf(self))
        && (ClaimGatewayFees(t, caller).Ok? ==>
              var (d, t') := ClaimGatewayFees(t, caller).value;
              && d == this.(gatewayFees := d.gatewayFees)
              && (forall a :: Get(d.gatewayFees, a) == if a == caller then 0 else Get(gatewayFees, a))
              && (caller != self ==> t'.BalanceOf(caller) == t.BalanceOf(caller) + due))
    {
      t.MoveEffect(self, treasury, protocolFees);
      t.MoveEffect(self, caller, Get(gatewayFees, caller));
    }

    /** The owner alone moves the treasury and pauses, and changes nothing else by it. */
    lemma AdminEffect(caller: Address, treasury': Address, paused': bool)
      ensures SetProtocolTreasury(caller, treasury') ==
        if caller != owner then Err(NotOwner)
        else if treasury' == NO_ADDRESS then Err(InvalidAddress)
        else Ok(Distributor(self, owner, paused, treasury', protocolFeeBps, gatewayFeeBps, protocolFees, gatewayFees))
      ensures SetPaused(caller, paused').Ok? <==> caller == owner && paused' != paused
      ensures SetPaused(caller, paused').Ok? ==>
        SetPaused(caller, paused').value ==
          Distributor(self, owner, !paused, treasury, protocolFeeBps, gatewayFeeBps, protocolFees, gatewayFees)
    {
    }

    /** Where the fees of a payment go: to their own accounts, or both to the protocol; nobody else's change. */
    lemma AccrueEffect(split: Split, gateway: Address)
      requires Accrue(split, gateway).Ok?
      ensures var d := Accrue(split, gateway).value;
        && d == this.(protocolFees := d.protocolFees, gatewayFees := d.gatewayFees)
        && d.protocolFees + Sum(d.gatewayFees) == protocolFees + Sum(gatewayFees) + split.protocol + split.gateway
        && (forall a ::
          Get(d.gatewayFees, a) == Get(gatewayFees, a) + if a == gateway && a != NO_ADDRESS then split.gateway else 0)
    {
      SumUpdate(gatewayFees, gateway, Get(gatewayFees, gateway) + split.gateway);
    }

    /**
     A payment is conserved: what reaches the supplier and what the contract books as fees is what
     the caller paid.
     */
    lemma DistributeConserves(t: Token, caller: Address, supplier: Address, total: uint256, gateway: Address)
      requires t.Valid() && RatesCapped() && caller != self
      requires Distribute(t, caller, supplier, total, gateway).Ok?
      ensures var (d, t') := Distribute(t, caller, supplier, total, gateway).value;
        && t'.Valid()
        && (supplier != self ==>
              t'.BalanceOf(self) - t.BalanceOf(self)
                == d.protocolFees + Sum(d.gatewayFees) - protocolFees - Sum(gatewayFees))
        && (supplier != self && supplier != caller ==>
              && t.BalanceOf(caller) - t'.BalanceOf(caller) == total
              && 10 * (t'.BalanceOf(supplier) - t.BalanceOf(supplier)) >= 9 * total
              && t'.BalanceOf(supplier) - t.BalanceOf(supplier) + t'.BalanceOf(self) - t.BalanceOf(self) == total)
    {
      var split := CalculateFees(total).value;
      SplitAddsUp(total);
      t.TransferFromEffect(self, caller, self, total);
      var received := t.TransferFrom(self, caller, self, total).value;
      received.MoveEffect(self, supplier, split.supplier);
      AccrueEffect(split, gateway);
    }

    lemma DistributeKeepsSolvency(t: Token, caller: Address, supplier: Address, total: uint256, gateway: Address)
      requires t.Valid() && Solvent(t) && RatesCapped() && caller != self
      requires Distribute(t, caller, supplier, total, gateway).Ok?
      ensures var (d, t') := Distribute(t, caller, supplier, total, gateway).value;
        d.Solvent(t') && d.RatesCapped() && t'.Valid()
    {
      var split := CalculateFees(total).value;
      SplitAddsUp(total);
      t.TransferFromEffect(self, caller, self, total);
      var received := t.TransferFrom(self, caller, self, total).value;
      received.MoveEffect(self, supplier, split.supplier);
      AccrueEffect(split, gateway);
    }

    /** A payment is paid by its caller alone. */
    lemma DistributeIsPaidByCaller(t: Token, caller: Address, supplier: Address, total: uint256, gateway: Address)
      requires t.Valid() && caller != self
      requires Distribute(t, caller, supplier, total, gateway).Ok?
      ensures var t' := Distribute(t, caller, supplier, total, gateway).value.1;
        && (forall a :: a != caller ==> t'.BalanceOf(a) >= t.BalanceOf(a))
        && (forall h, s :: t'.Allowance(h, s) <= t.Allowance(h, s))
    {
      var received := t.TransferFrom(self, caller, self, total).value;
      t.TransferFromEffect(self, caller, self, total);
      received.MoveEffect(self, supplier, CalculateFees(total).value.supplier);
    }

    lemma DistributeKeepsSupply(t: Token, caller: Address, supplier: Address, total: uint256, gateway: Address)
      requires t.Valid() && Distribute(t, caller, supplier, total, gateway).Ok?
      ensures var t' := Distribute(t, caller, supplier, total, gateway).value.1;
        t'.Valid() && Sum(t'.balances) == Sum(t.balances)
    {
      t.TransferFromEffect(self, caller, self, total);
      var received := t.TransferFrom(self, caller, self, total).value;
      received.MoveEffect(self, supplier, CalculateFees(total).value.supplier);
    }

    lemma ClaimsKeepSolvency(t: Token, caller: Address)
      requires t.Valid() && Solvent(t)
      ensures ClaimProtocolFees(t).Ok? ==> var (d, t') := ClaimProtocolFees(t).value; d.Solvent(t')
      ensures ClaimGatewayFees(t, caller).Ok? ==> var (d, t') := ClaimGatewayFees(t, caller).value; d.Solvent(t')
      ensures ClaimProtocolFees(t).Ok? && treasury != self ==>
        ClaimProtocolFees(t).value.1.BalanceOf(treasury) == t.BalanceOf(treasury) + protocolFees
      ensures ClaimGatewayFees(t, caller).Ok? && caller != self ==>
        ClaimGatewayFees(t, caller).value.1.BalanceOf(caller) == t.BalanceOf(caller) + Get(gatewayFees, caller)
      ensures treasury != NO_ADDRESS && protocolFees > 0 ==> ClaimProtocolFees(t).Ok?
      ensures caller != NO_ADDRESS && Get(gatewayFees, caller) > 0 ==> ClaimGatewayFees(t, caller).Ok?
    {
      t.MoveEffect(self, treasury, protocolFees);
      t.MoveEffect(self, caller, Get(gatewayFees, caller));
      SumUpdate(gatewayFees, caller, 0);
      GetAtMostSum(gatewayFees, caller);
    }
  }

  lemma Scale(a: nat, x: nat, y: nat)
    requires x <= y
    ensures a * x <= a * y
  {
  }

  // ---------------------------------------------------------------- paying in parts

  function PartsSum(parts: seq<nat>): nat {
    if parts == [] then 0 else PartsSum(parts[1..]) + parts[0]
  }

  function PartsFee(parts: seq<nat>, bps: nat): nat {
    if parts == [] then 0 else PartsFee(parts[1..], bps) + Fee(parts[0], bps)
  }

  /** Splitting a payment into `n` parts never raises a fee, and lowers it by less than `n` units. */
  lemma {:induction false} PartsFeeBounds(parts: seq<nat>, bps: nat)
    ensures PartsFee(parts, bps) <= Fee(PartsSum(parts), bps)
    ensures parts != [] ==> Fee(PartsSum(parts), bps) < PartsFee(parts, bps) + |parts|
  {
    if parts != [] {
      PartsFeeBounds(parts[1..], bps);
      var rest, first := PartsSum(parts[1..]), parts[0];
      FloorSum(rest * bps, first * bps);
      assert (rest + first) * bps == rest * bps + first * bps;
    }
  }

  lemma FloorSum(x: nat, y: nat)
    ensures x / 10_000 + y / 10_000 <= (x + y) / 10_000 <= x / 10_000 + y / 10_000 + 1
  {
  }

  // ---------------------------------------------------------------- the contract in place

  class PaymentDistributor {
    const paymentToken: Erc20
    const self: Address
    var owner: Address
    var paused: bool
    var protocolTreasury: Address
    var protocolFeeBps: uint256
    var gatewayFeeBps: uint256
    var accumulatedProtocolFees: uint256
    var accumulatedGatewayFees: map<Address, uint256>

    /** The fields a deployment sets; `Deploy` has the guard. */
    constructor (self: Address, paymentToken: Erc20, treasury: Address, initialOwner: Address)
      ensures this.paymentToken == paymentToken
      ensures State() == Distributor(self, initialOwner, false, treasury, 200, 50, 0, map[])
    {
      this.self := self;
      this.paymentToken := paymentToken;
      owner := initialOwner;
      paused := false;
      protocolTreasury := treasury;
      protocolFeeBps := DEFAULT_PROTOCOL_FEE_BPS;
      gatewayFeeBps := DEFAULT_GATEWAY_FEE_BPS;
      accumulatedProtocolFees := 0;
      accumulatedGatewayFees := map[];
    }

    /** A deployment without a treasury reverts. */
    static method Deploy(self: Address, paymentToken: Erc20, treasury: Address, initialOwner: Address)
      returns (r: Outcome<PaymentDistributor>)
      ensures treasury == NO_ADDRESS ==> r == Err(InvalidAddress)
      ensures treasury != NO_ADDRESS ==>
        && r.Ok? && fresh(r.value) && r.value.paymentToken == paymentToken && r.value.State().RatesCapped()
        && r.value.State() ==
           Distributor(self, initialOwner, false, treasury, 200, 50, 0, map[])
    {
      if treasury == NO_ADDRESS {
        return Err(InvalidAddress);
      }
      var contract := new PaymentDistributor(self, paymentToken, treasury, initialOwner);
      r := Ok(contract);
    }

    function State(): Distributor
      reads this
    {
      Distributor(self, owner, paused, protocolTreasury, protocolFeeBps, gatewayFeeBps, accumulatedProtocolFees,
        accumulatedGatewayFees)
    }

    method Distribute(caller: Address, supplier: Address, total: uint256, gateway: Address) returns (r: Outcome<()>)
      modifies this, paymentToken
      ensures match old(State()).Distribute(old(paymentToken.State()), caller, supplier, total, gateway)
        case Ok((d, t)) => r == Ok(()) && State() == d && paymentToken.State() == t
        case Err(e) => r == Err(e) && State() == old(State()) && paymentToken.State() == old(paymentToken.State())
    {
      if paused {
        return Err(EnforcedPause);
      }
      if supplier == NO_ADDRESS {
        return Err(InvalidAddress);
      }
      if total == 0 {
        return Err(InvalidAmount);
      }
      var fees := State().CalculateFees(total);
      if fees.Err? {
        return Err(fees.error);
      }
      var balances, allowances := paymentToken.balances, paymentToken.allowances;
      r := paymentToken.TransferFrom(self, caller, self, total);
      if r.Err? {
        return;
      }
      r := paymentToken.Transfer(self, supplier, fees.value.supplier);
      if r.Ok? {
        r := AccrueFees(fees.value, gateway);
      }
      if r.Err? {
        // a revert undoes every transfer made so far
        paymentToken.balances, paymentToken.allowances := balances, allowances;
      }
    }

    method AccrueFees(split: Split, gateway: Address) returns (r: Outcome<()>)
      modifies this
      ensures match old(State()).Accrue(split, gateway)
        case Ok(d) => r == Ok(()) && State() == d
        case Err(e) => r == Err(e) && State() == old(State())
    {
      var before := accumulatedProtocolFees;
      if accumulatedProtocolFees + split.protocol > MAX_UINT256 {
        return Err(ArithmeticOverflow);
      }
      accumulatedProtocolFees := accumulatedProtocolFees + split.protocol;
      if gateway != NO_ADDRESS && split.gateway > 0 {
        if Get(accumulatedGatewayFees, gateway) + split.gateway > MAX_UINT256 {
          accumulatedProtocolFees := before;
          return Err(ArithmeticOverflow);
        }
        accumulatedGatewayFees :=
          accumulatedGatewayFees[gateway := Get(accumulatedGatewayFees, gateway) + split.gateway];
      } else {
        if accumulatedProtocolFees + split.gateway > MAX_UINT256 {
          accumulatedProtocolFees := before;
          return Err(ArithmeticOverflow);
        }
        accumulatedProtocolFees := accumulatedProtocolFees + split.gateway;
      }
      r := Ok(());
    }

    method SetFees(caller: Address, protocol: uint256, gateway: uint256) returns (r: Outcome<()>)
      modifies this
      ensures match old(State()).SetFees(caller, protocol, gateway)
        case Ok(d) => r == Ok(()) && State() == d && d.protocolFeeBps + d.gatewayFeeBps <= MAX_TOTAL_FEE_BPS
        case Err(e) => r == Err(e) && State() == old(State())
    {
      if caller != owner {
        return Err(NotOwner);
      }
      if protocol + gateway > MAX_UINT256 {
        return Err(ArithmeticOverflow);
      }
      if protocol + gateway > MAX_TOTAL_FEE_BPS {
        return Err(FeesTooHigh);
      }
      protocolFeeBps, gatewayFeeBps := protocol, gateway;
      r := Ok(());
    }

    method SetProtocolTreasury(caller: Address, treasury: Address) returns (r: Outcome<()>)
      modifies this
      ensures match old(State()).SetProtocolTreasury(caller, treasury)
        case Ok(d) => r == Ok(()) && State() == d
        case Err(e) => r == Err(e) && State() == old(State())
    {
      if caller != owner {
        return Err(NotOwner);
      }
      if treasury == NO_ADDRESS {
        return Err(InvalidAddress);
      }
      protocolTreasury := treasury;
      r := Ok(());
    }

    /** `pause` and `unpause`. */
    method SetPaused(caller: Address, paused': bool) returns (r: Outcome<()>)
      modifies this
      ensures match old(State()).SetPaused(caller, paused')
        case Ok(d) => r == Ok(()) && State() == d
        case Err(e) => r == Err(e) && State() == old(State())
    {
      if caller != owner {
        return Err(NotOwner);
      }
      if paused == paused' {
        return Err(if paused then EnforcedPause else ExpectedPause);
      }
      paused := paused';
      r := Ok(());
    }

    method ClaimProtocolFees() returns (r: Outcome<()>)
      modifies this, paymentToken
      ensures match old(State()).ClaimProtocolFees(old(paymentToken.State()))
        case Ok((d, t)) => r == Ok(()) && State() == d && paymentToken.State() == t
        case Err(e) => r == Err(e) && State() == old(State()) && paymentToken.State() == old(paymentToken.State())
    {
      var amount := accumulatedProtocolFees;
      if amount == 0 {
        return Err(NothingToClaim);
      }
      accumulatedProtocolFees := 0;
      r := paymentToken.Transfer(self, protocolTreasury, amount);
      if r.Err? {
        accumulatedProtocolFees := amount;
      }
    }

    method ClaimGatewayFees(caller: Address) returns (r: Outcome<()>)
      modifies this, paymentToken
      ensures match old(State()).ClaimGatewayFees(old(paymentToken.State()), caller)
        case Ok((d, t)) => r == Ok(()) && State() == d && paymentToken.State() == t
        case Err(e) => r == Err(e) && State() == old(State()) && paymentToken.State() == old(paymentToken.State())
    {
      var before := accumulatedGatewayFees;
      var amount := Get(accumulatedGatewayFees, caller);
      if amount == 0 {
        return Err(NothingToClaim);
      }
      accumulatedGatewayFees := accumulatedGatewayFees[caller := 0];
      r := paymentToken.Transfer(self, caller, amount);
      if r.Err? {
        accumulatedGatewayFees := before;
      }
    }
  }
}
