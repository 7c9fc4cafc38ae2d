/**
 The payment token and what the contracts share: addresses, checked 256-bit arithmetic, and
 calls that either succeed or revert with no change.

 The token is a plain EIP-20 token: no fee on transfer, no hook, no minting.
 */
module Token {
  import opened MapSums
  import opened Wrappers

  type Address = nat

  const NO_ADDRESS: Address := 0

  const MAX_UINT256: nat := 0xFFFF_FFFF_FFFF_FFFF_FFFF_FFFF_FFFF_FFFF_FFFF_FFFF_FFFF_FFFF_FFFF_FFFF_FFFF_FFFF

  type uint256 = n: nat | n <= MAX_UINT256

  datatype Revert =
    | NotOwner
    | EnforcedPause
    | ExpectedPause
    | ArithmeticOverflow
    | TokenBalanceTooLow
    | TokenAllowanceTooLow
    | InvalidReceiver
    | InvalidAddress
    | InvalidAmount
    | InvalidDisputeWindow
    | InsufficientBalance
    | InsufficientPendingAmount
    | ReceiptAlreadyRecorded
    | SettlementContractNotSet
    | NotSettlementContract
    | StatementAlreadyExists
    | StatementNotFound
    | StatementNotSubmitted
    | StatementAlreadyFinalized
    | StatementDisputed
    | NotSupplier
    | DisputeWindowNotPassed
    | DisputeWindowPassed
    | NothingToClaim
    | FeesTooHigh

  type Outcome<T> = Result<T, Revert>

  datatype Token = Token(balances: map<Address, uint256>, allowances: map<(Address, Address), uint256>) {
    /** The supply fits a 256-bit word. */
    ghost predicate Valid() {
      Sum(balances) <= MAX_UINT256
    }

    function BalanceOf(a: Address): uint256 {
      Get(balances, a)
    }

    function Allowance(holder: Address, spender: Address): uint256 {
      Get(allowances, (holder, spender))
    }

    function Move(from: Address, to: Address, amount: uint256): Outcome<Token> {
      if to == NO_ADDRESS then Err(InvalidReceiver)
      else if BalanceOf(from) < amount then Err(TokenBalanceTooLow)
      else
        var debited := balances[from := BalanceOf(from) - amount];
        if Get(debited, to) + amount > MAX_UINT256 then Err(ArithmeticOverflow)
        else Ok(this.(balances := debited[to := Get(debited, to) + amount]))
    }

    function Transfer(caller: Address, to: Address, amount: uint256): Outcome<Token> {
      Move(caller, to, amount)
    }

    function TransferFrom(caller: Address, from: Address, to: Address, amount: uint256): Outcome<Token> {
      if Allowance(from, caller) < amount then Err(TokenAllowanceTooLow)
      else this.(allowances := allowances[(from, caller) := Allowance(from, caller) - amount]).Move(from, to, amount)
    }

    function Approve(caller: Address, spender: Address, amount: uint256): Token {
      this.(allowances := allowances[(caller, spender) := amount])
    }

    /** A move keeps the supply, is refused only for want of funds or receiver, and touches two balances. */
    lemma MoveEffect(from: Address, to: Address, amount: uint256)
      requires Valid()
      ensures var r := Move(from, to, amount);
        && (r.Ok? <==> to != NO_ADDRESS && amount <= BalanceOf(from))
        && (r.Ok? ==>
              var t := r.value;
              && t.Valid() && Sum(t.balances) == Sum(balances) && t.allowances == allowances
              && forall a :: t.BalanceOf(a) ==
                             if from == to then BalanceOf(a)
                             else if a == from then BalanceOf(a) - amount
                             else if a == to then BalanceOf(a) + amount
                             else BalanceOf(a))
    {
      if to != NO_ADDRESS && amount <= BalanceOf(from) {
        var debited := balances[from := BalanceOf(from) - amount];
        SumUpdate(balances, from, BalanceOf(from) - amount);
        GetAtMostSum(debited, to);
        SumUpdate(debited, to, Get(debited, to) + amount);
      }
    }

    /**
     A delegated transfer moves the same balances as a transfer, and spends exactly its amount of
     the one allowance.  It is refused only for want of allowance, receiver or funds.
     */
    lemma TransferFromEffect(caller: Address, from: Address, to: Address, amount: uint256)
      requires Valid()
      ensures var r := TransferFrom(caller, from, to, amount);
        && (r.Ok? <==> amount <= Allowance(from, caller) && to != NO_ADDRESS && amount <= BalanceOf(from))
        && (r.Ok? ==>
              var t := r.value;
              && t.Valid() && Sum(t.balances) == Sum(balances)
              && (forall a :: t.BalanceOf(a) ==
                              if from == to then BalanceOf(a)
                              else if a == from then BalanceOf(a) - amount
                              else if a == to then BalanceOf(a) + amount
                              else BalanceOf(a))
              && (forall h, s :: t.Allowance(h, s) ==
                                 Allowance(h, s) - if h == from && s == caller then amount else 0))
    {
      if amount <= Allowance(from, caller) {
        var spent := this.(allowances := allowances[(from, caller) := Allowance(from, caller) - amount]);
        assert forall a :: spent.BalanceOf(a) == BalanceOf(a);
        spent.MoveEffect(from, to, amount);
      }
    }

    /** An approval sets one allowance and moves nothing. */
    lemma ApproveEffect(caller: Address, spender: Address, amount: uint256)
      ensures var t := Approve(caller, spender, amount);
        && (forall a :: t.BalanceOf(a) == BalanceOf(a))
        && (forall h, s :: t.Allowance(h, s) == if h == caller && s == spender then amount else Allowance(h, s))
    {
    }
  }

  /** The token contract itself, changed in place by each call. */
  class Erc20 {
    var balances: map<Address, uint256>
    var allowances: map<(Address, Address), uint256>

    constructor (holder: Address, supply: uint256)
      ensures State() == Token(map[holder := supply], map[])
    {
      balances := map[holder := supply];
      allowances := map[];
    }

    function State(): Token
      reads this
    {
      Token(balances, allowances)
    }

    method Move(from: Address, to: Address, amount: uint256) returns (r: Outcome<()>)
      modifies this`balances
      ensures match old(State()).Move(from, to, amount)
        case Ok(t) => r == Ok(()) && State() == t
        case Err(e) => r == Err(e) && State() == old(State())
    {
      var before := balances;
      if to == NO_ADDRESS {
        return Err(InvalidReceiver);
      }
      if Get(balances, from) < amount {
        return Err(TokenBalanceTooLow);
      }
      balances := balances[from := Get(balances, from) - amount];
      if Get(balances, to) + amount > MAX_UINT256 {
        balances := before;
        return Err(ArithmeticOverflow);
      }
      balances := balances[to := Get(balances, to) + amount];
      r := Ok(());
    }

    method Transfer(caller: Address, to: Address, amount: uint256) returns (r: Outcome<()>)
      modifies this
      ensures match old(State()).Transfer(caller, to, amount)
        case Ok(t) => r == Ok(()) && State() == t
        case Err(e) => r == Err(e) && State() == old(State())
    {
      r := Move(caller, to, amount);
    }

    method TransferFrom(caller: Address, from: Address, to: Address, amount: uint256) returns (r: Outcome<()>)
      modifies this
      ensures match old(State()).TransferFrom(caller, from, to, amount)
        case Ok(t) => r == Ok(()) && State() == t
        case Err(e) => r == Err(e) && State() == old(State())
    {
      var before := allowances;
      var allowed := Get(allowances, (from, caller));
      if allowed < amount {
        return Err(TokenAllowanceTooLow);
      }
      allowances := allowances[(from, caller) := allowed - amount];
      r := Move(from, to, amount);
      if r.Err? {
        allowances := before;
      }
    }

    method Approve(caller: Address, spender: Address, amount: uint256)
      modifies this
      ensures State() == old(State()).Approve(caller, spender, amount)
    {
      allowances := allowances[(caller, spender) := amount];
    }
  }
}
