/** Why an instruction is refused: the error it reports is true of the accounts. */
module Refusals {
  import opened Arithmetic
  import opened Accounts
  import opened Market
  import opened Invariant
  import opened RoundInvariant
  import opened Claims
  import opened LobbyEffects
  import opened SaleEffects

  lemma DepositRefused(m: State, investor: Pubkey, amount: u64, now: i64) returns (k: nat)
    requires Inv(m) && Deposit(m, investor, amount, now).Err?
    ensures Slot(m.pool, investor, k)
    ensures match Deposit(m, investor, amount, now).error
      case ContractFrozen => m.frozen
      case ZeroAmount => amount == 0
      case InvalidAatNft => investor !in m.nfts
      case ZeroAatAllocation => investor in m.nfts && m.nfts[investor] == 0
      case InvestorPoolFull => k == |m.pool| == 100
      case TokenTransferFailed => m.usdcVault + amount > U64_MAX
      case ArithmeticOverflow => m.lobby + amount > U64_MAX || (m.withdrawLock > 0 && now + m.withdrawLock > I64_MAX)
      case _ => false
  {
    k := SlotOf(m.pool, investor);
    TotalCoversEach(m.pool, BalanceOf);
    if k < |m.pool| {
      assert BalanceOf(m.pool[k]) <= m.lobby;
    }
  }

  lemma WithdrawalRefused(m: State, investor: Pubkey, amount: u64, now: i64) returns (k: nat)
    requires Inv(m) && Withdraw(m, investor, amount, now).Err?
    ensures Slot(m.pool, investor, k)
    ensures match Withdraw(m, investor, amount, now).error
      case ContractFrozen => m.frozen
      case InvalidInvestor => k == |m.pool|
      case UsdcLocked => k < |m.pool| && now < m.pool[k].usdcUnlockTs
      case ZeroAmount => k < |m.pool| && (amount == 0 || (amount == U64_MAX && m.pool[k].usdcDeposited == 0))
      case InsufficientFunds => k < |m.pool| && m.pool[k].usdcDeposited < amount < U64_MAX
      case TokenTransferFailed => k < |m.pool| && m.usdcVault < m.pool[k].usdcDeposited
      case _ => false
  {
    k := SlotOf(m.pool, investor);
    TotalCoversEach(m.pool, BalanceOf);
    if k < |m.pool| {
      assert BalanceOf(m.pool[k]) <= m.lobby;
    }
  }

  lemma RemovalRefused(m: State, investor: Pubkey) returns (k: nat)
    requires Inv(m) && Remove(m, investor).Err?
    ensures Slot(m.pool, investor, k)
    ensures match Remove(m, investor).error
      case InvalidInvestor => k == |m.pool|
      case InvestorNotInactive => k < |m.pool| && (m.pool[k].aatVolume > 0 || m.pool[k].usdcLocked > 0)
      case TokenTransferFailed => k < |m.pool| && m.usdcVault < m.pool[k].usdcDeposited
      case _ => false
  {
    k := SlotOf(m.pool, investor);
    TotalCoversEach(m.pool, BalanceOf);
    if k < |m.pool| {
      assert BalanceOf(m.pool[k]) <= m.lobby;
    }
  }

  lemma MintRefused(m: State, investor: Pubkey, volume: u64)
    requires MintAat(m, investor, volume).Err?
    ensures match MintAat(m, investor, volume).error
      case InvalidParameter => volume == 0
      case ContractFrozen => m.frozen
      case WalnAllocationLimitExceeded => m.totalAat + volume > 1_000_000
      case ArithmeticOverflow => m.totalAat + volume > U64_MAX
      case AccountInUse => investor in m.nfts
      case _ => false
  {
  }

  lemma UpdateRefused(m: State, investor: Pubkey, volume: u64)
    requires Inv(m) && UpdateAat(m, investor, volume).Err?
    ensures match UpdateAat(m, investor, volume).error
      case FundsLocked => m.roundStarted
      case InvalidAatNft => investor !in m.nfts
      case WalnAllocationLimitExceeded => investor in m.nfts && m.totalAat - m.nfts[investor] + volume > 1_000_000
      case ArithmeticOverflow => investor in m.nfts && m.totalAat - m.nfts[investor] + volume > U64_MAX
      case _ => false
  {
    if investor in m.nfts {
      MapSumRemove(m.nfts, investor, Identity);
      MapSumNonNegative(m.nfts - {investor}, Identity);
    }
  }

  /** An account that is there but owes the investor nothing refuses a claim in two ways: the
      investor has no entry, or the entry was paid. */
  lemma ClaimRefused(m: State, investor: Pubkey, round: u64, now: i64)
    requires Inv(m) && Claim(m, investor, round, now).Err?
    ensures match Claim(m, investor, round, now).error
      case AccountMissing => round !in m.rounds
      case ContractFrozen => m.frozen
      case NotYetUnlocked => round in m.rounds && now < m.rounds[round].unlock
      case InvalidInvestor => round in m.rounds && forall i :: 0 <= i < |m.rounds[round].investors| ==> m.rounds[round].investors[i].investor != investor
      case AlreadyClaimed => round in m.rounds && InvestorAlloc(investor, 0) in m.rounds[round].investors
      case _ => false
  {
    if round in m.rounds {
      var allocs := m.rounds[round].investors;
      EntryAmount(allocs, investor);
      var k := IndexOf(AllocKeys(allocs), investor);
      if k < |allocs| {
        assert allocs[k].investor == investor;
        VaultCoversEntry(m, round, k);
      } else {
        forall i | 0 <= i < |allocs|
          ensures allocs[i].investor != investor
        {
          assert AllocKeys(allocs)[i] == allocs[i].investor;
        }
      }
    }
  }

  /** What each error says of a sell of a part of what the round has left. */
  predicate PartError(m: State, maxAmount: u64, error: FloorError) {
    match error
    case ContractFrozen => m.frozen
    case SellPaused => m.sellPaused
    case ZeroAmount => maxAmount * PriceFor(m) / m.scale == 0
    case SellLeavesUnpayableDust => (LeftIn(m) - maxAmount) * PriceFor(m) / m.scale == 0
    case SellAmountTooSmall => m.curWaln == 0 && maxAmount < 1_000_000_000
    case TokenTransferFailed => m.walnVault + maxAmount > U64_MAX || m.usdcVault < maxAmount * PriceFor(m) / m.scale
    case _ => false
  }

  /** Such a sell is refused because sells are stopped, the amount or what it leaves is too
      small, or a vault cannot take or pay it. */
  lemma PartRefused(m: State, maxAmount: u64, now: i64)
    requires Inv(m) && maxAmount < LeftIn(m) && Sell(m, maxAmount, now).Err? && (m.roundStarted || BeginRound(m).Ok?)
    ensures PartError(m, maxAmount, Sell(m, maxAmount, now).error)
  {
    if m.roundStarted {
      RunningPartRefused(m, maxAmount, now);
    } else {
      var open := OpenedBy(m);
      SameSell(m, open, maxAmount, now);
      RunningPartRefused(open, maxAmount, now);
      PartErrorOpened(m, open, maxAmount, Sell(m, maxAmount, now).error);
    }
  }

  lemma PartErrorOpened(m: State, open: State, maxAmount: u64, error: FloorError)
    requires OpenedFrom(m, open) && PartError(open, maxAmount, error)
    ensures PartError(m, maxAmount, error)
  {
  }

  lemma RunningPartRefused(m: State, maxAmount: u64, now: i64)
    requires Inv(m) && maxAmount < LeftIn(m) && Sell(m, maxAmount, now).Err? && m.roundStarted
    ensures PartError(m, maxAmount, Sell(m, maxAmount, now).error)
  {
    ValueSuperadditive(m.curWaln, maxAmount, m.curPrice, m.scale);
    ValueSuperadditive(m.curWaln + maxAmount, m.curSize - m.curWaln - maxAmount, m.curPrice, m.scale);
    ZeroValue(m.curPrice, m.scale);
    if maxAmount > 0 {
      PartTaken(m, maxAmount);
    }
    RefusedBy(m, maxAmount, now);
    if SoldState(m, maxAmount) == Err(Sell(m, maxAmount, now).error) && maxAmount > 0 {
      TakingRefused(m, maxAmount);
    }
  }

  /** A sell that does not fill the round has its error from the switches or from the sale. */
  lemma RefusedBy(m: State, maxAmount: u64, now: i64)
    requires Sell(m, maxAmount, now).Err?
    requires maxAmount > 0 && SoldState(m, maxAmount).Ok? ==> SoldState(m, maxAmount).value.curWaln < SoldState(m, maxAmount).value.curSize
    ensures match Sell(m, maxAmount, now).error
      case ContractFrozen => m.frozen || (maxAmount > 0 && SoldState(m, maxAmount) == Err(ContractFrozen))
      case SellPaused => m.sellPaused || (maxAmount > 0 && SoldState(m, maxAmount) == Err(SellPaused))
      case ZeroAmount => maxAmount == 0 || SoldState(m, maxAmount) == Err(ZeroAmount)
      case error => maxAmount > 0 && SoldState(m, maxAmount) == Err(error)
  {
  }

  lemma TakingRefused(m: State, maxAmount: u64)
    requires Inv(m) && m.roundStarted && 0 < maxAmount < LeftIn(m) && SoldState(m, maxAmount).Err?
    requires m.curSpent + UsdcValue(maxAmount, m.curPrice, m.scale) <= UsdcValue(m.curSize, m.curPrice, m.scale)
    ensures PartError(m, maxAmount, SoldState(m, maxAmount).error)
  {
  }

  lemma ZeroValue(price: nat, scale: nat)
    requires scale > 0
    ensures 0 * price / scale == 0
  {
  }
}
