/** The program as it runs: accounts updated in place by its instructions, each executed
    as a transaction that is rolled back when it fails. */
module Program {
  import opened Arithmetic
  import opened Accounts
  import opened StartRound
  import opened Settlement
  import opened ForcedSettlement
  import Market
  import Invariant
  import Claims
  import Conservation

  class FloorProgram {
    const scale: Scale
    const investors: array<InvestorRecord>
    var count: nat
    var floorPrice: u64
    var roundSize: u64
    var lockPeriod: i64
    var withdrawLock: i64
    var sellPaused: bool
    var frozen: bool
    var roundStarted: bool
    var roundCount: u64
    var curPrice: u64
    var curSize: u64
    var curLockPeriod: i64
    var curWaln: u64
    var curSpent: u64
    var lobby: u64
    var totalLocked: u64
    var totalAat: u64
    var carryover: u64
    var nfts: map<Pubkey, u64>
    var rounds: map<nat, RoundLockedWaln>
    var records: map<nat, RoundRecord>
    var usdcVault: u64
    var walnVault: u64

    /** The pool array has its fixed capacity, of which the first `count` slots are used. */
    ghost predicate Shape()
      reads this
    {
      investors.Length == MAX_INVESTORS && count <= MAX_INVESTORS
    }

    /** The accounts as one value. */
    function View(): Market.State
      requires Shape()
      reads this, investors
    {
      Market.State(
        scale, floorPrice, roundSize, lockPeriod, withdrawLock, sellPaused, frozen,
        roundStarted, roundCount, curPrice, curSize, curLockPeriod, curWaln, curSpent,
        lobby, totalLocked, totalAat, carryover,
        investors[..count], nfts, rounds, records, usdcVault, walnVault)
    }

    /** An instruction did what the step on the accounts' value says. The accounts are left
        unspecified when it failed: the transaction around it is rolled back. */
    ghost predicate Follows(r: Result<()>, step: Result<Market.State>)
      reads this, investors
    {
      Shape() &&
      match step
      case Ok(n) => r.Ok? && View() == n
      case Err(e) => r == Err(e)
    }

    ghost predicate Valid()
      reads this, investors
    {
      Shape() && Invariant.Inv(View())
    }

    /** A program initialized with viable parameters. */
    constructor (price: u64, size: u64, lockPeriod: i64, scale: Scale)
      requires Market.Initialize(price, size, lockPeriod, scale).Ok?
      ensures Valid() && Market.Initialize(price, size, lockPeriod, scale) == Ok(View())
      ensures fresh(investors)
    {
      this.scale := scale;
      investors := new InvestorRecord[MAX_INVESTORS](_ => Market.NewRecord(0));
      count := 0;
      floorPrice, curPrice := price, price;
      roundSize, curSize := size, size;
      this.lockPeriod, curLockPeriod, withdrawLock := lockPeriod, lockPeriod, 0;
      sellPaused, frozen, roundStarted := false, false, false;
      roundCount, curWaln, curSpent := 0, 0, 0;
      lobby, totalLocked, totalAat, carryover := 0, 0, 0, 0;
      nfts, rounds, records := map[], map[], map[];
      usdcVault, walnVault := 0, 0;
      new;
      assert investors[..0] == [];
      Invariant.InitializeEstablishes(price, size, lockPeriod, scale);
    }

    // ---------- transactions ----------

    /** Puts the pool back to a saved value. */
    method RestorePool(saved: seq<InvestorRecord>)
      requires Shape() && |saved| <= MAX_INVESTORS
      modifies this`count, investors
      ensures Shape() && investors[..count] == saved
    {
      count := |saved|;
      for i := 0 to count
        invariant Shape() && count == |saved|
        invariant forall j :: 0 <= j < i ==> investors[j] == saved[j]
      {
        investors[i] := saved[i];
      }
      assert investors[..count] == saved;
    }

    /** Puts every account back to a saved value. */
    method Restore(saved: Market.State)
      requires Shape() && saved.scale == scale && |saved.pool| <= MAX_INVESTORS
      modifies this, investors
      ensures Shape() && View() == saved
    {
      RestorePool(saved.pool);
      RestoreSettings(saved);
      RestoreCounters(saved);
      nfts, rounds, records := saved.nfts, saved.rounds, saved.records;
    }

    method RestoreSettings(saved: Market.State)
      modifies this`floorPrice, this`roundSize, this`lockPeriod, this`withdrawLock, this`sellPaused, this`frozen
      modifies this`curPrice, this`curSize, this`curLockPeriod
      ensures floorPrice == saved.floorPrice && roundSize == saved.roundSize && lockPeriod == saved.lockPeriod
      ensures withdrawLock == saved.withdrawLock && sellPaused == saved.sellPaused && frozen == saved.frozen
      ensures curPrice == saved.curPrice && curSize == saved.curSize && curLockPeriod == saved.curLockPeriod
    {
      floorPrice, roundSize, lockPeriod, withdrawLock := saved.floorPrice, saved.roundSize, saved.lockPeriod, saved.withdrawLock;
      sellPaused, frozen := saved.sellPaused, saved.frozen;
      curPrice, curSize, curLockPeriod := saved.curPrice, saved.curSize, saved.curLockPeriod;
    }

    method RestoreCounters(saved: Market.State)
      modifies this`roundStarted, this`roundCount, this`curWaln, this`curSpent, this`lobby, this`totalLocked, this`totalAat
      modifies this`carryover, this`usdcVault, this`walnVault
      ensures roundStarted == saved.roundStarted && roundCount == saved.roundCount
      ensures curWaln == saved.curWaln && curSpent == saved.curSpent && carryover == saved.carryover
      ensures lobby == saved.lobby && totalLocked == saved.totalLocked && totalAat == saved.totalAat
      ensures usdcVault == saved.usdcVault && walnVault == saved.walnVault
    {
      roundStarted, roundCount := saved.roundStarted, saved.roundCount;
      curWaln, curSpent, carryover := saved.curWaln, saved.curSpent, saved.carryover;
      lobby, totalLocked, totalAat := saved.lobby, saved.totalLocked, saved.totalAat;
      usdcVault, walnVault := saved.usdcVault, saved.walnVault;
    }

    // ---------- single updates ----------

    method SetRecord(k: nat, record: InvestorRecord)
      requires Shape() && k < count
      modifies investors
      ensures View() == old(View()).(pool := old(View()).pool[k := record])
    {
      investors[k] := record;
      assert investors[..count] == old(investors[..count])[k := record];
    }

    /** Pays USDC of the lobby out of the vault. */
    method ReleaseUsdc(amount: u64)
      requires Shape() && amount <= usdcVault && amount <= lobby
      modifies this`usdcVault, this`lobby
      ensures View() == old(View()).(lobby := old(lobby) - amount, usdcVault := old(usdcVault) - amount)
    {
      usdcVault := usdcVault - amount;
      lobby := lobby - amount;
    }

    /** Moves the last record into the freed slot. */
    method DropSlot(k: nat)
      requires Shape() && k < count
      modifies this`count, investors
      ensures Shape() && View() == old(View()).(pool := SwapRemove(old(View()).pool, k))
    {
      var last := count - 1;
      investors[k] := investors[last];
      investors[last] := Market.NewRecord(0);
      count := last;
      assert investors[..count] == SwapRemove(old(investors[..count]), k);
    }

    // ---------- AAT volumes and administration ----------

    method MintAatNft(investor: Pubkey, volume: u64) returns (r: Result<()>)
      requires Shape()
      modifies this
      ensures Follows(r, Market.MintAat(old(View()), investor, volume))
    {
      if volume == 0 { return Err(InvalidParameter); }
      :- Need(!frozen, ContractFrozen);
      :- Need(totalAat + volume <= U64_MAX, ArithmeticOverflow);
      :- Need(totalAat + volume <= MAX_TOTAL_AAT_VOLUME, WalnAllocationLimitExceeded);
      totalAat := totalAat + volume;
      :- Need(investor !in nfts, AccountInUse);
      nfts := nfts[investor := volume];
      return Ok(());
    }

    method UpdateAatVolume(investor: Pubkey, volume: u64) returns (r: Result<()>)
      requires Shape()
      modifies this, investors
      ensures Follows(r, Market.UpdateAat(old(View()), investor, volume))
    {
      if roundStarted { return Err(FundsLocked); }
      :- Need(investor in nfts, InvalidAatNft);
      :- Need(totalAat >= nfts[investor], ArithmeticOverflow);
      var total := totalAat - nfts[investor] + volume;
      :- Need(total <= U64_MAX, ArithmeticOverflow);
      :- Need(total <= MAX_TOTAL_AAT_VOLUME, WalnAllocationLimitExceeded);
      totalAat := total;
      nfts := nfts[investor := volume];
      var k := FindInvestor(investors, count, investor);
      if k < count {
        SetRecord(k, investors[k].(aatVolume := volume));
      }
      return Ok(());
    }

    /** Whether a round of this size and price has a cap and the minimum size. */
    method RequireViable(size: u64, price: u64) returns (r: Result<()>)
      ensures match Market.RequireViable(size, price, scale)
        case Pass => r == Ok(())
        case Fail(e) => r == Err(e)
    {
      var cap := size * price / scale;
      :- Need(cap > 0, InvalidParameter);
      :- Need(size >= MIN_SELL_WALN, InvalidParameter);
      return Ok(());
    }

    method SetFloorPrice(price: u64) returns (r: Result<()>)
      requires Shape()
      modifies this
      ensures Follows(r, Market.SetFloorPrice(old(View()), price))
    {
      if price == 0 { return Err(InvalidParameter); }
      var _ :- RequireViable(roundSize, price);
      floorPrice := price;
      return Ok(());
    }

    method SetRoundSize(size: u64) returns (r: Result<()>)
      requires Shape()
      modifies this
      ensures Follows(r, Market.SetRoundSize(old(View()), size))
    {
      if size == 0 { return Err(InvalidParameter); }
      var _ :- RequireViable(size, floorPrice);
      roundSize := size;
      return Ok(());
    }

    method SetLockPeriod(seconds: i64) returns (r: Result<()>)
      requires Shape()
      modifies this
      ensures Follows(r, Market.SetLockPeriod(old(View()), seconds))
    {
      if seconds < 0 { return Err(InvalidParameter); }
      lockPeriod := seconds;
      return Ok(());
    }

    method SetWithdrawLock(seconds: i64) returns (r: Result<()>)
      requires Shape()
      modifies this
      ensures Follows(r, Market.SetWithdrawLock(old(View()), seconds))
    {
      if seconds < 0 { return Err(InvalidParameter); }
      withdrawLock := seconds;
      return Ok(());
    }

    method SetInvestorUnlock(investor: Pubkey, unlock: i64) returns (r: Result<()>)
      requires Shape()
      modifies this, investors
      ensures Follows(r, Market.SetUnlock(old(View()), investor, unlock))
    {
      var k := FindInvestor(investors, count, investor);
      :- Need(k < count, InvalidInvestor);
      investors[k] := investors[k].(usdcUnlockTs := unlock);
      return Ok(());
    }

    method CloseRoundRecord(round: u64) returns (r: Result<()>)
      requires Shape()
      modifies this
      ensures Follows(r, Market.CloseRoundRecord(old(View()), round))
    {
      if round !in records { return Err(AccountMissing); }
      records := map k | k in records && k != round :: records[k];
      return Ok(());
    }

    // ---------- the lobby ----------

    /** The investor's slot, appended when there is none. */
    method Enroll(investor: Pubkey) returns (k: nat)
      requires Shape() && (count < MAX_INVESTORS || IndexOf(Keys(investors[..count]), investor) < count)
      modifies this`count, investors
      ensures Shape() && k == IndexOf(Keys(old(View()).pool), investor) < count
      ensures View() == old(View()).(pool := Market.Enrolled(old(View()).pool, investor))
    {
      k := FindInvestor(investors, count, investor);
      if k == count {
        investors[count] := Market.NewRecord(investor);
        count := count + 1;
      }
      assert investors[..count] == Market.Enrolled(old(investors[..count]), investor);
    }

    /** Books a deposit in the investor's record. */
    method Credit(k: nat, volume: u64, amount: u64, now: i64) returns (r: Result<InvestorRecord>)
      requires Shape() && k < count
      ensures r == Market.Credited(investors[k], volume, amount, withdrawLock, now)
    {
      var record := investors[k].(aatVolume := volume);
      :- Need(record.usdcDeposited + amount <= U64_MAX, ArithmeticOverflow);
      record := record.(usdcDeposited := record.usdcDeposited + amount);
      if withdrawLock > 0 {
        if !Market.InI64(now + withdrawLock) { return Err(ArithmeticOverflow); }
        if now + withdrawLock > record.usdcUnlockTs {
          record := record.(usdcUnlockTs := now + withdrawLock);
        }
      }
      return Ok(record);
    }

    /** Finds or appends the investor's slot and books the deposit in it. */
    method CreditInvestor(investor: Pubkey, volume: u64, amount: u64, now: i64) returns (r: Result<()>)
      requires Shape() && (count < MAX_INVESTORS || IndexOf(Keys(investors[..count]), investor) < count)
      modifies this`count, investors
      ensures Shape()
      ensures var pool, k := Market.Enrolled(old(View()).pool, investor), IndexOf(Keys(old(View()).pool), investor);
        match Market.Credited(pool[k], volume, amount, withdrawLock, now)
        case Ok(credited) => r.Ok? && View() == old(View()).(pool := pool[k := credited])
        case Err(e) => r == Err(e)
    {
      var k := Enroll(investor);
      var credited := Credit(k, volume, amount, now);
      if credited.Err? { return Err(credited.error); }
      SetRecord(k, credited.value);
      return Ok(());
    }

    method AcceptUsdc(amount: u64)
      requires Shape() && usdcVault + amount <= U64_MAX && lobby + amount <= U64_MAX
      modifies this`usdcVault, this`lobby
      ensures View() == old(View()).(lobby := old(lobby) + amount, usdcVault := old(usdcVault) + amount)
    {
      usdcVault := usdcVault + amount;
      lobby := lobby + amount;
    }

    method AdmitInvestor(investor: Pubkey, amount: u64) returns (r: Result<()>)
      requires Shape()
      ensures match Market.Admits(View(), investor, amount)
        case Pass => r == Ok(())
        case Fail(e) => r == Err(e)
    {
      if frozen { return Err(ContractFrozen); }
      :- Need(amount > 0, ZeroAmount);
      :- Need(investor in nfts, InvalidAatNft);
      :- Need(nfts[investor] > 0, ZeroAatAllocation);
      var slot := FindInvestor(investors, count, investor);
      :- Need(count < MAX_INVESTORS || slot < count, InvestorPoolFull);
      return Ok(());
    }

    method DepositUsdc(investor: Pubkey, amount: u64, now: i64) returns (r: Result<()>)
      requires Shape()
      modifies this, investors
      ensures Follows(r, Market.Deposit(old(View()), investor, amount, now))
    {
      r := AdmitInvestor(investor, amount);
      if r.Ok? {
        if usdcVault + amount > U64_MAX { return Err(TokenTransferFailed); }
        r := CreditInvestor(investor, nfts[investor], amount, now);
        if r.Ok? {
          if lobby + amount > U64_MAX { return Err(ArithmeticOverflow); }
          AcceptUsdc(amount);
        }
      }
    }

    method WithdrawUsdc(investor: Pubkey, amount: u64, now: i64) returns (r: Result<()>)
      requires Shape()
      modifies this, investors
      ensures Follows(r, Market.Withdraw(old(View()), investor, amount, now))
    {
      if frozen { return Err(ContractFrozen); }
      var k := FindInvestor(investors, count, investor);
      :- Need(k < count, InvalidInvestor);
      var record := investors[k];
      :- Need(now >= record.usdcUnlockTs, UsdcLocked);
      var out := if amount == U64_MAX then record.usdcDeposited else amount;
      :- Need(out > 0, ZeroAmount);
      :- Need(out <= record.usdcDeposited, InsufficientFunds);
      :- Need(out <= usdcVault, TokenTransferFailed);
      :- Need(out <= lobby, ArithmeticOverflow);
      SetRecord(k, record.(usdcDeposited := record.usdcDeposited - out));
      ReleaseUsdc(out);
      return Ok(());
    }

    /** Refunds an inactive investor and frees the slot. */
    method RemoveInvestor(investor: Pubkey) returns (r: Result<()>)
      requires Shape()
      modifies this, investors
      ensures Follows(r, Market.Remove(old(View()), investor))
    {
      var k := FindInvestor(investors, count, investor);
      :- Need(k < count, InvalidInvestor);
      :- Need(investors[k].aatVolume == 0 && investors[k].usdcLocked == 0, InvestorNotInactive);
      var refund := investors[k].usdcDeposited;
      :- Need(refund <= usdcVault, TokenTransferFailed);
      :- Need(refund <= lobby, ArithmeticOverflow);
      if refund > 0 {
        ReleaseUsdc(refund);
      }
      DropSlot(k);
      return Ok(());
    }

    // ---------- rounds ----------

    /** The round start on the pool. */
    method LockPool() returns (r: Result<u64>)
      requires Shape()
      modifies investors
      ensures match RoundStart(old(View()).pool, roundSize, floorPrice, scale)
        case Ok(s) => r == Ok(s.locked) && View() == old(View()).(pool := s.pool)
        case Err(e) => r == Err(e) && (e != ArithmeticOverflow ==> View() == old(View()))
    {
      var started := ExecuteRoundStart(investors, count, roundSize, floorPrice, scale);
      if started.Err? {
        assert started.error != ArithmeticOverflow ==> investors[..count] == old(investors[..count]);
        return Err(started.error);
      }
      return Ok(started.value.1);
    }

    /** Snapshots the configuration for the round that was just locked. */
    method TakeSnapshot(locked: u64)
      modifies this`roundStarted, this`curPrice, this`curSize, this`curLockPeriod, this`curSpent, this`totalLocked
      ensures roundStarted && curPrice == floorPrice && curSize == roundSize && curLockPeriod == lockPeriod
      ensures curSpent == 0 && totalLocked == locked
    {
      roundStarted := true;
      curPrice, curSize, curLockPeriod := floorPrice, roundSize, lockPeriod;
      curSpent, totalLocked := 0, locked;
    }

    method OpenRound(locked: u64)
      requires Shape()
      modifies this`roundStarted, this`curPrice, this`curSize, this`curLockPeriod, this`curSpent, this`totalLocked
      ensures View() == old(View()).(
        roundStarted := true, curPrice := floorPrice, curSize := roundSize, curLockPeriod := lockPeriod,
        curSpent := 0, totalLocked := locked)
    {
      TakeSnapshot(locked);
    }

    /** Locks the next round; an error other than an overflow is raised before any account
        is written. */
    method BeginRound() returns (r: Result<()>)
      requires Shape()
      modifies this, investors
      ensures Follows(r, Market.BeginRound(old(View())))
      ensures r.Err? && r.error != ArithmeticOverflow ==> View() == old(View())
    {
      var started := LockPool();
      if started.Err? { return Err(started.error); }
      OpenRound(started.value);
      return Ok(());
    }

    method SaleAmount(maxAmount: u64) returns (r: Result<u64>)
      requires Shape()
      ensures r == Market.SaleAmount(View(), maxAmount)
    {
      var price, size, sold := floorPrice, roundSize, 0;
      if roundStarted {
        price, size, sold := curPrice, curSize, curWaln;
      }
      :- Need(sold <= size, ArithmeticOverflow);
      var remaining := size - sold;
      var amount := if maxAmount < remaining then maxAmount else remaining;
      :- Need(amount > 0, ZeroAmount);
      var left := remaining - amount;
      if left > 0 {
        if left * price / scale == 0 { return Err(SellLeavesUnpayableDust); }
      }
      if sold == 0 {
        if amount < MIN_SELL_WALN && amount != remaining { return Err(SellAmountTooSmall); }
      }
      return Ok(amount);
    }

    /** Moves the tokens of a sale and counts them. */
    method BookSale(amount: u64, out: u64)
      requires Shape() && walnVault + amount <= U64_MAX && out <= usdcVault
      requires curSpent + out <= U64_MAX && curWaln + amount <= U64_MAX
      modifies this`walnVault, this`usdcVault, this`curSpent, this`curWaln
      ensures View() == old(View()).(
        walnVault := old(walnVault) + amount, usdcVault := old(usdcVault) - out,
        curSpent := old(curSpent) + out, curWaln := old(curWaln) + amount)
    {
      walnVault := walnVault + amount;
      usdcVault := usdcVault - out;
      curSpent := curSpent + out;
      curWaln := curWaln + amount;
    }

    method TakeSale(amount: u64) returns (r: Result<()>)
      requires Shape()
      modifies this`walnVault, this`usdcVault, this`curSpent, this`curWaln
      ensures Follows(r, Market.TakeSale(old(View()), amount))
    {
      var out := amount * curPrice / scale;
      :- Need(out <= U64_MAX, ArithmeticOverflow);
      :- Need(out > 0, ZeroAmount);
      :- Need(walnVault + amount <= U64_MAX, TokenTransferFailed);
      :- Need(out <= usdcVault, TokenTransferFailed);
      :- Need(curSpent + out <= U64_MAX, ArithmeticOverflow);
      :- Need(curWaln + amount <= U64_MAX, ArithmeticOverflow);
      BookSale(amount, out);
      return Ok(());
    }

    /** Creates the accounts of the settled round. */
    method StoreRound(s: Summary, unlock: i64, now: i64)
      requires Shape()
      modifies this`rounds, this`records
      ensures rounds == Market.Record(old(View()), s, unlock, now).rounds
      ensures records == Market.Record(old(View()), s, unlock, now).records
    {
      if |s.allocs| > 0 {
        rounds := rounds[roundCount := RoundLockedWaln(unlock, |s.allocs|, s.allocs)];
      }
      records := records[roundCount := RoundRecord(now, s.walnPurchased, s.usdcSpent, s.aatVolume, s.participants)];
    }

    method ResetRound(spent: u64, dust: u64)
      requires roundCount < U64_MAX && spent <= lobby
      modifies this`roundCount, this`curWaln, this`curSpent, this`roundStarted, this`lobby, this`carryover
      ensures roundCount == old(roundCount) + 1 && lobby == old(lobby) - spent && carryover == dust
      ensures curWaln == 0 && curSpent == 0 && !roundStarted
    {
      roundCount := roundCount + 1;
      curWaln, curSpent, roundStarted := 0, 0, false;
      lobby := lobby - spent;
      carryover := dust;
    }

    /** Books a settlement and resets the round counters. */
    method CloseBooks(s: Summary, unlock: i64, now: i64, dust: u64)
      requires Shape() && roundCount < U64_MAX && s.usdcSpent <= lobby
      modifies this`rounds, this`records, this`roundCount, this`curWaln, this`curSpent, this`roundStarted
      modifies this`lobby, this`carryover
      ensures View() == Market.Close(old(View()), s, unlock, now, dust)
    {
      StoreRound(s, unlock, now);
      ResetRound(s.usdcSpent, dust);
    }

    /** Books a settlement after the checks on the counters it updates. */
    method Finalize(s: Summary, unlock: i64, now: i64, dust: int) returns (r: Result<()>)
      requires Shape()
      modifies this`rounds, this`records, this`roundCount, this`curWaln, this`curSpent, this`roundStarted
      modifies this`lobby, this`carryover
      ensures Follows(r, Market.Finalize(old(View()), s, unlock, now, dust))
    {
      if roundCount == U64_MAX { return Err(ArithmeticOverflow); }
      :- Need(s.usdcSpent <= lobby, ArithmeticOverflow);
      :- Need(0 <= dust <= U64_MAX, ArithmeticOverflow);
      CloseBooks(s, unlock, now, dust);
      return Ok(());
    }

    /** Full settlement on the pool. */
    method FullPayouts(now: i64) returns (r: Result<Summary>)
      requires Shape()
      modifies investors
      ensures match Market.FullPayouts(old(View()), now)
        case Ok(spent) => r == Ok(spent.1) && View() == spent.0
        case Err(e) => r == Err(e)
    {
      if !Market.InI64(now + curLockPeriod) || curPrice == 0 { return Err(ArithmeticOverflow); }
      r := ExecuteSettleFull(investors, count, curPrice, scale, carryover, now);
    }

    /** Full settlement of the round that was just filled. */
    method SettleRound(now: i64) returns (r: Result<()>)
      requires Shape()
      modifies this, investors
      ensures Follows(r, Market.SettleRound(old(View()), now))
    {
      var settled := FullPayouts(now);
      match settled
      case Err(e) => r := Err(e);
      case Ok(s) =>
        r := Finalize(s, now + curLockPeriod, now, curWaln + carryover - s.walnPurchased);
    }

    method ResetLocked()
      requires Shape()
      modifies this`totalLocked
      ensures View() == Market.NothingLocked(old(View()))
    {
      totalLocked := 0;
    }

    /** Starts the next round; two errors only leave the market idle. */
    method AutoStart() returns (r: Result<()>)
      requires Shape()
      modifies this, investors
      ensures Follows(r, Market.AutoStart(old(View())))
    {
      r := BeginRound();
      if r == Err(NoEligibleInvestors) || r == Err(InvalidParameter) {
        ResetLocked();
        r := Ok(());
      }
    }

    method SellWaln(maxAmount: u64, now: i64) returns (r: Result<()>)
      requires Shape()
      modifies this, investors
      ensures Follows(r, Market.Sell(old(View()), maxAmount, now))
    {
      if frozen { return Err(ContractFrozen); }
      :- Need(!sellPaused, SellPaused);
      :- Need(maxAmount > 0, ZeroAmount);
      var amount := SaleAmount(maxAmount);
      if amount.Err? { return Err(amount.error); }
      if !roundStarted {
        r := BeginRound();
        if r.Err? { return; }
      }
      r := TakeSale(amount.value);
      if r.Ok? && curWaln >= curSize {
        r := SettleRound(now);
        if r.Ok? {
          r := AutoStart();
        }
      }
    }

    /** Forced settlement on the pool. */
    method ForcedPayouts(now: i64) returns (r: Result<Summary>)
      requires Shape()
      modifies investors
      ensures match Market.ForcedPayouts(old(View()), now)
        case Ok(paid) => r == Ok(paid.1) && View() == paid.0
        case Err(e) => r == Err(e)
    {
      if !Market.InI64(now + curLockPeriod) || curPrice == 0 { return Err(ArithmeticOverflow); }
      r := ExecuteSettleForced(investors, count, curPrice, scale, curWaln, curSpent);
      if r.Ok? && r.value.walnPurchased > curWaln { return Err(ArithmeticOverflow); }
    }

    /** Forced settlement of a partly filled round. */
    method SettleByForce(now: i64) returns (r: Result<()>)
      requires Shape()
      modifies this, investors
      ensures Follows(r, Market.SettleByForce(old(View()), now))
    {
      var settled := ForcedPayouts(now);
      match settled
      case Err(e) => r := Err(e);
      case Ok(s) =>
        r := Finalize(s, now + curLockPeriod, now, carryover + (curWaln - s.walnPurchased));
    }

    /** No next round is started after a forced settlement. */
    method ForceClose(now: i64) returns (r: Result<()>)
      requires Shape()
      modifies this, investors
      ensures Follows(r, Market.CloseRound(old(View()), now))
    {
      if !roundStarted || curWaln == 0 { return Err(InvalidParameter); }
      r := SettleByForce(now);
      if r.Ok? {
        ResetLocked();
      }
    }

    method UnlockRecords() returns (r: Result<()>)
      requires Shape()
      modifies investors
      ensures if Market.Unlockable(old(investors[..count]))
        then r.Ok? && investors[..count] == Market.UnlockAll(old(investors[..count]))
        else r == Err(ArithmeticOverflow)
    {
      ghost var pool := investors[..count];
      for i := 0 to count
        invariant forall j :: 0 <= j < i ==> pool[j].usdcDeposited + pool[j].usdcLocked <= U64_MAX
        invariant forall j :: 0 <= j < i ==>
          investors[j] == pool[j].(usdcDeposited := pool[j].usdcDeposited + pool[j].usdcLocked, usdcLocked := 0)
        invariant forall j :: i <= j < count ==> investors[j] == pool[j]
      {
        var record := investors[i];
        assert record == pool[i];
        if record.usdcLocked != 0 {
          if record.usdcDeposited + record.usdcLocked > U64_MAX { return Err(ArithmeticOverflow); }
          investors[i] := record.(usdcDeposited := record.usdcDeposited + record.usdcLocked, usdcLocked := 0);
        }
      }
      assert investors[..count] == Market.UnlockAll(pool);
      return Ok(());
    }

    method CancelRound() returns (r: Result<()>)
      requires Shape()
      modifies this, investors
      ensures Follows(r, Market.CancelRound(old(View())))
    {
      if !roundStarted || curWaln > 0 { return Err(InvalidParameter); }
      ResetSales();
      r := UnlockRecords();
    }

    method ResetSales()
      modifies this`roundStarted, this`curWaln, this`curSpent, this`totalLocked
      ensures !roundStarted && curWaln == 0 && curSpent == 0 && totalLocked == 0
    {
      roundStarted, curWaln, curSpent, totalLocked := false, 0, 0, 0;
    }

    // ---------- claims ----------

    /** Zeroes the paid entry and counts it, or drops the account with the last one. */
    method PayEntry(round: u64, k: nat)
      requires Shape() && round in rounds && k < |rounds[round].investors| && rounds[round].remainingToClaim > 0
      requires rounds[round].investors[k].walnAmount <= walnVault
      modifies this`rounds, this`walnVault
      ensures View() == old(View()).(
        rounds := Market.Paid(old(rounds), round, k), walnVault := old(walnVault) - old(rounds)[round].investors[k].walnAmount)
    {
      var account := rounds[round];
      var entry := account.investors[k];
      account := account.(
        investors := account.investors[k := entry.(walnAmount := 0)],
        remainingToClaim := account.remainingToClaim - 1);
      walnVault := walnVault - entry.walnAmount;
      if account.remainingToClaim == 0 {
        rounds := map key | key in rounds && key != round :: rounds[key];
      } else {
        rounds := rounds[round := account];
      }
    }

    method ClaimWaln(investor: Pubkey, round: u64, now: i64) returns (r: Result<()>)
      requires Shape() && Invariant.ClaimsOk(View())
      modifies this, investors
      ensures Follows(r, Market.Claim(old(View()), investor, round, now))
    {
      if round !in rounds { return Err(AccountMissing); }
      :- Need(!frozen, ContractFrozen);
      var account := rounds[round];
      :- Need(now >= account.unlock, NotYetUnlocked);
      var k := Claims.BinarySearch(account.investors, investor);
      :- Need(k < |account.investors|, InvalidInvestor);
      :- Need(account.investors[k].walnAmount > 0, AlreadyClaimed);
      // the decrement that follows never fails: a stored account counts an unpaid entry
      assert account.remainingToClaim > 0;
      :- Need(account.investors[k].walnAmount <= walnVault, TokenTransferFailed);
      PayEntry(round, k);
      return Ok(());
    }

    // ---------- transfers from outside ----------

    method ReceiveUsdc(amount: u64) returns (r: Result<()>)
      requires Shape()
      modifies this
      ensures Follows(r, Market.Step(old(View()), Market.Instruction.ReceiveUsdc(amount)))
    {
      if usdcVault + amount > U64_MAX { return Err(TokenTransferFailed); }
      usdcVault := usdcVault + amount;
      return Ok(());
    }

    method ReceiveWaln(amount: u64) returns (r: Result<()>)
      requires Shape()
      modifies this
      ensures Follows(r, Market.Step(old(View()), Market.Instruction.ReceiveWaln(amount)))
    {
      if walnVault + amount > U64_MAX { return Err(TokenTransferFailed); }
      walnVault := walnVault + amount;
      return Ok(());
    }

    // ---------- execution ----------

    method SetSellPaused(paused: bool)
      requires Shape()
      modifies this`sellPaused
      ensures View() == old(View()).(sellPaused := paused)
    {
      sellPaused := paused;
    }

    method SetFrozen(freeze: bool)
      requires Shape()
      modifies this`frozen
      ensures View() == old(View()).(frozen := freeze)
    {
      frozen := freeze;
    }

    method Dispatch(ins: Market.Instruction) returns (r: Result<()>)
      requires Shape() && Invariant.ClaimsOk(View())
      modifies this, investors
      ensures Follows(r, Market.Step(old(View()), ins))
    {
      match ins
      case DepositUsdc(investor, amount, now) => r := DepositUsdc(investor, amount, now);
      case WithdrawUsdc(investor, amount, now) => r := WithdrawUsdc(investor, amount, now);
      case SellWaln(amount, now) => r := SellWaln(amount, now);
      case ClaimWaln(investor, round, now) => r := ClaimWaln(investor, round, now);
      case ForceClose(now) => r := ForceClose(now);
      case Cancel => r := CancelRound();
      case RemoveInvestor(investor) => r := RemoveInvestor(investor);
      case MintAatNft(investor, volume) => r := MintAatNft(investor, volume);
      case UpdateAatVolume(investor, volume) => r := UpdateAatVolume(investor, volume);
      case ChangePrice(price) => r := SetFloorPrice(price);
      case ChangeSize(size) => r := SetRoundSize(size);
      case ChangeLockPeriod(seconds) => r := SetLockPeriod(seconds);
      case ChangeWithdrawLock(seconds) => r := SetWithdrawLock(seconds);
      case ChangeUnlock(investor, unlock) => r := SetInvestorUnlock(investor, unlock);
      case PauseSells(paused) => SetSellPaused(paused); r := Ok(());
      case Freeze(freeze) => SetFrozen(freeze); r := Ok(());
      case DropRecord(round) => r := CloseRoundRecord(round);
      case ReceiveUsdc(amount) => r := ReceiveUsdc(amount);
      case ReceiveWaln(amount) => r := ReceiveWaln(amount);
    }

    /** An instruction as a transaction: it takes the step on the accounts' value, or leaves
        every account as it was, and either way keeps the invariant and what is conserved. */
    method Execute(ins: Market.Instruction) returns (r: Result<()>)
      requires Valid()
      modifies this, investors
      ensures Valid() && View() == Market.Apply(old(View()), ins)
      ensures match Market.Step(old(View()), ins)
        case Ok(_) => r.Ok?
        case Err(e) => r == Err(e)
      ensures Conservation.Conserved(old(View()), ins, View())
    {
      var saved := View();
      Conservation.StepConserves(saved, ins);
      r := Dispatch(ins);
      if r.Err? {
        Restore(saved);
      }
    }
  }

  /** Initialization checks its parameters and creates the accounts. */
  method Initialize(price: u64, size: u64, lockPeriod: i64, scale: Scale) returns (r: Result<FloorProgram>)
    ensures match Market.Initialize(price, size, lockPeriod, scale)
      case Ok(m) => r.Ok? && fresh(r.value) && fresh(r.value.investors) && r.value.Valid() && r.value.View() == m
      case Err(e) => r == Err(e)
  {
    if price == 0 { return Err(InvalidParameter); }
    :- Need(size > 0, InvalidParameter);
    var cap := size * price / scale;
    :- Need(cap > 0, InvalidParameter);
    :- Need(size >= MIN_SELL_WALN, InvalidParameter);
    :- Need(lockPeriod >= 0, InvalidParameter);
    var program := new FloorProgram(price, size, lockPeriod, scale);
    return Ok(program);
  }
}
