/** What each instruction outside of sales, settlements and claims does to the accounts, and
    exactly when it succeeds, in terms of their fields. */
module LobbyEffects {
  import opened Arithmetic
  import opened Accounts
  import opened Market
  import opened Invariant

  /** Position `k` is that of the investor's record, or the end of a pool without one. */
  predicate Slot(pool: seq<InvestorRecord>, investor: Pubkey, k: nat) {
    && k <= |pool| && (k < |pool| ==> pool[k].investor == investor)
    && (k == |pool| ==> forall i :: 0 <= i < |pool| ==> pool[i].investor != investor)
  }

  lemma SlotOf(pool: seq<InvestorRecord>, investor: Pubkey) returns (k: nat)
    ensures k == IndexOf(Keys(pool), investor) && Slot(pool, investor, k)
  {
    k := IndexOf(Keys(pool), investor);
    forall i | 0 <= i < k
      ensures pool[i].investor != investor
    {
      assert Keys(pool)[i] != investor;
    }
    if k < |pool| {
      assert Keys(pool)[k] == investor;
    }
  }

  /** With distinct keys there is only one such position. */
  lemma SlotIs(pool: seq<InvestorRecord>, investor: Pubkey, k: nat)
    requires Distinct(Keys(pool)) && Slot(pool, investor, k)
    ensures k == IndexOf(Keys(pool), investor)
  {
    if k < |pool| {
      assert Keys(pool)[k] == investor;
      IndexOfDistinct(Keys(pool), k);
    } else {
      forall i | 0 <= i < |pool|
        ensures Keys(pool)[i] != investor
      {
      }
    }
  }

  // ---------- deposits ----------

  /** The record of the depositor: volume taken from the NFT, deposit raised by the amount,
      and the unlock time kept or moved on, to at least the withdraw lock from now. */
  predicate CreditedRecord(before: InvestorRecord, after: InvestorRecord, volume: int, amount: int, lock: int, now: int) {
    && after == before.(aatVolume := after.aatVolume, usdcDeposited := after.usdcDeposited, usdcUnlockTs := after.usdcUnlockTs)
    && after.aatVolume == volume && after.usdcDeposited == before.usdcDeposited + amount
    && after.usdcUnlockTs >= before.usdcUnlockTs && (lock > 0 ==> after.usdcUnlockTs >= now + lock)
    && (after.usdcUnlockTs == before.usdcUnlockTs || (lock > 0 && after.usdcUnlockTs == now + lock))
  }

  /** A deposit touches the investor's record, appended empty at the end if there was none,
      and raises the lobby and the vault by the amount. */
  lemma DepositEffect(m: State, investor: Pubkey, amount: u64, now: i64) returns (k: nat)
    requires Deposit(m, investor, amount, now).Ok?
    ensures Slot(m.pool, investor, k) && investor in m.nfts
    ensures var n := Deposit(m, investor, amount, now).value;
      && n.lobby == m.lobby + amount && n.usdcVault == m.usdcVault + amount
      && n == m.(pool := n.pool, lobby := n.lobby, usdcVault := n.usdcVault)
      && |n.pool| == (if k < |m.pool| then |m.pool| else |m.pool| + 1)
      && (forall i :: 0 <= i < |m.pool| && i != k ==> n.pool[i] == m.pool[i])
      && CreditedRecord(
        if k < |m.pool| then m.pool[k] else InvestorRecord(investor, 0, 0, 0, 0, 0, 0), n.pool[k],
        m.nfts[investor], amount, m.withdrawLock, now)
  {
    k := SlotOf(m.pool, investor);
  }

  lemma DepositSucceeds(m: State, investor: Pubkey, amount: u64, now: i64)
    requires Inv(m)
    ensures Deposit(m, investor, amount, now).Ok? <==>
      && !m.frozen && amount > 0 && investor in m.nfts && m.nfts[investor] > 0
      && (|m.pool| < MAX_INVESTORS || exists i :: 0 <= i < |m.pool| && m.pool[i].investor == investor)
      && m.usdcVault + amount <= U64_MAX && m.lobby + amount <= U64_MAX
      && (m.withdrawLock <= 0 || I64_MIN <= now + m.withdrawLock <= I64_MAX)
  {
    var k := SlotOf(m.pool, investor);
    TotalCoversEach(m.pool, BalanceOf);
    if k < |m.pool| {
      assert BalanceOf(m.pool[k]) <= m.lobby;
    }
  }

  // ---------- withdrawals ----------

  /** The vault, the lobby and the investor's deposit drop by the amount asked for, or by the
      whole deposit when the largest u64 was asked for; no other account changes. */
  lemma WithdrawEffect(m: State, investor: Pubkey, amount: u64, now: i64) returns (k: nat)
    requires Withdraw(m, investor, amount, now).Ok?
    ensures k < |m.pool| && Slot(m.pool, investor, k)
    ensures var n := Withdraw(m, investor, amount, now).value;
      var out := if amount == U64_MAX then m.pool[k].usdcDeposited else amount;
      && 0 < out <= m.pool[k].usdcDeposited
      && n.usdcVault == m.usdcVault - out && n.lobby == m.lobby - out
      && n == m.(pool := n.pool, lobby := n.lobby, usdcVault := n.usdcVault)
      && n.pool == m.pool[k := m.pool[k].(usdcDeposited := m.pool[k].usdcDeposited - out)]
  {
    k := SlotOf(m.pool, investor);
  }

  // ---------- removals ----------

  /** The investor's record, and no other, leaves the pool, and its deposit the vault. */
  lemma RemoveEffect(m: State, investor: Pubkey) returns (k: nat)
    requires Inv(m) && Remove(m, investor).Ok?
    ensures k < |m.pool| && Slot(m.pool, investor, k)
    ensures var n := Remove(m, investor).value;
      && n.usdcVault == m.usdcVault - m.pool[k].usdcDeposited && n.lobby == m.lobby - m.pool[k].usdcDeposited
      && n == m.(pool := n.pool, lobby := n.lobby, usdcVault := n.usdcVault)
      && multiset(n.pool) == multiset(m.pool) - multiset{m.pool[k]}
      && forall i :: 0 <= i < |n.pool| ==> n.pool[i].investor != investor
  {
    k := SlotOf(m.pool, investor);
    SwapRemoveTakes(m.pool, k);
    SwapRemoveGone(m.pool, k);
  }

  lemma SwapRemoveTakes(pool: seq<InvestorRecord>, k: nat)
    requires k < |pool|
    ensures multiset(SwapRemove(pool, k)) == multiset(pool) - multiset{pool[k]}
  {
    var last := |pool| - 1;
    assert pool == pool[..last] + [pool[last]];
    if k < last {
      assert SwapRemove(pool, k) == pool[..k] + [pool[last]] + pool[k + 1..last];
      assert pool == pool[..k] + [pool[k]] + pool[k + 1..last] + [pool[last]];
    } else {
      assert SwapRemove(pool, k) == pool[..last];
    }
  }

  lemma SwapRemoveGone(pool: seq<InvestorRecord>, k: nat)
    requires k < |pool| && Distinct(Keys(pool))
    ensures forall i :: 0 <= i < |SwapRemove(pool, k)| ==> SwapRemove(pool, k)[i].investor != pool[k].investor
  {
    forall i | 0 <= i < |SwapRemove(pool, k)|
      ensures SwapRemove(pool, k)[i].investor != pool[k].investor
    {
      var j := if i == k then |pool| - 1 else i;
      assert SwapRemove(pool, k)[i] == pool[j];
      assert Keys(pool)[j] != Keys(pool)[k];
    }
  }

  predicate Removable(m: State, r: InvestorRecord) {
    r.aatVolume == 0 && r.usdcLocked == 0 && r.usdcDeposited <= m.usdcVault
  }

  lemma RemoveSucceeds(m: State, investor: Pubkey)
    requires Inv(m)
    ensures Remove(m, investor).Ok? <==> exists k :: 0 <= k < |m.pool| && m.pool[k].investor == investor && Removable(m, m.pool[k])
  {
    var k := SlotOf(m.pool, investor);
    TotalCoversEach(m.pool, BalanceOf);
    if k < |m.pool| {
      assert BalanceOf(m.pool[k]) <= m.lobby;
    }
    forall j | 0 <= j < |m.pool| && m.pool[j].investor == investor
      ensures j == k
    {
      SlotIs(m.pool, investor, j);
    }
  }

  // ---------- AAT volumes ----------

  /** A new NFT of the volume asked for, counted in the total; the pool is left alone. */
  lemma MintEffect(m: State, investor: Pubkey, volume: u64)
    requires MintAat(m, investor, volume).Ok?
    ensures var n := MintAat(m, investor, volume).value;
      && investor !in m.nfts && n.nfts == m.nfts[investor := volume] && n.totalAat == m.totalAat + volume
      && n == m.(nfts := n.nfts, totalAat := n.totalAat)
  {
  }

  lemma MintSucceeds(m: State, investor: Pubkey, volume: u64)
    requires Inv(m)
    ensures MintAat(m, investor, volume).Ok? <==>
      volume > 0 && !m.frozen && m.totalAat + volume <= 1_000_000 && investor !in m.nfts
  {
  }

  /** The NFT and the investor's record, if there is one, both get the volume asked for. */
  lemma UpdateAatEffect(m: State, investor: Pubkey, volume: u64) returns (k: nat)
    requires UpdateAat(m, investor, volume).Ok?
    ensures Slot(m.pool, investor, k) && investor in m.nfts
    ensures var n := UpdateAat(m, investor, volume).value;
      && n.nfts == m.nfts[investor := volume] && n.totalAat == m.totalAat - m.nfts[investor] + volume
      && n.pool == (if k < |m.pool| then m.pool[k := m.pool[k].(aatVolume := volume)] else m.pool)
      && n == m.(nfts := n.nfts, totalAat := n.totalAat, pool := n.pool)
  {
    k := SlotOf(m.pool, investor);
  }

  lemma UpdateAatSucceeds(m: State, investor: Pubkey, volume: u64)
    requires Inv(m)
    ensures UpdateAat(m, investor, volume).Ok? <==>
      !m.roundStarted && investor in m.nfts && m.totalAat - m.nfts[investor] + volume <= 1_000_000
  {
    if investor in m.nfts {
      MapSumRemove(m.nfts, investor, Identity);
      MapSumNonNegative(m.nfts - {investor}, Identity);
    }
  }

  // ---------- cancelling ----------

  /** A cancel unlocks every record and resets the round; nothing leaves the lobby. */
  lemma CancelEffect(m: State)
    requires CancelRound(m).Ok?
    ensures var n := CancelRound(m).value;
      && n == m.(pool := n.pool, roundStarted := false, curWaln := 0, curSpent := 0, totalLocked := 0)
      && |n.pool| == |m.pool|
      && forall i :: 0 <= i < |m.pool| ==>
        && n.pool[i].usdcDeposited == m.pool[i].usdcDeposited + m.pool[i].usdcLocked
        && n.pool[i] == m.pool[i].(usdcDeposited := n.pool[i].usdcDeposited, usdcLocked := 0)
  {
  }

  // ---------- configuration ----------

  /** A size and price that give a round a positive cap and the minimum size. */
  predicate Viable(size: int, price: int, scale: int)
    requires scale > 0
  {
    size * price / scale > 0 && size >= 1_000_000_000
  }

  /** A new program is configured as asked, idle, and empty. */
  lemma InitializeEffect(price: u64, size: u64, lockPeriod: i64, scale: Scale)
    ensures var r := Initialize(price, size, lockPeriod, scale);
      && (r.Ok? <==> price > 0 && Viable(size, price, scale) && lockPeriod >= 0)
      && (r.Ok? ==> var m := r.value;
        && m.scale == scale && m.floorPrice == price && m.roundSize == size && m.lockPeriod == lockPeriod && m.withdrawLock == 0
        && !m.sellPaused && !m.frozen && !m.roundStarted && m.roundCount == 0 && m.curWaln == 0 && m.curSpent == 0
        && m.lobby == 0 && m.totalLocked == 0 && m.totalAat == 0 && m.carryover == 0
        && m.pool == [] && m.nfts == map[] && m.rounds == map[] && m.records == map[] && m.usdcVault == 0 && m.walnVault == 0)
  {
  }

  /** A setting is changed to what was asked for and nothing else is; a price or size must
      keep the configured round viable, and a duration must not be negative. */
  lemma PriceEffect(m: State, price: u64)
    ensures SetFloorPrice(m, price) ==
      if Viable(m.roundSize, price, m.scale) then Ok(m.(floorPrice := price)) else Err(InvalidParameter)
  {
    NothingNotViable(m.roundSize, price, m.scale);
  }

  lemma SizeEffect(m: State, size: u64)
    ensures SetRoundSize(m, size) ==
      if Viable(size, m.floorPrice, m.scale) then Ok(m.(roundSize := size)) else Err(InvalidParameter)
  {
  }

  lemma DurationEffect(m: State, seconds: i64)
    ensures SetLockPeriod(m, seconds) == if seconds >= 0 then Ok(m.(lockPeriod := seconds)) else Err(InvalidParameter)
    ensures SetWithdrawLock(m, seconds) == if seconds >= 0 then Ok(m.(withdrawLock := seconds)) else Err(InvalidParameter)
  {
  }

  lemma NothingNotViable(size: int, price: int, scale: int)
    requires scale > 0
    ensures price == 0 ==> !Viable(size, price, scale)
  {
    if price == 0 {
      FloorAtMost(size * price, scale, 0);
    }
  }

  /** The switches and the transfers from outside touch one field each. */
  lemma SwitchEffect(m: State, ins: Instruction)
    requires ins.PauseSells? || ins.Freeze? || ins.ReceiveUsdc? || ins.ReceiveWaln?
    ensures Apply(m, ins) == match ins
      case PauseSells(on) => m.(sellPaused := on)
      case Freeze(on) => m.(frozen := on)
      case ReceiveUsdc(amount) => if m.usdcVault + amount <= U64_MAX then m.(usdcVault := m.usdcVault + amount) else m
      case ReceiveWaln(amount) => if m.walnVault + amount <= U64_MAX then m.(walnVault := m.walnVault + amount) else m
      case _ => m
  {
  }

  lemma RecordDropped(m: State, round: u64)
    ensures CloseRoundRecord(m, round) == if round in m.records then Ok(m.(records := m.records - {round})) else Err(AccountMissing)
  {
    if round in m.records {
      assert CloseRoundRecord(m, round).value.records == m.records - {round};
    }
  }

  lemma UnlockTimeEffect(m: State, investor: Pubkey, unlock: i64)
    requires Inv(m)
    ensures SetUnlock(m, investor, unlock).Ok? <==> exists k :: 0 <= k < |m.pool| && m.pool[k].investor == investor
    ensures forall k: nat :: k < |m.pool| && Slot(m.pool, investor, k) ==>
      SetUnlock(m, investor, unlock) == Ok(m.(pool := m.pool[k := m.pool[k].(usdcUnlockTs := unlock)]))
  {
    var k := SlotOf(m.pool, investor);
    forall j: nat | j < |m.pool| && Slot(m.pool, investor, j)
      ensures j == k
    {
      SlotIs(m.pool, investor, j);
    }
  }
}
