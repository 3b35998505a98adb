/** The invariant of the program and its preservation by every instruction. */
module Invariant {
  import opened Arithmetic
  import opened Accounts
  import opened Gap
  import opened Settlement
  import opened Allotment
  import opened SettlementEffects
  import opened Market

  // ---------- sums over maps ----------

  ghost function MapSum<V>(m: map<nat, V>, f: V -> int): int
    decreases |m|
  {
    if |m| == 0 then 0
    else f(m[Pick(m)]) + MapSum(m - {Pick(m)}, f)
  }

  ghost function Pick<V>(m: map<nat, V>): (k: nat)
    requires |m| > 0
    ensures k in m
  {
    var k :| k in m;
    k
  }

  lemma {:induction false} MapSumRemove<V>(m: map<nat, V>, k: nat, f: V -> int)
    requires k in m
    ensures MapSum(m, f) == f(m[k]) + MapSum(m - {k}, f)
    decreases |m|
  {
    var p := Pick(m);
    if p != k {
      MapSumRemove(m - {p}, k, f);
      MapSumRemove(m - {k}, p, f);
      RemoveBoth(m, p, k);
    }
  }

  lemma RemoveBoth<V>(m: map<nat, V>, p: nat, k: nat)
    ensures m - {p} - {k} == m - {k} - {p}
  {
  }

  lemma MapSumUpdate<V>(m: map<nat, V>, k: nat, v: V, f: V -> int)
    ensures MapSum(m[k := v], f) == MapSum(m, f) + f(v) - (if k in m then f(m[k]) else 0)
  {
    MapSumRemove(m[k := v], k, f);
    assert m[k := v] - {k} == m - {k};
    if k in m {
      MapSumRemove(m, k, f);
    } else {
      assert m - {k} == m;
    }
  }

  lemma {:induction false} MapSumNonNegative<V>(m: map<nat, V>, f: V -> int)
    requires forall k :: k in m ==> f(m[k]) >= 0
    ensures MapSum(m, f) >= 0
    decreases |m|
  {
    if |m| > 0 {
      MapSumNonNegative(m - {Pick(m)}, f);
    }
  }

  function Identity(v: u64): int { v }

  function UnclaimedIn(account: RoundLockedWaln): int {
    Total(account.investors, WalnOf)
  }

  // ---------- the invariant ----------

  /** Each investor has one record, whose volume is that of the investor's NFT. */
  ghost predicate PoolOk(m: State) {
    && |m.pool| <= MAX_INVESTORS && Distinct(Keys(m.pool))
    && forall i :: 0 <= i < |m.pool| ==> m.pool[i].investor in m.nfts && m.pool[i].aatVolume == m.nfts[m.pool[i].investor]
  }

  /** The AAT total is that of all NFTs and within the limit. */
  ghost predicate AatOk(m: State) {
    m.totalAat == MapSum(m.nfts, Identity) <= MAX_TOTAL_AAT_VOLUME
  }

  /** The two USDC totals are those of the records. */
  ghost predicate LobbyOk(m: State) {
    m.lobby == Total(m.pool, BalanceOf) && m.totalLocked == Total(m.pool, LockOf)
  }

  ghost predicate ConfigOk(m: State) {
    m.floorPrice > 0 && m.curPrice > 0 && m.roundSize >= MIN_SELL_WALN && UsdcValue(m.roundSize, m.floorPrice, m.scale) > 0
  }

  /** Between rounds nothing is locked and nothing is in progress. */
  ghost predicate IdleOk(m: State) {
    Unlocked(m.pool) && m.curWaln == 0 && m.curSpent == 0
  }

  /** The locks of a running round against its cap. */
  ghost predicate LocksOk(m: State) {
    Opened(m.pool, m.curSize, m.curPrice, m.scale) &&
    GapSmall(UsdcValue(m.curSize, m.curPrice, m.scale), m.totalLocked, Participants(m.pool))
  }

  /** The sales of a running round: none, or at least the minimum; each paid, and all of
      them together no more than their joint value. */
  ghost predicate SalesOk(m: State) {
    && (m.curWaln == 0 || m.curWaln >= MIN_SELL_WALN)
    && (m.curWaln > 0 ==> m.curSpent > 0)
    && m.curSpent <= UsdcValue(m.curWaln, m.curPrice, m.scale)
  }

  /** What is left of an open round can still be sold for at least one unit. */
  ghost predicate CapacityOk(m: State) {
    m.curWaln < m.curSize && UsdcValue(m.curSize - m.curWaln, m.curPrice, m.scale) > 0
  }

  ghost predicate RoundOk(m: State) {
    if m.roundStarted then LocksOk(m) && SalesOk(m) && CapacityOk(m) else IdleOk(m)
  }

  /** A round account lists distinct investors in key order and counts the unpaid ones. */
  ghost predicate AccountOk(account: RoundLockedWaln) {
    Ascending(account.investors) && account.remainingToClaim == Total(account.investors, UnpaidOf) > 0
  }

  ghost predicate ClaimsOk(m: State) {
    forall r :: r in m.rounds ==> r < m.roundCount && AccountOk(m.rounds[r])
  }

  /** What the wALN vault holds beyond what is owed or still in play. */
  ghost function WalnExcess(m: State): int {
    m.walnVault - (MapSum(m.rounds, UnclaimedIn) + m.carryover + m.curWaln)
  }

  /** What holds whatever the current round is doing. */
  ghost predicate Core(m: State) {
    PoolOk(m) && AatOk(m) && LobbyOk(m) && ConfigOk(m) && ClaimsOk(m) && WalnExcess(m) >= 0
  }

  ghost predicate Inv(m: State) {
    Core(m) && RoundOk(m)
  }

  lemma InitializeEstablishes(price: u64, size: u64, lockPeriod: i64, scale: Scale)
    requires Initialize(price, size, lockPeriod, scale).Ok?
    ensures Inv(Initialize(price, size, lockPeriod, scale).value)
  {
  }

  // ---------- consequences ----------

  /** The volumes of distinct investors of the pool never sum to more than all NFTs. */
  lemma {:induction false} PoolVolumeBounded(pool: seq<InvestorRecord>, nfts: map<Pubkey, u64>)
    requires Distinct(Keys(pool))
    requires forall i :: 0 <= i < |pool| ==> pool[i].investor in nfts && pool[i].aatVolume == nfts[pool[i].investor]
    ensures Total(pool, VolumeOf) <= MapSum(nfts, Identity)
    decreases |pool|
  {
    if |pool| == 0 {
      MapSumNonNegative(nfts, Identity);
    } else {
      var init, last := pool[..|pool| - 1], pool[|pool| - 1];
      MapSumRemove(nfts, last.investor, Identity);
      assert pool == init + [last];
      forall i, j | 0 <= i < j < |init|
        ensures Keys(init)[i] != Keys(init)[j]
      {
        assert Keys(pool)[i] != Keys(pool)[j];
      }
      forall i | 0 <= i < |init|
        ensures init[i].investor in nfts - {last.investor}
      {
        assert Keys(pool)[i] != Keys(pool)[|pool| - 1];
      }
      PoolVolumeBounded(init, nfts - {last.investor});
      TotalAppend(init, last, VolumeOf);
    }
  }

  lemma PoolIsSound(m: State)
    requires PoolOk(m) && AatOk(m) && LobbyOk(m)
    ensures Sound(m.pool)
    ensures 0 <= Total(m.pool, LockOf) <= U64_MAX && 0 <= Total(m.pool, DepositOf) <= U64_MAX
    ensures 0 <= Total(m.pool, LockedVolumeOf) <= U64_MAX
  {
    PoolVolumeBounded(m.pool, m.nfts);
    TotalBalance(m.pool);
    TotalCoversEach(m.pool, DepositOf);
    TotalCoversEach(m.pool, LockOf);
    TotalCoversEach(m.pool, LockedVolumeOf);
    TotalAtMost(m.pool, m.pool, LockedVolumeOf, VolumeOf);
  }

  lemma UnclaimedNonNegative(rounds: map<nat, RoundLockedWaln>)
    ensures MapSum(rounds, UnclaimedIn) >= 0
  {
    forall r | r in rounds
      ensures UnclaimedIn(rounds[r]) >= 0
    {
      TotalCoversEach(rounds[r].investors, WalnOf);
    }
    MapSumNonNegative(rounds, UnclaimedIn);
  }

  // ---------- changes of the pool that leave the locks alone ----------

  function HasLock(r: InvestorRecord): int { if r.usdcLocked > 0 then 1 else 0 }

  lemma ParticipantsTotal(pool: seq<InvestorRecord>)
    ensures Participants(pool) == Total(pool, HasLock)
    ensures 0 <= Participants(pool) <= |pool|
  {
    forall i | 0 <= i < |pool|
      ensures Positive(Column(pool, LockOf))[i] == Column(pool, HasLock)[i]
    {
      ColumnAt(pool, LockOf, i);
      ColumnAt(pool, HasLock, i);
    }
    assert Positive(Column(pool, LockOf)) == Column(pool, HasLock);
    CountAtMostLength(Column(pool, LockOf), |pool|);
  }

  /** What `key` has locked in a record. */
  function LockFor(key: Pubkey): InvestorRecord -> int {
    (r: InvestorRecord) => if r.investor == key then r.usdcLocked else 0
  }

  /** Two pools hold the same locks: in total, in number, by investor, and by volume. */
  ghost predicate SameLocks(p: seq<InvestorRecord>, q: seq<InvestorRecord>) {
    && Total(p, LockOf) == Total(q, LockOf) && Total(p, HasLock) == Total(q, HasLock)
    && Total(p, LockedVolumeOf) == Total(q, LockedVolumeOf)
    && forall key :: Total(p, LockFor(key)) == Total(q, LockFor(key))
  }

  lemma SameLocksUpdate(pool: seq<InvestorRecord>, k: nat, r: InvestorRecord)
    requires k < |pool| && r.investor == pool[k].investor && r.usdcLocked == pool[k].usdcLocked
    requires r.usdcLocked > 0 ==> r.aatVolume == pool[k].aatVolume
    ensures SameLocks(pool, pool[k := r])
    ensures Total(pool[k := r], BalanceOf) == Total(pool, BalanceOf) - pool[k].usdcDeposited + r.usdcDeposited
    ensures Unlocked(pool) ==> Unlocked(pool[k := r])
  {
    TotalUpdate(pool, k, r, LockOf);
    TotalUpdate(pool, k, r, HasLock);
    TotalUpdate(pool, k, r, LockedVolumeOf);
    TotalUpdate(pool, k, r, BalanceOf);
    forall key
      ensures Total(pool[k := r], LockFor(key)) == Total(pool, LockFor(key))
    {
      TotalUpdate(pool, k, r, LockFor(key));
    }
  }

  /** The USDC vault's holdings beyond the balances of the records, the payments of the
      current round taken into account. */
  ghost function UsdcExcess(m: State): int {
    m.usdcVault - (m.lobby - m.curSpent)
  }

  /** An instruction that leaves the current round, the round accounts and both vaults'
      excess alone. */
  ghost predicate Quiet(m: State, n: State) {
    && n.scale == m.scale && n.roundStarted == m.roundStarted && n.roundCount == m.roundCount
    && n.curPrice == m.curPrice && n.curSize == m.curSize && n.curLockPeriod == m.curLockPeriod
    && n.curWaln == m.curWaln && n.curSpent == m.curSpent && n.totalLocked == m.totalLocked
    && n.rounds == m.rounds && n.carryover == m.carryover && n.walnVault == m.walnVault
    && UsdcExcess(n) == UsdcExcess(m) && SameLocks(m.pool, n.pool)
  }

  lemma RoundUnaffected(m: State, n: State)
    requires RoundOk(m) && LobbyOk(m) && SameLocks(m.pool, n.pool) && (Unlocked(m.pool) ==> Unlocked(n.pool))
    requires |n.pool| <= MAX_INVESTORS && Distinct(Keys(n.pool)) && n.totalLocked == m.totalLocked && n.scale == m.scale
    requires n.roundStarted == m.roundStarted && n.curWaln == m.curWaln && n.curSpent == m.curSpent
    requires n.curPrice == m.curPrice && n.curSize == m.curSize
    ensures RoundOk(n)
  {
    ParticipantsTotal(m.pool);
    ParticipantsTotal(n.pool);
  }

  /** A quiet instruction keeps the invariant when it keeps the records right. */
  lemma QuietKeeps(m: State, n: State)
    requires Inv(m) && Quiet(m, n) && (Unlocked(m.pool) ==> Unlocked(n.pool))
    requires PoolOk(n) && AatOk(n) && n.lobby == Total(n.pool, BalanceOf) && ConfigOk(n)
    ensures Inv(n) && WalnExcess(n) == WalnExcess(m)
  {
    RoundUnaffected(m, n);
  }

  lemma KeysUpdate(pool: seq<InvestorRecord>, k: nat, r: InvestorRecord)
    requires k < |pool| && r.investor == pool[k].investor
    ensures Keys(pool[k := r]) == Keys(pool)
  {
  }

  // ---------- deposits, withdrawals, removals ----------

  /** A deposit taken apart: the enrolled pool, the investor's slot and its new record. */
  lemma DepositIs(m: State, investor: Pubkey, amount: u64, now: i64) returns (n: State, k: nat, r: InvestorRecord)
    requires Deposit(m, investor, amount, now).Ok?
    ensures n == Deposit(m, investor, amount, now).value
    ensures k == IndexOf(Keys(m.pool), investor) && investor in m.nfts
    ensures |m.pool| < MAX_INVESTORS || k < |m.pool|
    ensures var before := Enrolled(m.pool, investor)[k];
      r == before.(aatVolume := m.nfts[investor], usdcDeposited := r.usdcDeposited, usdcUnlockTs := r.usdcUnlockTs) &&
      r.usdcDeposited == before.usdcDeposited + amount
    ensures m.lobby + amount <= U64_MAX && m.usdcVault + amount <= U64_MAX
    ensures n == m.(pool := Enrolled(m.pool, investor)[k := r], lobby := m.lobby + amount, usdcVault := m.usdcVault + amount)
  {
    n := Deposit(m, investor, amount, now).value;
    k := IndexOf(Keys(m.pool), investor);
    var before := Enrolled(m.pool, investor)[k];
    r := Credited(before, m.nfts[investor], amount, m.withdrawLock, now).value;
  }

  lemma DepositKeeps(m: State, investor: Pubkey, amount: u64, now: i64) returns (n: State)
    requires Inv(m) && Deposit(m, investor, amount, now).Ok?
    ensures n == Deposit(m, investor, amount, now).value
    ensures Inv(n) && Quiet(m, n) && WalnExcess(n) == WalnExcess(m)
  {
    var k, r;
    n, k, r := DepositIs(m, investor, amount, now);
    DepositedKeeps(m, n, investor, amount, k, r);
  }

  lemma DepositedKeeps(m: State, n: State, investor: Pubkey, amount: u64, k: nat, r: InvestorRecord)
    requires Inv(m) && k == IndexOf(Keys(m.pool), investor) && investor in m.nfts
    requires |m.pool| < MAX_INVESTORS || k < |m.pool|
    requires var before := Enrolled(m.pool, investor)[k];
      r.investor == before.investor && r.usdcLocked == before.usdcLocked && r.aatVolume == m.nfts[investor] &&
      r.usdcDeposited == before.usdcDeposited + amount
    requires m.lobby + amount <= U64_MAX && m.usdcVault + amount <= U64_MAX
    requires n == m.(pool := Enrolled(m.pool, investor)[k := r], lobby := m.lobby + amount, usdcVault := m.usdcVault + amount)
    ensures Inv(n) && Quiet(m, n) && WalnExcess(n) == WalnExcess(m)
  {
    var base := Enrolled(m.pool, investor);
    EnrolledKeeps(m.pool, investor);
    SameLocksUpdate(base, k, r);
    KeysUpdate(base, k, r);
    assert PoolOk(n);
    QuietKeeps(m, n);
  }

  lemma EnrolledKeeps(pool: seq<InvestorRecord>, investor: Pubkey)
    requires Distinct(Keys(pool))
    ensures var p := Enrolled(pool, investor);
      && (forall i :: 0 <= i < |p| && p[i].usdcLocked > 0 ==> i < |pool|)
      && Distinct(Keys(p)) && SameLocks(pool, p) && (Unlocked(pool) ==> Unlocked(p))
      && Total(p, BalanceOf) == Total(pool, BalanceOf)
      && p[IndexOf(Keys(pool), investor)].investor == investor
      && IndexOf(Keys(p), investor) == IndexOf(Keys(pool), investor)
  {
    var k := IndexOf(Keys(pool), investor);
    if k == |pool| {
      var r := NewRecord(investor);
      TotalAppend(pool, r, LockOf);
      TotalAppend(pool, r, HasLock);
      TotalAppend(pool, r, BalanceOf);
      TotalAppend(pool, r, LockedVolumeOf);
      forall key
        ensures Total(pool + [r], LockFor(key)) == Total(pool, LockFor(key))
      {
        TotalAppend(pool, r, LockFor(key));
      }
      assert Keys(pool + [r]) == Keys(pool) + [investor];
      IndexOfDistinct(Keys(pool + [r]), |pool|);
    } else {
      assert Keys(pool)[k] == investor;
    }
  }

  lemma WithdrawKeeps(m: State, investor: Pubkey, amount: u64, now: i64) returns (n: State)
    requires Inv(m) && Withdraw(m, investor, amount, now).Ok?
    ensures n == Withdraw(m, investor, amount, now).value
    ensures Inv(n) && Quiet(m, n) && WalnExcess(n) == WalnExcess(m)
  {
    n := Withdraw(m, investor, amount, now).value;
    var k := IndexOf(Keys(m.pool), investor);
    SameLocksUpdate(m.pool, k, n.pool[k]);
    KeysUpdate(m.pool, k, n.pool[k]);
    assert PoolOk(n);
    QuietKeeps(m, n);
  }

  lemma SwapRemoveKeeps(pool: seq<InvestorRecord>, k: nat)
    requires k < |pool| && Distinct(Keys(pool)) && pool[k].usdcLocked == 0
    ensures var p := SwapRemove(pool, k);
      && Distinct(Keys(p)) && SameLocks(pool, p) && (Unlocked(pool) ==> Unlocked(p))
      && Total(p, BalanceOf) == Total(pool, BalanceOf) - pool[k].usdcDeposited
      && forall i :: 0 <= i < |p| ==> p[i] in pool
  {
    var p := SwapRemove(pool, k);
    TotalSwapRemove(pool, k, LockOf);
    TotalSwapRemove(pool, k, HasLock);
    TotalSwapRemove(pool, k, BalanceOf);
    TotalSwapRemove(pool, k, LockedVolumeOf);
    forall key
      ensures Total(p, LockFor(key)) == Total(pool, LockFor(key))
    {
      TotalSwapRemove(pool, k, LockFor(key));
    }
    forall i, j | 0 <= i < j < |p|
      ensures Keys(p)[i] != Keys(p)[j]
    {
      var keys := Keys(pool);
      assert Keys(p)[i] == (if i == k then keys[|pool| - 1] else keys[i]);
      assert Keys(p)[j] == (if j == k then keys[|pool| - 1] else keys[j]);
    }
  }

  lemma RemoveKeeps(m: State, investor: Pubkey) returns (n: State)
    requires Inv(m) && Remove(m, investor).Ok?
    ensures n == Remove(m, investor).value
    ensures Inv(n) && Quiet(m, n) && WalnExcess(n) == WalnExcess(m)
  {
    n := Remove(m, investor).value;
    SwapRemoveKeeps(m.pool, IndexOf(Keys(m.pool), investor));
    forall i | 0 <= i < |n.pool|
      ensures n.pool[i].investor in n.nfts && n.pool[i].aatVolume == n.nfts[n.pool[i].investor]
    {
      var j :| 0 <= j < |m.pool| && m.pool[j] == n.pool[i];
    }
    QuietKeeps(m, n);
  }

  lemma SetUnlockKeeps(m: State, investor: Pubkey, unlock: i64) returns (n: State)
    requires Inv(m) && SetUnlock(m, investor, unlock).Ok?
    ensures n == SetUnlock(m, investor, unlock).value
    ensures Inv(n) && Quiet(m, n) && WalnExcess(n) == WalnExcess(m)
  {
    n := SetUnlock(m, investor, unlock).value;
    var k := IndexOf(Keys(m.pool), investor);
    SameLocksUpdate(m.pool, k, n.pool[k]);
    KeysUpdate(m.pool, k, n.pool[k]);
    assert PoolOk(n);
    QuietKeeps(m, n);
  }

  // ---------- AAT volumes ----------

  lemma MintKeeps(m: State, investor: Pubkey, volume: u64) returns (n: State)
    requires Inv(m) && MintAat(m, investor, volume).Ok?
    ensures n == MintAat(m, investor, volume).value
    ensures Inv(n) && Quiet(m, n) && WalnExcess(n) == WalnExcess(m)
  {
    n := MintAat(m, investor, volume).value;
    MintedKeeps(m, n, investor, volume);
  }

  lemma MintedKeeps(m: State, n: State, investor: Pubkey, volume: u64)
    requires Inv(m) && investor !in m.nfts && m.totalAat + volume <= MAX_TOTAL_AAT_VOLUME
    requires n == m.(totalAat := m.totalAat + volume, nfts := m.nfts[investor := volume])
    ensures Inv(n) && Quiet(m, n) && WalnExcess(n) == WalnExcess(m)
  {
    VolumesSum(m, investor, volume);
    assert PoolOk(n) && AatOk(n);
    QuietKeeps(m, n);
  }

  lemma UpdateAatKeeps(m: State, investor: Pubkey, volume: u64) returns (n: State)
    requires Inv(m) && UpdateAat(m, investor, volume).Ok?
    ensures n == UpdateAat(m, investor, volume).value
    ensures Inv(n) && Quiet(m, n) && WalnExcess(n) == WalnExcess(m)
  {
    n := UpdateAat(m, investor, volume).value;
    UpdatedKeeps(m, n, investor, volume, m.totalAat - m.nfts[investor] + volume);
  }

  lemma UpdatedKeeps(m: State, n: State, investor: Pubkey, volume: u64, total: u64)
    requires Inv(m) && !m.roundStarted && investor in m.nfts
    requires total == m.totalAat - m.nfts[investor] + volume <= MAX_TOTAL_AAT_VOLUME
    requires n == m.(totalAat := total, nfts := m.nfts[investor := volume], pool := WithVolume(m.pool, investor, volume))
    ensures Inv(n) && Quiet(m, n) && WalnExcess(n) == WalnExcess(m)
  {
    VolumesSum(m, investor, volume);
    VolumeSynced(m, investor, volume);
    assert PoolOk(n) && AatOk(n);
    QuietKeeps(m, n);
  }

  lemma VolumesSum(m: State, investor: Pubkey, volume: u64)
    requires AatOk(m)
    ensures MapSum(m.nfts[investor := volume], Identity) ==
      m.totalAat + volume - (if investor in m.nfts then m.nfts[investor] else 0)
  {
    MapSumUpdate(m.nfts, investor, volume, Identity);
  }

  /** Changing an NFT's volume and the investor's record together keeps them equal. */
  lemma VolumeSynced(m: State, investor: Pubkey, volume: u64)
    requires PoolOk(m) && Unlocked(m.pool)
    ensures var p, nfts := WithVolume(m.pool, investor, volume), m.nfts[investor := volume];
      && Keys(p) == Keys(m.pool) && SameLocks(m.pool, p) && (Unlocked(m.pool) ==> Unlocked(p))
      && Total(p, BalanceOf) == Total(m.pool, BalanceOf)
      && forall i :: 0 <= i < |p| ==> p[i].investor in nfts && p[i].aatVolume == nfts[p[i].investor]
  {
    var k := IndexOf(Keys(m.pool), investor);
    var p := WithVolume(m.pool, investor, volume);
    if k < |m.pool| {
      SameLocksUpdate(m.pool, k, p[k]);
      KeysUpdate(m.pool, k, p[k]);
    }
    forall i | 0 <= i < |p|
      ensures p[i].investor == investor <==> i == k
    {
      IndexOfDistinct(Keys(m.pool), i);
      assert Keys(m.pool)[i] == m.pool[i].investor == p[i].investor;
    }
  }
}
