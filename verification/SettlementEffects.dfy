/** What the two settlements do to a pool with an open round, and when they succeed. */
module SettlementEffects {
  import opened Arithmetic
  import opened Accounts
  import opened Gap
  import opened Settlement
  import opened ForcedSettlement
  import opened Allotment

  /** The locks of an open round: they fall short of the cap by less than one unit per
      participant, and the round has at least the minimum size. */
  ghost predicate Opened(pool: seq<InvestorRecord>, size: u64, price: u64, scale: Scale) {
    && |pool| <= MAX_INVESTORS && Distinct(Keys(pool))
    && price > 0 && size >= MIN_SELL_WALN && UsdcValue(size, price, scale) > 0
    && 1 <= Participants(pool) <= |pool|
    && 0 <= UsdcValue(size, price, scale) - Total(pool, LockOf) < Participants(pool)
  }

  // ---------- the value of the locks ----------

  lemma {:induction false} LocksAtLeastOne(locks: seq<int>, n: nat)
    requires n <= |locks| && forall i :: 0 <= i < |locks| ==> locks[i] >= 0
    ensures SumTo(Positive(locks), n) <= SumTo(locks, n)
  {
    if n > 0 {
      LocksAtLeastOne(locks, n - 1);
    }
  }

  lemma BaseBounds(pool: seq<InvestorRecord>, price: u64, scale: Scale)
    requires price > 0
    ensures price * Sum(BaseAmounts(pool, price, scale)) <= scale * Total(pool, LockOf)
    ensures scale * Total(pool, LockOf) <= price * Sum(BaseAmounts(pool, price, scale)) + (price - 1) * Participants(pool)
  {
    PoolColumns(pool);
    ScaledBounds(Column(pool, LockOf), scale, price, |pool|);
  }

  /** The base allocations never exceed the round size, so the carryover of a full
      settlement cannot underflow, and they are never all zero. */
  lemma BasesWithinSize(pool: seq<InvestorRecord>, size: u64, price: u64, scale: Scale)
    requires Opened(pool, size, price, scale)
    ensures 0 < Sum(BaseAmounts(pool, price, scale)) <= size
  {
    var cap, locked, n := UsdcValue(size, price, scale), Total(pool, LockOf), Participants(pool);
    PoolColumns(pool);
    LocksAtLeastOne(Column(pool, LockOf), |pool|);
    BaseBounds(pool, price, scale);
    FloorBounds(size * price, scale);
    MulMonotone(locked, cap, scale);
    var bases := Sum(BaseAmounts(pool, price, scale));
    Cancel(price, bases, size);
    LocksWorthWaln(cap, locked, n, size, price, scale, bases);
  }

  lemma LocksWorthWaln(cap: int, locked: int, n: int, size: int, price: int, scale: int, bases: int)
    requires 1 <= n <= MAX_INVESTORS && n <= locked && cap - locked < n
    requires size >= MIN_SELL_WALN && price > 0 && scale > 0
    requires size * price < scale * cap + scale
    requires scale * locked <= price * bases + (price - 1) * n
    ensures bases > 0
  {
    MulMonotone(cap + 1, 2 * locked, scale);
    Distribute(scale, cap, 1);
    assert scale * (2 * locked) == 2 * (scale * locked);
    MulMonotone(MIN_SELL_WALN, size, price);
    MulMonotone(n, MAX_INVESTORS, price - 1);
    if bases <= 0 {
      MulMonotone(bases, 0, price);
    }
  }

  /** The dust a full settlement carries over, bounded by the rounding of this round alone. */
  predicate DustBounded(dust: int, size: int, price: int, scale: int, locked: int, n: int)
    requires scale > 0
  {
    0 <= price * dust <= (scale - 1) + (size * price / scale - locked) * scale + n * (price - 1)
  }

  lemma DustOfRound(pool: seq<InvestorRecord>, size: u64, price: u64, scale: Scale)
    requires Opened(pool, size, price, scale)
    ensures DustBounded(size - Sum(BaseAmounts(pool, price, scale)), size, price, scale, Total(pool, LockOf), Participants(pool))
  {
    BaseBounds(pool, price, scale);
    BasesWithinSize(pool, size, price, scale);
    DustArithmetic(size, price, scale, Total(pool, LockOf), Participants(pool), Sum(BaseAmounts(pool, price, scale)));
  }

  lemma DustArithmetic(size: int, price: int, scale: int, locked: int, n: int, bases: int)
    requires price > 0 && scale > 0 && bases <= size
    requires scale * locked <= price * bases + (price - 1) * n
    ensures DustBounded(size - bases, size, price, scale, locked, n)
  {
    FloorBounds(size * price, scale);
    Distribute(price, size, -bases);
    Distribute(scale, size * price / scale, -locked);
    MulMonotone(0, size - bases, price);
  }

  // ---------- full settlement ----------

  lemma BasesEach(pool: seq<InvestorRecord>, price: u64, scale: Scale)
    requires price > 0
    ensures forall i :: 0 <= i < |pool| ==> 0 <= BaseAmounts(pool, price, scale)[i] <= Sum(BaseAmounts(pool, price, scale))
    ensures forall i :: 0 <= i < |pool| && pool[i].usdcLocked == 0 ==> BaseAmounts(pool, price, scale)[i] == 0
  {
    BasesNonNegative(pool, price, scale);
    SumToNonNegative(BaseAmounts(pool, price, scale), |pool|);
  }

  /** How many of the first `n` records hold a lock. */
  function LocksBefore(pool: seq<InvestorRecord>, n: nat): (k: nat)
    requires n <= |pool|
  {
    if n == 0 then 0 else LocksBefore(pool, n - 1) + (if pool[n - 1].usdcLocked > 0 then 1 else 0)
  }

  lemma {:induction false} LocksBeforeIsCount(pool: seq<InvestorRecord>, n: nat)
    requires n <= |pool|
    ensures LocksBefore(pool, n) == SumTo(Positive(Column(pool, LockOf)), n)
  {
    if n > 0 {
      ColumnAt(pool, LockOf, n - 1);
      LocksBeforeIsCount(pool, n - 1);
    }
  }

  lemma {:induction false} LocksBeforeGrows(pool: seq<InvestorRecord>, m: nat, n: nat)
    requires m <= n <= |pool|
    ensures LocksBefore(pool, m) <= LocksBefore(pool, n)
  {
    if m < n {
      LocksBeforeGrows(pool, m, n - 1);
    }
  }

  /** Position, within the first `n` records, of the participant that exactly `k` others precede. */
  function ParticipantAt(pool: seq<InvestorRecord>, n: nat, k: nat): (i: nat)
    requires n <= |pool| && k < LocksBefore(pool, n)
    ensures i < n && pool[i].usdcLocked > 0 && LocksBefore(pool, i) == k
  {
    if LocksBefore(pool, n - 1) <= k then n - 1 else ParticipantAt(pool, n - 1, k)
  }

  lemma {:induction false} AllocationAt(pool: seq<InvestorRecord>, amounts: seq<int>, n: nat, k: nat)
    requires n <= |pool| == |amounts| && k < LocksBefore(pool, n)
    requires forall i :: 0 <= i < n ==> 0 <= amounts[i] <= U64_MAX
    ensures |Allocations(pool, amounts, n)| == LocksBefore(pool, n)
    ensures var i := ParticipantAt(pool, n, k);
      Allocations(pool, amounts, n)[k] == InvestorAlloc(pool[i].investor, amounts[i])
  {
    AllocationsCount(pool, amounts, n);
    AllocationsCount(pool, amounts, n - 1);
    if k < LocksBefore(pool, n - 1) {
      AllocationAt(pool, amounts, n - 1, k);
    }
  }

  lemma {:induction false} AllocationsCount(pool: seq<InvestorRecord>, amounts: seq<int>, n: nat)
    requires n <= |pool| == |amounts|
    requires forall i :: 0 <= i < n ==> 0 <= amounts[i] <= U64_MAX
    ensures |Allocations(pool, amounts, n)| == LocksBefore(pool, n)
  {
    if n > 0 {
      AllocationsCount(pool, amounts, n - 1);
    }
  }

  /** The timestamp picks record `w` for the old dust: the participant that exactly
      (timestamp as u64) modulo (number of participants) others precede in the pool. */
  predicate Picks(pool: seq<InvestorRecord>, now: int, w: nat) {
    && w < |pool| && pool[w].usdcLocked > 0 && LocksBefore(pool, |pool|) > 0
    && LocksBefore(pool, w) == (now % TWO_TO_64) % LocksBefore(pool, |pool|)
  }

  lemma PicksOne(pool: seq<InvestorRecord>, now: i64) returns (w: nat)
    requires Participants(pool) > 0
    ensures Picks(pool, now, w) && forall v: nat :: Picks(pool, now, v) ==> v == w
  {
    LocksBeforeIsCount(pool, |pool|);
    w := ParticipantAt(pool, |pool|, (now % TWO_TO_64) % LocksBefore(pool, |pool|));
    forall v: nat | Picks(pool, now, v)
      ensures v == w
    {
      SameRank(pool, v, w);
    }
  }

  /** The investor the timestamp picks for the old dust. */
  ghost predicate Wins(pool: seq<InvestorRecord>, now: i64, key: Pubkey) {
    exists w: nat :: Picks(pool, now, w) && pool[w].investor == key
  }

  lemma RankGrows(pool: seq<InvestorRecord>, v: nat, w: nat)
    requires v < w <= |pool| && pool[v].usdcLocked > 0
    ensures LocksBefore(pool, v) < LocksBefore(pool, w)
  {
    LocksBeforeGrows(pool, v + 1, w);
  }

  lemma SameRank(pool: seq<InvestorRecord>, v: nat, w: nat)
    requires v < |pool| && w < |pool| && pool[v].usdcLocked > 0 && pool[w].usdcLocked > 0
    requires LocksBefore(pool, v) == LocksBefore(pool, w)
    ensures v == w
  {
    if v < w {
      RankGrows(pool, v, w);
    } else if w < v {
      RankGrows(pool, w, v);
    }
  }

  /** A base allocation is never worth more than the lock it came from. */
  lemma BaseWithinLock(usdc: nat, price: nat, scale: Scale)
    requires price > 0
    ensures UsdcValue(scale * usdc / price, price, scale) <= usdc
  {
    FloorBounds(scale * usdc, price);
    FloorAtMost((scale * usdc / price) * price, scale, usdc);
  }

  /** The participant that `now` picks can take the dust: the allocation with the dust on
      top is worth at most a u64 of USDC, which is what its log entry holds. */
  ghost predicate DustLoggable(pool: seq<InvestorRecord>, price: u64, scale: Scale, dust: u64, now: i64)
    requires price > 0
  {
    dust == 0 || forall w: nat :: Picks(pool, now, w) ==>
      (scale * pool[w].usdcLocked / price + dust) * price / scale <= U64_MAX
  }

  /** The log entries of the base allocations, and after the dust that of its recipient. */
  lemma SharesLoggable(pool: seq<InvestorRecord>, price: u64, scale: Scale)
    requires price > 0
    requires var bases := BaseAmounts(pool, price, scale); forall i :: 0 <= i < |pool| ==> 0 <= bases[i] <= U64_MAX
    ensures Loggable(Allocations(pool, BaseAmounts(pool, price, scale), |pool|), price, scale)
  {
    var bases := BaseAmounts(pool, price, scale);
    var shares := Allocations(pool, bases, |pool|);
    AllocationsCount(pool, bases, |pool|);
    forall k | 0 <= k < |shares|
      ensures UsdcValue(shares[k].walnAmount, price, scale) <= U64_MAX
    {
      AllocationAt(pool, bases, |pool|, k);
      var i := ParticipantAt(pool, |pool|, k);
      BaseAt(pool, price, scale, i);
      BaseWithinLock(pool[i].usdcLocked, price, scale);
    }
  }

  lemma DustedLoggable(pool: seq<InvestorRecord>, price: u64, scale: Scale, dust: u64, now: i64)
    requires price > 0 && dust > 0 && Participants(pool) > 0
    requires var bases := BaseAmounts(pool, price, scale); forall i :: 0 <= i < |pool| ==> 0 <= bases[i] && bases[i] + dust <= U64_MAX
    ensures var shares := Allocations(pool, BaseAmounts(pool, price, scale), |pool|);
      && |shares| == Participants(pool) && AddDust(shares, dust, now).Ok?
      && (Loggable(AddDust(shares, dust, now).value, price, scale) <==> DustLoggable(pool, price, scale, dust, now))
  {
    var shares := Allocations(pool, BaseAmounts(pool, price, scale), |pool|);
    var w := PicksOne(pool, now);
    PickedShare(pool, price, scale, now, w);
    var k := DustRecipient(now, Participants(pool));
    SharesLoggable(pool, price, scale);
    OneEntryLoggable(shares, k, dust, price, scale);
    assert UsdcValue(shares[k].walnAmount + dust, price, scale) == (scale * pool[w].usdcLocked / price + dust) * price / scale;
  }

  lemma PickedShare(pool: seq<InvestorRecord>, price: u64, scale: Scale, now: i64, w: nat)
    requires price > 0 && Participants(pool) > 0 && Picks(pool, now, w)
    requires var bases := BaseAmounts(pool, price, scale); forall i :: 0 <= i < |pool| ==> 0 <= bases[i] <= U64_MAX
    ensures var shares, k := Allocations(pool, BaseAmounts(pool, price, scale), |pool|), DustRecipient(now, Participants(pool));
      |shares| == Participants(pool) && shares[k].walnAmount == BaseAmounts(pool, price, scale)[w] == scale * pool[w].usdcLocked / price
  {
    var k := DustRecipient(now, Participants(pool));
    LocksBeforeIsCount(pool, |pool|);
    AllocationAt(pool, BaseAmounts(pool, price, scale), |pool|, k);
    SameRank(pool, w, ParticipantAt(pool, |pool|, k));
    BaseAt(pool, price, scale, w);
  }

  /** When all entries can be logged, the dusted list can exactly when its dusted entry can. */
  lemma OneEntryLoggable(shares: seq<InvestorAlloc>, k: nat, dust: u64, price: u64, scale: Scale)
    requires k < |shares| && shares[k].walnAmount + dust <= U64_MAX && Loggable(shares, price, scale)
    ensures Loggable(WithDust(shares, k, dust), price, scale) <==>
      UsdcValue(shares[k].walnAmount + dust, price, scale) <= U64_MAX
  {
    assert WithDust(shares, k, dust)[k].walnAmount == shares[k].walnAmount + dust;
  }

  /** Full settlement of an open round succeeds exactly when the log entry of the dust's
      recipient holds; nothing else in it can overflow. */
  lemma FullSucceeds(pool: seq<InvestorRecord>, size: u64, price: u64, scale: Scale, dust: u64, now: i64)
    requires Opened(pool, size, price, scale)
    requires Total(pool, LockOf) <= U64_MAX && Total(pool, LockedVolumeOf) <= U64_MAX && size + dust <= U64_MAX
    ensures SettleFull(pool, price, scale, dust, now).Ok? <==> DustLoggable(pool, price, scale, dust, now)
    ensures SettleFull(pool, price, scale, dust, now).Err? ==> SettleFull(pool, price, scale, dust, now) == Err(ArithmeticOverflow)
  {
    var bases := BaseAmounts(pool, price, scale);
    BasesWithinSize(pool, size, price, scale);
    BasesEach(pool, price, scale);
    PoolColumns(pool);
    SumToNonNegative(Column(pool, LockOf), |pool|);
    SumToNonNegative(Column(pool, LockedVolumeOf), |pool|);
    if dust == 0 {
      SharesLoggable(pool, price, scale);
    } else {
      DustedLoggable(pool, price, scale, dust, now);
    }
  }

  /** Both settlements only touch locks, refunds and the lifetime counters. */
  predicate SameButPaid(before: seq<InvestorRecord>, after: seq<InvestorRecord>) {
    |after| == |before| &&
    forall i :: 0 <= i < |before| ==>
      && after[i].investor == before[i].investor && after[i].aatVolume == before[i].aatVolume
      && after[i].usdcUnlockTs == before[i].usdcUnlockTs && after[i].usdcLocked == 0
  }

  /** A stored list: strictly ascending keys, positive amounts only. */
  predicate WellStored(allocs: seq<InvestorAlloc>) {
    Ascending(allocs) && AllPositive(allocs) && |allocs| == Total(allocs, UnpaidOf)
  }

  lemma FullPool(pool: seq<InvestorRecord>, price: u64, scale: Scale, dust: u64, now: i64)
    requires price > 0 && SettleFull(pool, price, scale, dust, now).Ok?
    ensures var s := SettleFull(pool, price, scale, dust, now).value;
      && SameButPaid(pool, s.pool)
      && (forall i :: 0 <= i < |pool| ==> s.pool[i].usdcDeposited == pool[i].usdcDeposited)
      && s.summary.usdcSpent == Total(pool, LockOf)
      && s.summary.aatVolume == Total(pool, LockedVolumeOf)
  {
    var bases := BaseAmounts(pool, price, scale);
    var paid := SpendLocks(pool, bases);
    assert forall i :: 0 <= i < |pool| ==> paid[i] == SpendLock(pool[i], bases[i]);
  }

  /** The list gives every participant of the pool its amount and nobody else anything. */
  ghost predicate Lists(allocs: seq<InvestorAlloc>, pool: seq<InvestorRecord>, amounts: seq<int>)
    requires |amounts| == |pool|
  {
    && Total(allocs, WalnOf) == Sum(amounts)
    && (forall i :: 0 <= i < |pool| && pool[i].usdcLocked > 0 ==> Total(allocs, WalnFor(pool[i].investor)) == amounts[i])
    && (forall key :: !Participates(pool, key) ==> Total(allocs, WalnFor(key)) == 0)
  }

  predicate Participates(pool: seq<InvestorRecord>, key: Pubkey) {
    exists i :: 0 <= i < |pool| && pool[i].usdcLocked > 0 && pool[i].investor == key
  }

  lemma AllocationsList(pool: seq<InvestorRecord>, amounts: seq<int>)
    requires |amounts| == |pool| && Distinct(Keys(pool))
    requires forall i :: 0 <= i < |pool| ==> 0 <= amounts[i] <= U64_MAX && (pool[i].usdcLocked == 0 ==> amounts[i] == 0)
    ensures var shares := Allocations(pool, amounts, |pool|);
      OneEach(shares) && |shares| == Participants(pool) && Lists(shares, pool, amounts)
    ensures forall k :: 0 <= k < |Allocations(pool, amounts, |pool|)| ==>
      Participates(pool, Allocations(pool, amounts, |pool|)[k].investor)
  {
    AllocationsKeys(pool, amounts, |pool|);
    AllocationsTotal(pool, amounts, |pool|);
    forall i | 0 <= i < |pool| && pool[i].usdcLocked > 0
      ensures Total(Allocations(pool, amounts, |pool|), WalnFor(pool[i].investor)) == amounts[i]
    {
      AllocationsFor(pool, amounts, |pool|, i);
    }
    forall key | !Participates(pool, key)
      ensures Total(Allocations(pool, amounts, |pool|), WalnFor(key)) == 0
    {
      AllocationsForOthers(pool, amounts, |pool|, key);
    }
  }

  lemma StoredList(allocs: seq<InvestorAlloc>, pool: seq<InvestorRecord>, amounts: seq<int>)
    requires |amounts| == |pool| && OneEach(allocs) && Lists(allocs, pool, amounts)
    ensures WellStored(SortAllocs(Retain(allocs))) && Lists(SortAllocs(Retain(allocs)), pool, amounts)
    ensures |SortAllocs(Retain(allocs))| == |Retain(allocs)|
  {
    Stored(allocs);
  }

  /** The old dust lands on exactly one participant. */
  lemma DustList(shares: seq<InvestorAlloc>, k: nat, pool: seq<InvestorRecord>, bases: seq<int>, dust: u64) returns (w: nat)
    requires |bases| == |pool| && Distinct(Keys(pool)) && Lists(shares, pool, bases) && OneEach(shares)
    requires k < |shares| && shares[k].walnAmount + dust <= U64_MAX && Participates(pool, shares[k].investor)
    ensures w < |pool| && pool[w].usdcLocked > 0 && pool[w].investor == shares[k].investor
    ensures var final := WithDust(shares, k, dust);
      OneEach(final) && Lists(final, pool, bases[w := bases[w] + dust])
  {
    w :| 0 <= w < |pool| && pool[w].usdcLocked > 0 && pool[w].investor == shares[k].investor;
    var final := WithDust(shares, k, dust);
    DustTotals(shares, k, dust);
    SumToUpdate(bases, w, bases[w] + dust, |pool|);
    forall i | 0 <= i < |pool| && pool[i].usdcLocked > 0
      ensures Total(final, WalnFor(pool[i].investor)) == bases[w := bases[w] + dust][i]
    {
      assert i != w ==> Keys(pool)[i] != Keys(pool)[w];
    }
  }

  lemma FinishList(paid: seq<InvestorRecord>, totals: Summary, price: u64, scale: Scale, dust: u64, now: i64)
    requires Finish(paid, totals, price, scale, dust, now).Ok? && |totals.allocs| > 0
    ensures var s := Finish(paid, totals, price, scale, dust, now).value.summary;
      var k := DustRecipient(now, |totals.allocs|);
      && totals.allocs[k].walnAmount + dust <= U64_MAX
      && s.allocs == SortAllocs(Retain(WithDust(totals.allocs, k, dust)))
      && s.walnPurchased == totals.walnPurchased + dust && s.participants == totals.participants
  {
    var k := DustRecipient(now, |totals.allocs|);
    if dust == 0 {
      assert WithDust(totals.allocs, k, dust) == totals.allocs;
    }
  }

  /** Each participant's base allocation is listed, and all of the earlier dust on top of
      that of record `w`, the one the timestamp picks. */
  ghost predicate DustedList(s: Summary, pool: seq<InvestorRecord>, bases: seq<int>, dust: u64, now: i64, w: nat)
    requires |bases| == |pool|
  {
    && Picks(pool, now, w) && WellStored(s.allocs) && Lists(s.allocs, pool, bases[w := bases[w] + dust])
    && s.walnPurchased == Sum(bases) + dust && s.participants == Participants(pool)
  }

  lemma FullListed(pool: seq<InvestorRecord>, bases: seq<int>, paid: seq<InvestorRecord>, price: u64, scale: Scale, dust: u64, now: i64) returns (w: nat)
    requires |bases| == |pool| && Distinct(Keys(pool)) && Participants(pool) > 0
    requires PrefixFits(pool, bases, |pool|)
    requires forall i :: 0 <= i < |pool| && pool[i].usdcLocked == 0 ==> bases[i] == 0
    requires Finish(paid, PrefixTotals(pool, bases, |pool|), price, scale, dust, now).Ok?
    ensures DustedList(Finish(paid, PrefixTotals(pool, bases, |pool|), price, scale, dust, now).value.summary, pool, bases, dust, now, w)
  {
    var totals := PrefixTotals(pool, bases, |pool|);
    var shares := totals.allocs;
    AllocationsList(pool, bases);
    FinishList(paid, totals, price, scale, dust, now);
    var k := DustRecipient(now, |shares|);
    w := DustList(shares, k, pool, bases, dust);
    RecipientPicked(pool, bases, now, w);
    StoredList(WithDust(shares, k, dust), pool, bases[w := bases[w] + dust]);
  }

  /** The list a full settlement stores. */
  lemma FullAllocations(pool: seq<InvestorRecord>, price: u64, scale: Scale, dust: u64, now: i64) returns (w: nat)
    requires price > 0 && Distinct(Keys(pool)) && Participants(pool) > 0
    requires SettleFull(pool, price, scale, dust, now).Ok?
    ensures DustedList(SettleFull(pool, price, scale, dust, now).value.summary, pool, BaseAmounts(pool, price, scale), dust, now, w)
  {
    var bases := BaseAmounts(pool, price, scale);
    BasesEach(pool, price, scale);
    w := FullListed(pool, bases, SpendLocks(pool, bases), price, scale, dust, now);
  }

  /** The investor at the recipient's position in the list is the one picked in the pool. */
  lemma RecipientPicked(pool: seq<InvestorRecord>, bases: seq<int>, now: i64, w: nat)
    requires |bases| == |pool| && Distinct(Keys(pool)) && Participants(pool) > 0 && w < |pool|
    requires forall i :: 0 <= i < |pool| ==> 0 <= bases[i] <= U64_MAX
    requires var shares := Allocations(pool, bases, |pool|);
      |shares| == Participants(pool) && pool[w].investor == shares[DustRecipient(now, |shares|)].investor
    ensures Picks(pool, now, w)
  {
    LocksBeforeIsCount(pool, |pool|);
    var k := DustRecipient(now, Participants(pool));
    AllocationAt(pool, bases, |pool|, k);
    var i := ParticipantAt(pool, |pool|, k);
    assert Keys(pool)[i] == Keys(pool)[w];
  }

  lemma DustTotals(shares: seq<InvestorAlloc>, k: nat, dust: u64)
    requires k < |shares| && shares[k].walnAmount + dust <= U64_MAX
    ensures var final := WithDust(shares, k, dust);
      && Total(final, WalnOf) == Total(shares, WalnOf) + dust
      && forall key :: Total(final, WalnFor(key)) == Total(shares, WalnFor(key)) + (if shares[k].investor == key then dust else 0)
  {
    var entry := InvestorAlloc(shares[k].investor, shares[k].walnAmount + dust);
    TotalUpdate(shares, k, entry, WalnOf);
    forall key
      ensures Total(shares[k := entry], WalnFor(key)) == Total(shares, WalnFor(key)) + (if shares[k].investor == key then dust else 0)
    {
      TotalUpdate(shares, k, entry, WalnFor(key));
    }
  }

  // ---------- forced settlement ----------

  /** A forced settlement fails on a pool within the limits only when more was paid out
      than the round had locked. */
  lemma ForcedSucceeds(pool: seq<InvestorRecord>, size: u64, price: u64, scale: Scale, waln: u64, paid: u64)
    requires Opened(pool, size, price, scale) && paid > 0
    requires Total(pool, BalanceOf) <= U64_MAX && Total(pool, LockedVolumeOf) <= U64_MAX
    ensures SettleForced(pool, price, scale, waln, paid).Ok? <==> paid <= Total(pool, LockOf)
    ensures SettleForced(pool, price, scale, waln, paid).Err? ==>
      SettleForced(pool, price, scale, waln, paid) == Err(ArithmeticOverflow)
  {
    var locks, full := Column(pool, LockOf), BaseAmounts(pool, price, scale);
    BasesWithinSize(pool, size, price, scale);
    if paid <= Total(pool, LockOf) {
      BasesEach(pool, price, scale);
      PoolColumns(pool);
      WalnSharesExact(locks, full, waln);
      UsdcSharesExact(locks, paid);
      SumToNonNegative(Column(pool, LockedVolumeOf), |pool|);
      TotalCoversEach(pool, BalanceOf);
      var spent, walnShares := UsdcShares(locks, paid), WalnShares(locks, full, waln);
      forall i | 0 <= i < |pool|
        ensures waln * full[i] <= U128_MAX
        ensures pool[i].usdcDeposited + (pool[i].usdcLocked - spent[i]) <= U64_MAX
      {
        MulMonotone(waln, U64_MAX, full[i]);
        MulMonotone(full[i], U64_MAX, U64_MAX);
        assert BalanceOf(pool[i]) <= U64_MAX;
      }
    }
  }

  /** What a forced settlement pays: the shares of the locks, the rest refunded. */
  lemma ForcedPool(pool: seq<InvestorRecord>, price: u64, scale: Scale, waln: u64, paid: u64)
    requires price > 0 && SettleForced(pool, price, scale, waln, paid).Ok?
    ensures 0 < paid <= Total(pool, LockOf)
    ensures var s := SettleForced(pool, price, scale, waln, paid).value;
      var spent := UsdcShares(Column(pool, LockOf), paid);
      && SameButPaid(pool, s.pool)
      && (forall i :: 0 <= i < |pool| ==>
        0 <= spent[i] <= pool[i].usdcLocked &&
        s.pool[i].usdcDeposited == pool[i].usdcDeposited + pool[i].usdcLocked - spent[i])
      && Sum(spent) == paid == s.summary.usdcSpent
      && Total(s.pool, BalanceOf) == Total(pool, BalanceOf) - paid
      && s.summary.aatVolume == Total(pool, LockedVolumeOf)
  {
    var locks := Column(pool, LockOf);
    var s := SettleForced(pool, price, scale, waln, paid).value;
    var spent, walnShares := UsdcShares(locks, paid), WalnShares(locks, BaseAmounts(pool, price, scale), waln);
    PoolColumns(pool);
    UsdcSharesExact(locks, paid);
    forall i | 0 <= i < |pool|
      ensures Column(pool, BalanceOf)[i] == Column(s.pool, BalanceOf)[i] + spent[i]
      ensures s.pool[i] == RefundLock(pool[i], spent[i], walnShares[i])
    {
      assert s.pool[i] == RefundLock(pool[i], spent[i], walnShares[i]);
      ColumnAt(pool, BalanceOf, i);
      ColumnAt(s.pool, BalanceOf, i);
    }
    SumToAdd(Column(s.pool, BalanceOf), spent, Column(pool, BalanceOf), |pool|);
  }

  /** The list gives each participant of a forced settlement the own wALN share. */
  ghost predicate SharedList(s: Summary, pool: seq<InvestorRecord>, shares: seq<int>, waln: int)
    requires |shares| == |pool|
  {
    && WellStored(s.allocs) && s.participants == |s.allocs| && Lists(s.allocs, pool, shares)
    && s.walnPurchased == Sum(shares) == waln
  }

  lemma ForcedSummary(pool: seq<InvestorRecord>, price: u64, scale: Scale, waln: u64, paid: u64)
    requires price > 0 && SettleForced(pool, price, scale, waln, paid).Ok?
    ensures Sum(BaseAmounts(pool, price, scale)) > 0
    ensures var s := SettleForced(pool, price, scale, waln, paid).value.summary;
      var shares := WalnShares(Column(pool, LockOf), BaseAmounts(pool, price, scale), waln);
      && |shares| == |pool| && (forall i :: 0 <= i < |pool| ==> 0 <= shares[i] <= U64_MAX)
      && s.allocs == SortAllocs(Retain(Allocations(pool, shares, |pool|)))
      && s.participants == |Retain(Allocations(pool, shares, |pool|))| && s.walnPurchased == Sum(shares)
  {
  }

  /** The list a forced settlement stores hands out exactly the wALN sold: nothing is
      left over for the carryover. */
  lemma ForcedAllocations(pool: seq<InvestorRecord>, price: u64, scale: Scale, waln: u64, paid: u64)
    requires price > 0 && Distinct(Keys(pool))
    requires SettleForced(pool, price, scale, waln, paid).Ok?
    ensures SharedList(
      SettleForced(pool, price, scale, waln, paid).value.summary, pool,
      WalnShares(Column(pool, LockOf), BaseAmounts(pool, price, scale), waln), waln)
  {
    ForcedSummary(pool, price, scale, waln, paid);
    WalnAmounts(pool, price, scale, waln);
    SharesListed(pool, WalnShares(Column(pool, LockOf), BaseAmounts(pool, price, scale), waln));
  }

  lemma SharesListed(pool: seq<InvestorRecord>, amounts: seq<int>)
    requires |amounts| == |pool| && Distinct(Keys(pool))
    requires forall i :: 0 <= i < |pool| ==> 0 <= amounts[i] <= U64_MAX && (pool[i].usdcLocked == 0 ==> amounts[i] == 0)
    ensures var kept := Retain(Allocations(pool, amounts, |pool|));
      WellStored(SortAllocs(kept)) && Lists(SortAllocs(kept), pool, amounts) && |SortAllocs(kept)| == |kept|
  {
    AllocationsList(pool, amounts);
    StoredList(Allocations(pool, amounts, |pool|), pool, amounts);
  }

  lemma WalnAmounts(pool: seq<InvestorRecord>, price: u64, scale: Scale, waln: u64)
    requires price > 0 && Sum(BaseAmounts(pool, price, scale)) > 0
    ensures var shares := WalnShares(Column(pool, LockOf), BaseAmounts(pool, price, scale), waln);
      && |shares| == |pool| && Sum(shares) == waln
      && forall i :: 0 <= i < |pool| ==> 0 <= shares[i] <= U64_MAX && (pool[i].usdcLocked == 0 ==> shares[i] == 0)
  {
    BasesEach(pool, price, scale);
    PoolColumns(pool);
    WalnSharesExact(Column(pool, LockOf), BaseAmounts(pool, price, scale), waln);
  }
}
