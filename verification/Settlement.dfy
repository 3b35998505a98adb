/** Settling a round: full settlement when the last wALN is sold, and forced settlement
    of a partly filled round. Both pay out of the locks and allocate the wALN. */
module Settlement {
  import opened Arithmetic
  import opened Accounts

  // ---------- allocation lists ----------

  function WalnOf(a: InvestorAlloc): int { a.walnAmount }
  function UnpaidOf(a: InvestorAlloc): int { if a.walnAmount > 0 then 1 else 0 }

  /** The amount an entry gives `key`. */
  function WalnFor(key: Pubkey): InvestorAlloc -> int {
    (a: InvestorAlloc) => if a.investor == key then a.walnAmount else 0
  }

  /** One entry per participant of the first `n` records, in pool order. */
  function Allocations(pool: seq<InvestorRecord>, amounts: seq<int>, n: nat): (allocs: seq<InvestorAlloc>)
    requires n <= |pool| == |amounts|
    requires forall i :: 0 <= i < n ==> 0 <= amounts[i] <= U64_MAX
  {
    if n == 0 then []
    else if pool[n - 1].usdcLocked == 0 then Allocations(pool, amounts, n - 1)
    else Allocations(pool, amounts, n - 1) + [InvestorAlloc(pool[n - 1].investor, amounts[n - 1])]
  }

  /** The entries with a positive amount. */
  function Retain(allocs: seq<InvestorAlloc>): (kept: seq<InvestorAlloc>) {
    if |allocs| == 0 then []
    else
      var last := allocs[|allocs| - 1];
      Retain(allocs[..|allocs| - 1]) + (if last.walnAmount > 0 then [last] else [])
  }

  function Insert(a: InvestorAlloc, s: seq<InvestorAlloc>): (t: seq<InvestorAlloc>) {
    if |s| == 0 || a.investor <= s[0].investor then [a] + s else [s[0]] + Insert(a, s[1..])
  }

  /** The entries ordered by investor key. */
  function SortAllocs(allocs: seq<InvestorAlloc>): (sorted: seq<InvestorAlloc>) {
    if |allocs| == 0 then []
    else Insert(allocs[|allocs| - 1], SortAllocs(allocs[..|allocs| - 1]))
  }

  /** What a settlement reports, and together with the new pool what it does. */
  datatype Summary = Summary(
    allocs: seq<InvestorAlloc>,
    usdcSpent: u64,
    walnPurchased: u64,
    aatVolume: u64,
    participants: nat)

  datatype Settled = Settled(pool: seq<InvestorRecord>, summary: Summary)

  // ---------- full settlement ----------

  /** A participant of a full settlement spends the whole lock. */
  function SpendLock(r: InvestorRecord, waln: nat): InvestorRecord {
    if r.usdcLocked == 0 then r
    else r.(
      usdcCommitted := r.usdcCommitted + r.usdcLocked,
      usdcLocked := 0,
      walnPurchased := r.walnPurchased + waln)
  }

  function SpendLocks(pool: seq<InvestorRecord>, amounts: seq<int>): (paid: seq<InvestorRecord>)
    requires |amounts| == |pool|
    requires forall i :: 0 <= i < |amounts| ==> 0 <= amounts[i] <= U64_MAX
  {
    seq(|pool|, i requires 0 <= i < |pool| => SpendLock(pool[i], amounts[i]))
  }

  /** Books extra wALN for the first record of `key`. */
  function Reward(pool: seq<InvestorRecord>, key: Pubkey, waln: nat): (p: seq<InvestorRecord>)
    ensures |p| == |pool|
  {
    var k := IndexOf(Keys(pool), key);
    if k == |pool| then pool
    else pool[k := pool[k].(walnPurchased := pool[k].walnPurchased + waln)]
  }

  /** The wALN value of each lock, rounded down. */
  function BaseAmounts(pool: seq<InvestorRecord>, price: u64, scale: Scale): (bases: seq<int>)
    requires price > 0
  {
    Scaled(Column(pool, LockOf), scale, price)
  }

  /** The participant a timestamp picks for the carried-over dust. */
  function DustRecipient(now: i64, participants: nat): (k: nat)
    requires participants > 0
    ensures k < participants
  {
    (now % TWO_TO_64) % participants
  }

  /** Each allocation's USDC value is logged as a u64. */
  predicate Loggable(allocs: seq<InvestorAlloc>, price: u64, scale: Scale) {
    forall i :: 0 <= i < |allocs| ==> UsdcValue(allocs[i].walnAmount, price, scale) <= U64_MAX
  }

  /** The running totals of the first `n` records stay within u64. */
  predicate PrefixFits(pool: seq<InvestorRecord>, bases: seq<int>, n: nat)
    requires n <= |pool| == |bases|
  {
    && (forall i :: 0 <= i < n ==> 0 <= bases[i] <= U64_MAX)
    && 0 <= SumTo(Column(pool, LockOf), n) <= U64_MAX
    && 0 <= SumTo(Column(pool, LockedVolumeOf), n) <= U64_MAX
    && 0 <= SumTo(bases, n) <= U64_MAX
  }

  function WithDust(shares: seq<InvestorAlloc>, k: nat, dust: u64): seq<InvestorAlloc>
    requires k < |shares| && shares[k].walnAmount + dust <= U64_MAX
  {
    shares[k := InvestorAlloc(shares[k].investor, shares[k].walnAmount + dust)]
  }

  /** All earlier dust goes to one participant. */
  function AddDust(shares: seq<InvestorAlloc>, dust: u64, now: i64): (r: Result<seq<InvestorAlloc>>)
    requires |shares| > 0
    ensures r.Ok? ==> |r.value| == |shares|
  {
    var k := DustRecipient(now, |shares|);
    :- Need(shares[k].walnAmount + dust <= U64_MAX, ArithmeticOverflow);
    Ok(WithDust(shares, k, dust))
  }

  /** The end of a full settlement: dust, log, and the sorted list of positive amounts. */
  function Finish(paid: seq<InvestorRecord>, totals: Summary, price: u64, scale: Scale, dust: u64, now: i64): (r: Result<Settled>) {
    if dust == 0 || |totals.allocs| == 0 then
      :- Need(Loggable(totals.allocs, price, scale), ArithmeticOverflow);
      Ok(Settled(paid, totals.(allocs := SortAllocs(Retain(totals.allocs)))))
    else
      :- Need(totals.walnPurchased + dust <= U64_MAX, ArithmeticOverflow);
      var given :- AddDust(totals.allocs, dust, now);
      :- Need(Loggable(given, price, scale), ArithmeticOverflow);
      var winner := totals.allocs[DustRecipient(now, |totals.allocs|)].investor;
      Ok(Settled(
        Reward(paid, winner, dust),
        totals.(allocs := SortAllocs(Retain(given)), walnPurchased := totals.walnPurchased + dust)))
  }

  function PrefixTotals(pool: seq<InvestorRecord>, bases: seq<int>, n: nat): Summary
    requires n <= |pool| == |bases| && PrefixFits(pool, bases, n)
  {
    var shares := Allocations(pool, bases, n);
    Summary(shares, SumTo(Column(pool, LockOf), n), SumTo(bases, n), SumTo(Column(pool, LockedVolumeOf), n), |shares|)
  }

  function SettleFull(pool: seq<InvestorRecord>, price: u64, scale: Scale, dust: u64, now: i64): (r: Result<Settled>)
    requires price > 0
  {
    var bases := BaseAmounts(pool, price, scale);
    :- Need(PrefixFits(pool, bases, |pool|), ArithmeticOverflow);
    Finish(SpendLocks(pool, bases), PrefixTotals(pool, bases, |pool|), price, scale, dust, now)
  }

  // ---------- forced settlement ----------

  /** 1 where the floor share of the paid USDC is below the lock. */
  function Room(locks: seq<int>, bases: seq<int>): (room: seq<int>)
    requires |locks| == |bases|
  {
    seq(|locks|, i requires 0 <= i < |locks| => if bases[i] < locks[i] then 1 else 0)
  }

  /** USDC spent per lock: floor shares of the amount paid, and the remainder handed out
      one unit each to the first investors with room. */
  function UsdcShares(locks: seq<int>, paid: nat): (shares: seq<int>)
    requires Sum(locks) > 0
  {
    var bases := Scaled(locks, paid, Sum(locks));
    var room := Room(locks, bases);
    seq(|locks|, i requires 0 <= i < |locks| =>
      bases[i] + (if room[i] > 0 && SumTo(room, i) < paid - Sum(bases) then 1 else 0))
  }

  /** The participant after whom no other holds a lock. */
  predicate IsLast(locks: seq<int>, i: nat)
    requires i < |locks|
  {
    locks[i] > 0 && SumTo(Positive(locks), i + 1) == Count(locks)
  }

  /** wALN per lock: floor shares in proportion to the locks' full wALN value, the last
      participant taking whatever is left. */
  function WalnShares(locks: seq<int>, full: seq<int>, waln: nat): (shares: seq<int>)
    requires |full| == |locks| && Sum(full) > 0
  {
    var floors := Scaled(full, waln, Sum(full));
    seq(|locks|, i requires 0 <= i < |locks| =>
      if locks[i] <= 0 then 0
      else if IsLast(locks, i) then waln - SumTo(floors, i)
      else floors[i])
  }

  /** A participant of a forced settlement gets the unspent part of the lock back. */
  function RefundLock(r: InvestorRecord, spent: int, waln: int): InvestorRecord
    requires 0 <= spent <= r.usdcLocked && waln >= 0
    requires r.usdcDeposited + (r.usdcLocked - spent) <= U64_MAX
  {
    if r.usdcLocked == 0 then r
    else r.(
      usdcDeposited := r.usdcDeposited + (r.usdcLocked - spent),
      usdcLocked := 0,
      usdcCommitted := r.usdcCommitted + spent,
      walnPurchased := r.walnPurchased + waln)
  }

  /** No step of a forced settlement of the first `n` records leaves u64 or u128. */
  predicate ForcedFits(pool: seq<InvestorRecord>, full: seq<int>, walnShares: seq<int>, spent: seq<int>, waln: nat, n: nat)
    requires n <= |pool| == |full| == |walnShares| == |spent|
  {
    var locks := Column(pool, LockOf);
    && (forall i :: 0 <= i < n && locks[i] > 0 && !IsLast(locks, i) ==> waln * full[i] <= U128_MAX)
    && (forall i :: 0 <= i < n ==>
      && 0 <= walnShares[i] <= U64_MAX
      && 0 <= spent[i] <= pool[i].usdcLocked
      && pool[i].usdcDeposited + (pool[i].usdcLocked - spent[i]) <= U64_MAX)
    && 0 <= SumTo(walnShares, n) <= U64_MAX
    && 0 <= SumTo(Column(pool, LockedVolumeOf), n) <= U64_MAX
  }

  function RefundLocks(pool: seq<InvestorRecord>, full: seq<int>, walnShares: seq<int>, spent: seq<int>, waln: nat): (refunded: seq<InvestorRecord>)
    requires |pool| == |full| == |walnShares| == |spent| && ForcedFits(pool, full, walnShares, spent, waln, |pool|)
  {
    seq(|pool|, i requires 0 <= i < |pool| => RefundLock(pool[i], spent[i], walnShares[i]))
  }

  function SettleForced(pool: seq<InvestorRecord>, price: u64, scale: Scale, waln: u64, paid: u64): (r: Result<Settled>)
    requires price > 0
  {
    var locks := Column(pool, LockOf);
    var full := BaseAmounts(pool, price, scale);
    :- Need(Sum(full) <= U128_MAX, ArithmeticOverflow);
    :- Need(Sum(full) > 0, NoEligibleInvestors);
    :- Need(paid > 0, InvalidParameter);
    :- Need(paid <= Sum(locks), ArithmeticOverflow);
    var walnShares := WalnShares(locks, full, waln);
    var spent := UsdcShares(locks, paid);
    :- Need(ForcedFits(pool, full, walnShares, spent, waln, |pool|), ArithmeticOverflow);
    :- Need(Sum(spent) == paid, ArithmeticOverflow);
    var kept := Retain(Allocations(pool, walnShares, |pool|));
    Ok(Settled(
      RefundLocks(pool, full, walnShares, spent, waln),
      Summary(SortAllocs(kept), paid, Sum(walnShares), Total(pool, LockedVolumeOf), |kept|)))
  }

  // ---------- the loops of full settlement ----------

  /** One participant's lock added to the running totals. */
  function Accrue(totals: Summary, record: InvestorRecord, base: nat): (r: Result<Summary>) {
    if totals.aatVolume + record.aatVolume > U64_MAX then Err(ArithmeticOverflow) else
    :- Need(base <= U64_MAX, ArithmeticOverflow);
    :- Need(totals.usdcSpent + record.usdcLocked <= U64_MAX, ArithmeticOverflow);
    :- Need(totals.walnPurchased + base <= U64_MAX, ArithmeticOverflow);
    Ok(Summary(
      totals.allocs + [InvestorAlloc(record.investor, base)],
      totals.usdcSpent + record.usdcLocked,
      totals.walnPurchased + base,
      totals.aatVolume + record.aatVolume,
      totals.participants + 1))
  }

  lemma AccrueStep(pool: seq<InvestorRecord>, price: u64, scale: Scale, i: nat)
    requires price > 0 && i < |pool|
    requires PrefixFits(pool, BaseAmounts(pool, price, scale), i)
    ensures var bases := BaseAmounts(pool, price, scale);
      if pool[i].usdcLocked == 0 then
        PrefixFits(pool, bases, i + 1) && PrefixTotals(pool, bases, i + 1) == PrefixTotals(pool, bases, i)
      else
        bases[i] == scale * pool[i].usdcLocked / price >= 0 &&
        Accrue(PrefixTotals(pool, bases, i), pool[i], bases[i]) ==
          if PrefixFits(pool, bases, i + 1) then Ok(PrefixTotals(pool, bases, i + 1)) else Err(ArithmeticOverflow)
    ensures !PrefixFits(pool, BaseAmounts(pool, price, scale), i + 1) ==> !PrefixFits(pool, BaseAmounts(pool, price, scale), |pool|)
  {
    BaseAt(pool, price, scale, i);
    BasesNonNegative(pool, price, scale);
    PoolColumns(pool);
    PrefixesWithinSums(pool, BaseAmounts(pool, price, scale), i + 1);
  }

  /** Spends every lock and collects the base allocations. */
  method SpendAll(investors: array<InvestorRecord>, count: nat, price: u64, scale: Scale)
    returns (r: Result<Summary>)
    requires count <= investors.Length && price > 0
    modifies investors
    ensures investors[count..] == old(investors[count..])
    ensures var pool := old(investors[..count]);
      var bases := BaseAmounts(pool, price, scale);
      if PrefixFits(pool, bases, count)
      then r == Ok(PrefixTotals(pool, bases, count)) && investors[..count] == SpendLocks(pool, bases)
      else r == Err(ArithmeticOverflow)
  {
    ghost var pool := investors[..count];
    ghost var bases := BaseAmounts(pool, price, scale);
    var totals := Summary([], 0, 0, 0, 0);
    for i := 0 to count
      invariant investors[count..] == old(investors[count..])
      invariant PrefixFits(pool, bases, i) && totals == PrefixTotals(pool, bases, i)
      invariant forall j :: 0 <= j < i ==> investors[j] == SpendLock(pool[j], bases[j])
      invariant forall j :: i <= j < count ==> investors[j] == pool[j]
    {
      AccrueStep(pool, price, scale, i);
      var record := investors[i];
      if record.usdcLocked != 0 {
        var base := scale * record.usdcLocked / price;
        totals :- Accrue(totals, record, base);
        investors[i] := SpendLock(record, base);
      }
    }
    assert investors[..count] == SpendLocks(pool, bases);
    return Ok(totals);
  }

  lemma BasesNonNegative(pool: seq<InvestorRecord>, price: u64, scale: Scale)
    requires price > 0
    ensures forall i :: 0 <= i < |pool| ==> BaseAmounts(pool, price, scale)[i] >= 0
    ensures forall i :: 0 <= i < |pool| && pool[i].usdcLocked == 0 ==> BaseAmounts(pool, price, scale)[i] == 0
  {
    forall i | 0 <= i < |pool|
      ensures BaseAmounts(pool, price, scale)[i] >= 0
      ensures pool[i].usdcLocked == 0 ==> BaseAmounts(pool, price, scale)[i] == 0
    {
      BaseAt(pool, price, scale, i);
    }
  }

  lemma BaseAt(pool: seq<InvestorRecord>, price: u64, scale: Scale, i: nat)
    requires price > 0 && i < |pool|
    ensures BaseAmounts(pool, price, scale)[i] == scale * pool[i].usdcLocked / price >= 0
    ensures pool[i].usdcLocked == 0 ==> BaseAmounts(pool, price, scale)[i] == 0
  {
    ProductQuotient(scale, pool[i].usdcLocked, price);
    assert Column(pool, LockOf)[i] == pool[i].usdcLocked;
  }

  lemma ProductQuotient(a: nat, x: nat, b: nat)
    requires b > 0
    ensures a * x / b >= 0
    ensures x == 0 ==> a * x / b == 0
  {
    if x == 0 {
      assert a * x == 0;
    }
  }

  lemma PrefixesWithinSums(pool: seq<InvestorRecord>, bases: seq<int>, n: nat)
    requires n <= |pool| == |bases|
    requires forall i :: 0 <= i < |bases| ==> bases[i] >= 0
    ensures 0 <= SumTo(Column(pool, LockOf), n) <= Total(pool, LockOf)
    ensures 0 <= SumTo(Column(pool, LockedVolumeOf), n) <= Total(pool, LockedVolumeOf)
    ensures 0 <= SumTo(bases, n) <= Sum(bases)
  {
    SumToNonNegative(Column(pool, LockOf), n);
    SumToNonNegative(Column(pool, LockedVolumeOf), n);
    SumToNonNegative(bases, n);
  }

  /** The dust handed out, to the participant and into the participant's record. */
  method HandOutDust(investors: array<InvestorRecord>, count: nat, shares: seq<InvestorAlloc>, dust: u64, now: i64)
    returns (r: Result<seq<InvestorAlloc>>)
    requires count <= investors.Length && |shares| > 0
    modifies investors
    ensures investors[count..] == old(investors[count..])
    ensures r == AddDust(shares, dust, now)
    ensures var k := (now % TWO_TO_64) % |shares|;
      r.Ok? ==>
        && r.value == shares[k := shares[k].(walnAmount := shares[k].walnAmount + dust)]
        && investors[..count] == Reward(old(investors[..count]), shares[k].investor, dust)
  {
    var k := (now % TWO_TO_64) % |shares|;
    :- Need(shares[k].walnAmount + dust <= U64_MAX, ArithmeticOverflow);
    var winner := FindInvestor(investors, count, shares[k].investor);
    if winner < count {
      investors[winner] := investors[winner].(walnPurchased := investors[winner].walnPurchased + dust);
    }
    return Ok(shares[k := InvestorAlloc(shares[k].investor, shares[k].walnAmount + dust)]);
  }

  method FinishFull(investors: array<InvestorRecord>, count: nat, totals: Summary, price: u64, scale: Scale, dust: u64, now: i64)
    returns (r: Result<Summary>)
    requires count <= investors.Length
    modifies investors
    ensures investors[count..] == old(investors[count..])
    ensures match Finish(old(investors[..count]), totals, price, scale, dust, now)
      case Ok(s) => r == Ok(s.summary) && investors[..count] == s.pool
      case Err(e) => r == Err(e)
  {
    var shares, purchased := totals.allocs, totals.walnPurchased;
    if dust > 0 && |shares| > 0 {
      if purchased + dust > U64_MAX { return Err(ArithmeticOverflow); }
      purchased := purchased + dust;
      shares :- HandOutDust(investors, count, shares, dust, now);
    }
    :- Need(Loggable(shares, price, scale), ArithmeticOverflow);
    return Ok(totals.(allocs := SortAllocs(Retain(shares)), walnPurchased := purchased));
  }

  method ExecuteSettleFull(investors: array<InvestorRecord>, count: nat, price: u64, scale: Scale, dust: u64, now: i64)
    returns (r: Result<Summary>)
    requires count <= investors.Length && price > 0
    modifies investors
    ensures investors[count..] == old(investors[count..])
    ensures match SettleFull(old(investors[..count]), price, scale, dust, now)
      case Ok(s) => r == Ok(s.summary) && investors[..count] == s.pool
      case Err(e) => r == Err(e)
  {
    var totals :- SpendAll(investors, count, price, scale);
    r := FinishFull(investors, count, totals, price, scale, dust, now);
  }
}
