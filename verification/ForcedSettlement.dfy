/** The apportionment of a forced settlement and the loops that compute it. */
module ForcedSettlement {
  import opened Arithmetic
  import opened Accounts
  import opened Settlement

  function Min(a: int, b: int): int {
    if a <= b then a else b
  }

  // ---------- USDC ----------

  /** Units left to hand out after the first `n` records. */
  function RemainderAfter(locks: seq<int>, paid: nat, n: nat): int
    requires n <= |locks| && Sum(locks) > 0
  {
    var bases := Scaled(locks, paid, Sum(locks));
    var remainder := paid - Sum(bases);
    remainder - Min(remainder, SumTo(Room(locks, bases), n))
  }

  lemma UsdcBases(locks: seq<int>, paid: nat)
    requires forall i :: 0 <= i < |locks| ==> locks[i] >= 0
    requires 0 < paid <= Sum(locks)
    ensures var bases := Scaled(locks, paid, Sum(locks));
      && (forall i :: 0 <= i < |locks| ==> 0 <= bases[i] <= locks[i])
      && (paid < Sum(locks) ==> forall i :: 0 <= i < |locks| && locks[i] > 0 ==> bases[i] < locks[i])
      && (paid == Sum(locks) ==> bases == locks)
      && 0 <= paid - Sum(bases) < Count(locks)
  {
    var total := Sum(locks);
    var bases := Scaled(locks, paid, total);
    SplitBounds(locks, paid);
    forall i | 0 <= i < |locks|
      ensures 0 <= bases[i] <= locks[i]
      ensures paid < total && locks[i] > 0 ==> bases[i] < locks[i]
      ensures paid == total ==> bases[i] == locks[i]
    {
      ShareOfLock(paid, total, locks[i]);
    }
  }

  lemma ShareOfLock(paid: nat, total: int, lock: int)
    requires 0 < paid <= total && lock >= 0
    ensures 0 <= paid * lock / total <= lock
    ensures paid < total && lock > 0 ==> paid * lock / total < lock
    ensures paid == total ==> paid * lock / total == lock
  {
    MulMonotone(paid, total, lock);
    FloorAtLeast(paid * lock, total, 0);
    FloorAtMost(paid * lock, total, lock);
    if paid == total {
      FloorAtLeast(paid * lock, total, lock);
    } else if lock > 0 {
      MulMonotone(paid + 1, total, lock);
      assert (paid + 1) * lock == paid * lock + lock;
      Distribute(total, lock, -1);
      FloorAtMost(paid * lock, total, lock - 1);
    }
  }

  /** The running sum of the shares: the floors plus the units handed out so far. */
  lemma {:induction false} UsdcPrefix(locks: seq<int>, paid: nat, n: nat)
    requires n <= |locks| && Sum(locks) > 0
    requires Sum(Scaled(locks, paid, Sum(locks))) <= paid
    ensures var bases := Scaled(locks, paid, Sum(locks));
      SumTo(UsdcShares(locks, paid), n) ==
      SumTo(bases, n) + Min(paid - Sum(bases), SumTo(Room(locks, bases), n))
  {
    if n > 0 {
      UsdcPrefix(locks, paid, n - 1);
      CountAtMostLength(Room(locks, Scaled(locks, paid, Sum(locks))), n - 1);
      RoomIsCount(locks, Scaled(locks, paid, Sum(locks)), n - 1);
    }
  }

  lemma {:induction false} RoomIsCount(locks: seq<int>, bases: seq<int>, n: nat)
    requires n <= |locks| == |bases|
    ensures 0 <= SumTo(Room(locks, bases), n) <= n
  {
    if n > 0 {
      RoomIsCount(locks, bases, n - 1);
    }
  }

  /** For any positive amount up to the total lock, every share is within its lock, the
      shares sum to exactly the amount, and nothing is left to hand out at the end. */
  lemma UsdcSharesExact(locks: seq<int>, paid: nat)
    requires forall i :: 0 <= i < |locks| ==> locks[i] >= 0
    requires 0 < paid <= Sum(locks)
    ensures forall i :: 0 <= i < |locks| ==> 0 <= UsdcShares(locks, paid)[i] <= locks[i]
    ensures Sum(UsdcShares(locks, paid)) == paid
    ensures RemainderAfter(locks, paid, |locks|) == 0
  {
    var bases := Scaled(locks, paid, Sum(locks));
    UsdcBases(locks, paid);
    UsdcPrefix(locks, paid, |locks|);
    RoomIsCount(locks, bases, |locks|);
    if paid < Sum(locks) {
      SumToAgree(Room(locks, bases), Positive(locks), |locks|);
    }
  }

  // ---------- wALN ----------

  lemma {:induction false} WalnPrefix(locks: seq<int>, full: seq<int>, waln: nat, n: nat)
    requires n <= |locks| == |full| && Sum(full) > 0
    requires forall i :: 0 <= i < |locks| ==> locks[i] >= 0 && full[i] >= 0 && (locks[i] == 0 ==> full[i] == 0)
    ensures SumTo(Positive(locks), n) <= Count(locks)
    ensures SumTo(WalnShares(locks, full, waln), n) ==
      if SumTo(Positive(locks), n) > 0 && SumTo(Positive(locks), n) == Count(locks) then waln
      else SumTo(Scaled(full, waln, Sum(full)), n)
  {
    SumToNonNegative(Positive(locks), n);
    if n > 0 {
      WalnPrefix(locks, full, waln, n - 1);
      SumToNonNegative(Positive(locks), n - 1);
      ProductQuotient(waln, full[n - 1], Sum(full));
      if locks[n - 1] > 0 {
        assert Positive(locks)[n - 1] == 1;
      } else {
        assert Positive(locks)[n - 1] == 0;
      }
    }
  }

  lemma WalnFloorsBounded(full: seq<int>, waln: nat, n: nat)
    requires n <= |full| && Sum(full) > 0
    requires forall i :: 0 <= i < |full| ==> full[i] >= 0
    ensures 0 <= SumTo(Scaled(full, waln, Sum(full)), n) <= waln
    ensures forall i :: 0 <= i < |full| ==> 0 <= Scaled(full, waln, Sum(full))[i] <= waln
  {
    var floors := Scaled(full, waln, Sum(full));
    forall i | 0 <= i < |full|
      ensures 0 <= floors[i]
    {
      ProductQuotient(waln, full[i], Sum(full));
    }
    SplitBounds(full, waln);
    SumToNonNegative(floors, n);
    SumToNonNegative(floors, |full|);
  }

  /** The wALN shares are non-negative and sum to exactly the wALN sold. */
  lemma WalnSharesExact(locks: seq<int>, full: seq<int>, waln: nat)
    requires |full| == |locks| && Sum(full) > 0
    requires forall i :: 0 <= i < |locks| ==> locks[i] >= 0 && full[i] >= 0 && (locks[i] == 0 ==> full[i] == 0)
    ensures forall i :: 0 <= i < |locks| ==> 0 <= WalnShares(locks, full, waln)[i] <= waln
    ensures Sum(WalnShares(locks, full, waln)) == waln
    ensures forall n :: 0 <= n <= |locks| ==> 0 <= SumTo(WalnShares(locks, full, waln), n) <= waln
  {
    var shares := WalnShares(locks, full, waln);
    forall i | 0 <= i < |locks|
      ensures 0 <= shares[i] <= waln
    {
      WalnFloorsBounded(full, waln, i);
    }
    CountPositiveSum(full);
    var k :| 0 <= k < |full| && full[k] > 0;
    SumToNonNegative(Positive(locks), |locks|);
    assert Positive(locks)[k] == 1;
    WalnPrefix(locks, full, waln, |locks|);
    forall n | 0 <= n <= |locks|
      ensures 0 <= SumTo(shares, n) <= waln
    {
      SumToNonNegative(shares, n);
    }
  }

  // ---------- the loops of forced settlement ----------

  /** The three totals taken before anything is paid. */
  datatype LockTotals = LockTotals(full: nat, locked: nat, participants: nat)

  lemma LockStep(pool: seq<InvestorRecord>, price: u64, scale: Scale, i: nat)
    requires price > 0 && i < |pool|
    ensures var locks, full := Column(pool, LockOf), BaseAmounts(pool, price, scale);
      && 0 <= SumTo(full, i + 1) <= Sum(full)
      && SumTo(locks, i + 1) == SumTo(locks, i) + pool[i].usdcLocked
      && SumTo(Positive(locks), i + 1) == SumTo(Positive(locks), i) + (if pool[i].usdcLocked > 0 then 1 else 0)
      && SumTo(full, i + 1) == SumTo(full, i) + full[i]
      && full[i] == scale * pool[i].usdcLocked / price >= 0
      && (pool[i].usdcLocked == 0 ==> full[i] == 0)
  {
    BasesNonNegative(pool, price, scale);
    BaseAt(pool, price, scale, i);
    ColumnAt(pool, LockOf, i);
    SumToNonNegative(BaseAmounts(pool, price, scale), i + 1);
  }

  method SumLocks(investors: array<InvestorRecord>, count: nat, price: u64, scale: Scale) returns (r: Result<LockTotals>)
    requires count <= investors.Length && price > 0
    ensures var pool := investors[..count];
      var locks, full := Column(pool, LockOf), BaseAmounts(pool, price, scale);
      if Sum(full) <= U128_MAX
      then r.Ok? && r.value.full == Sum(full) && r.value.locked == Sum(locks) && r.value.participants == Count(locks)
      else r == Err(ArithmeticOverflow)
  {
    ghost var pool := investors[..count];
    ghost var locks, full := Column(pool, LockOf), BaseAmounts(pool, price, scale);
    var totals := LockTotals(0, 0, 0);
    for i := 0 to count
      invariant totals.full == SumTo(full, i) && totals.full <= U128_MAX
      invariant totals.locked == SumTo(locks, i)
      invariant totals.participants == SumTo(Positive(locks), i)
    {
      LockStep(pool, price, scale, i);
      var lock := investors[i].usdcLocked;
      if lock != 0 {
        var fullWaln := scale * lock / price;
        :- Need(totals.full + fullWaln <= U128_MAX, ArithmeticOverflow);
        totals := LockTotals(totals.full + fullWaln, totals.locked + lock, totals.participants + 1);
      }
    }
    return Ok(totals);
  }

  method SumBaseShares(investors: array<InvestorRecord>, count: nat, paid: nat, totalLocked: nat) returns (total: nat)
    requires count <= investors.Length
    requires totalLocked == Total(investors[..count], LockOf) && totalLocked > 0
    ensures total == Sum(Scaled(Column(investors[..count], LockOf), paid, totalLocked))
  {
    ghost var locks := Column(investors[..count], LockOf);
    PoolColumns(investors[..count]);
    total := 0;
    for i := 0 to count
      invariant total == SumTo(Scaled(locks, paid, totalLocked), i)
    {
      assert locks[i] == investors[i].usdcLocked;
      ProductQuotient(paid, investors[i].usdcLocked, totalLocked);
      if investors[i].usdcLocked != 0 {
        total := total + paid * investors[i].usdcLocked / totalLocked;
      }
    }
  }

  /** One share of the USDC paid, with one unit of the remainder when the lock has room. */
  function CloseRoundUsdcSpent(paid: nat, lock: nat, totalLocked: nat, remainder: nat): (r: (nat, nat))
    requires totalLocked > 0
  {
    var base := paid * lock / totalLocked;
    if remainder > 0 && base < lock then (base + 1, remainder - 1) else (base, remainder)
  }

  /** What the distribution loop carries from record to record. */
  datatype Running = Running(
    remainingWaln: int,
    remainder: nat,
    processed: int,
    usdcSpent: int,
    walnPurchased: int,
    aatVolume: int,
    allocs: seq<InvestorAlloc>)

  /** One participant's part of a forced settlement. */
  function PayOne(t: Running, record: InvestorRecord, fullWaln: nat, totals: LockTotals, waln: nat, paid: nat): (r: Result<(Running, InvestorRecord)>)
    requires totals.locked > 0 && totals.full > 0
  {
    var last := t.processed + 1 == totals.participants;
    :- Need(last || waln * fullWaln <= U128_MAX, ArithmeticOverflow);
    var alloc := if last then t.remainingWaln else waln * fullWaln / totals.full;
    :- Need(0 <= alloc <= U64_MAX && alloc <= t.remainingWaln, ArithmeticOverflow);
    var (spent, remainder) := CloseRoundUsdcSpent(paid, record.usdcLocked, totals.locked, t.remainder);
    :- Need(spent <= record.usdcLocked, ArithmeticOverflow);
    :- Need(record.usdcDeposited + (record.usdcLocked - spent) <= U64_MAX, ArithmeticOverflow);
    :- Need(t.usdcSpent + spent <= U64_MAX, ArithmeticOverflow);
    :- Need(t.walnPurchased + alloc <= U64_MAX, ArithmeticOverflow);
    :- Need(t.aatVolume + record.aatVolume <= U64_MAX, ArithmeticOverflow);
    Ok((Running(
          t.remainingWaln - alloc,
          remainder,
          t.processed + 1,
          t.usdcSpent + spent,
          t.walnPurchased + alloc,
          t.aatVolume + record.aatVolume,
          t.allocs + (if alloc > 0 then [InvestorAlloc(record.investor, alloc)] else [])),
        RefundLock(record, spent, alloc)))
  }

  /** A settlement laid out in advance: per record its lock, the lock's full wALN value,
      the wALN and USDC shares, and the USDC units left to hand out before it. */
  datatype Plan = Plan(locks: seq<int>, full: seq<int>, waln: seq<int>, usdc: seq<int>, left: seq<nat>) {
    predicate Sized(n: nat) {
      |locks| == |full| == |waln| == |usdc| == n && |left| == n + 1
    }
  }

  /** The wALN share of record `i` is the one a loop iteration arrives at. */
  ghost predicate FollowsWaln(plan: Plan, lock: nat, totals: LockTotals, waln: nat, i: nat)
    requires plan.Sized(|plan.locks|) && i < |plan.locks| && totals.full > 0
  {
    && (if lock == 0 then plan.waln[i] == 0
        else
          && (IsLast(plan.locks, i) <==> SumTo(Positive(plan.locks), i) + 1 == totals.participants)
          && plan.waln[i] == (if IsLast(plan.locks, i) then waln - SumTo(plan.waln, i) else waln * plan.full[i] / totals.full))
    && 0 <= plan.waln[i] <= waln - SumTo(plan.waln, i) <= waln
  }

  /** So is its USDC share. */
  ghost predicate FollowsUsdc(plan: Plan, lock: nat, totals: LockTotals, paid: nat, i: nat)
    requires plan.Sized(|plan.locks|) && i < |plan.locks| && totals.locked > 0
  {
    && CloseRoundUsdcSpent(paid, lock, totals.locked, plan.left[i]) == (plan.usdc[i], plan.left[i + 1])
    && (lock == 0 ==> plan.usdc[i] == 0 && plan.left[i + 1] == plan.left[i])
    && 0 <= plan.usdc[i] <= lock
    && 0 <= SumTo(plan.usdc, i) + plan.usdc[i] <= U64_MAX
  }

  ghost predicate Follows(plan: Plan, pool: seq<InvestorRecord>, price: u64, scale: Scale, totals: LockTotals, waln: nat, paid: nat, i: nat)
    requires plan.Sized(|pool|) && i < |pool| && price > 0 && totals.locked > 0 && totals.full > 0
  {
    && plan.locks[i] == pool[i].usdcLocked
    && plan.full[i] == scale * pool[i].usdcLocked / price >= 0
    && FollowsWaln(plan, pool[i].usdcLocked, totals, waln, i)
    && FollowsUsdc(plan, pool[i].usdcLocked, totals, paid, i)
  }

  ghost predicate FollowsAll(plan: Plan, pool: seq<InvestorRecord>, price: u64, scale: Scale, totals: LockTotals, waln: nat, paid: nat) {
    && plan.Sized(|pool|) && price > 0 && totals.locked > 0 && totals.full > 0
    && plan.locks == Column(pool, LockOf)
    && forall i :: 0 <= i < |pool| ==> Follows(plan, pool, price, scale, totals, waln, paid, i)
  }

  predicate PlanFits(plan: Plan, pool: seq<InvestorRecord>, waln: nat, n: nat)
    requires plan.Sized(|pool|) && n <= |pool|
  {
    ForcedFits(pool, plan.full, plan.waln, plan.usdc, waln, n)
  }

  /** What the loop has computed after the first `n` records. */
  ghost function RunningAfter(plan: Plan, pool: seq<InvestorRecord>, waln: nat, n: nat): Running
    requires plan.Sized(|pool|) && n <= |pool| && PlanFits(plan, pool, waln, n)
  {
    Running(
      waln - SumTo(plan.waln, n),
      plan.left[n],
      SumTo(Positive(plan.locks), n),
      SumTo(plan.usdc, n),
      SumTo(plan.waln, n),
      SumTo(Column(pool, LockedVolumeOf), n),
      Retain(Allocations(pool, plan.waln, n)))
  }

  lemma SkipStep(plan: Plan, pool: seq<InvestorRecord>, price: u64, scale: Scale, totals: LockTotals, waln: nat, paid: nat, i: nat)
    requires FollowsAll(plan, pool, price, scale, totals, waln, paid) && i < |pool|
    requires PlanFits(plan, pool, waln, i) && pool[i].usdcLocked == 0
    ensures PlanFits(plan, pool, waln, i + 1)
    ensures RunningAfter(plan, pool, waln, i + 1) == RunningAfter(plan, pool, waln, i)
  {
    assert Follows(plan, pool, price, scale, totals, waln, paid, i);
    assert plan.usdc[i] == 0 == plan.waln[i];
    assert Column(pool, LockedVolumeOf)[i] == LockedVolumeOf(pool[i]);
  }

  /** One iteration carries the totals over from `i` to `i + 1` records, or fails exactly
      when the settlement of the first `i + 1` records leaves the machine integers. */
  lemma PayStep(plan: Plan, pool: seq<InvestorRecord>, price: u64, scale: Scale, totals: LockTotals, waln: nat, paid: nat, i: nat)
    requires FollowsAll(plan, pool, price, scale, totals, waln, paid) && i < |pool| && waln <= U64_MAX
    requires PlanFits(plan, pool, waln, i) && pool[i].usdcLocked > 0
    ensures plan.full[i] == scale * pool[i].usdcLocked / price >= 0
    ensures 0 <= plan.usdc[i] <= pool[i].usdcLocked && plan.waln[i] >= 0
    ensures var step := PayOne(RunningAfter(plan, pool, waln, i), pool[i], plan.full[i], totals, waln, paid);
      if PlanFits(plan, pool, waln, i + 1)
      then step == Ok((RunningAfter(plan, pool, waln, i + 1), RefundLock(pool[i], plan.usdc[i], plan.waln[i])))
      else step == Err(ArithmeticOverflow)
    ensures !PlanFits(plan, pool, waln, i + 1) ==> !PlanFits(plan, pool, waln, |pool|)
  {
    assert Follows(plan, pool, price, scale, totals, waln, paid, i);
    assert Column(pool, LockedVolumeOf)[i] == pool[i].aatVolume by {
      assert Column(pool, LockedVolumeOf)[i] == LockedVolumeOf(pool[i]);
    }
    if PlanFits(plan, pool, waln, |pool|) {
      FitMonotone(plan, pool, waln, i + 1);
    }
  }

  /** What does not fit after `n` records does not fit after more. */
  lemma FitMonotone(plan: Plan, pool: seq<InvestorRecord>, waln: nat, n: nat)
    requires plan.Sized(|pool|) && n <= |pool| && PlanFits(plan, pool, waln, |pool|)
    ensures PlanFits(plan, pool, waln, n)
  {
    SumToNonNegative(plan.waln, n);
    SumToNonNegative(Column(pool, LockedVolumeOf), n);
  }

  method PayAll(investors: array<InvestorRecord>, count: nat, price: u64, scale: Scale, totals: LockTotals, waln: u64, paid: u64,
                remainder: nat, ghost plan: Plan)
    returns (r: Result<Running>)
    requires count <= investors.Length
    requires FollowsAll(plan, investors[..count], price, scale, totals, waln, paid)
    requires plan.left[0] == remainder
    modifies investors
    ensures investors[count..] == old(investors[count..])
    ensures var pool := old(investors[..count]);
      if PlanFits(plan, pool, waln, count)
      then r == Ok(RunningAfter(plan, pool, waln, count)) &&
        investors[..count] == RefundLocks(pool, plan.full, plan.waln, plan.usdc, waln)
      else r == Err(ArithmeticOverflow)
  {
    ghost var pool := investors[..count];
    var t := Running(waln, remainder, 0, 0, 0, 0, []);
    for i := 0 to count
      invariant investors[count..] == old(investors[count..])
      invariant PlanFits(plan, pool, waln, i) && t == RunningAfter(plan, pool, waln, i)
      invariant forall j :: 0 <= j < i ==> investors[j] == RefundLock(pool[j], plan.usdc[j], plan.waln[j])
      invariant forall j :: i <= j < count ==> investors[j] == pool[j]
    {
      var record := investors[i];
      if record.usdcLocked == 0 {
        SkipStep(plan, pool, price, scale, totals, waln, paid, i);
      } else {
        PayStep(plan, pool, price, scale, totals, waln, paid, i);
        var fullWaln := scale * record.usdcLocked / price;
        var next :- PayOne(t, record, fullWaln, totals, waln, paid);
        t := next.0;
        investors[i] := next.1;
      }
    }
    assert investors[..count] == RefundLocks(pool, plan.full, plan.waln, plan.usdc, waln);
    return Ok(t);
  }

  // ---------- the plan that the shares make ----------

  lemma UsdcStep(locks: seq<int>, paid: nat, i: nat)
    requires i < |locks| && (forall j :: 0 <= j < |locks| ==> locks[j] >= 0) && 0 < paid <= Sum(locks)
    ensures RemainderAfter(locks, paid, i) >= 0
    ensures RemainderAfter(locks, paid, i + 1) >= 0
    ensures CloseRoundUsdcSpent(paid, locks[i], Sum(locks), RemainderAfter(locks, paid, i)) ==
      (UsdcShares(locks, paid)[i], RemainderAfter(locks, paid, i + 1))
    ensures locks[i] == 0 ==> UsdcShares(locks, paid)[i] == 0 && RemainderAfter(locks, paid, i + 1) == RemainderAfter(locks, paid, i)
  {
    UsdcBases(locks, paid);
    var bases := Scaled(locks, paid, Sum(locks));
    RoomIsCount(locks, bases, i);
    assert bases[i] == paid * locks[i] / Sum(locks);
    assert SumTo(Room(locks, bases), i + 1) == SumTo(Room(locks, bases), i) + Room(locks, bases)[i];
  }

  lemma WalnStep(locks: seq<int>, full: seq<int>, waln: nat, i: nat)
    requires i < |locks| == |full| && Sum(full) > 0
    requires forall j :: 0 <= j < |locks| ==> locks[j] >= 0 && full[j] >= 0 && (locks[j] == 0 ==> full[j] == 0)
    ensures locks[i] == 0 ==> WalnShares(locks, full, waln)[i] == 0
    ensures locks[i] > 0 ==>
      && (IsLast(locks, i) <==> SumTo(Positive(locks), i) + 1 == Count(locks))
      && WalnShares(locks, full, waln)[i] ==
        if IsLast(locks, i) then waln - SumTo(WalnShares(locks, full, waln), i) else waln * full[i] / Sum(full)
  {
    WalnPrefix(locks, full, waln, i);
    SumToNonNegative(Positive(locks), i);
    assert SumTo(Positive(locks), i + 1) == SumTo(Positive(locks), i) + Positive(locks)[i];
    if locks[i] > 0 {
      SumToNonNegative(Positive(locks), i + 1);
    }
  }

  lemma RemainderNonNegative(locks: seq<int>, paid: nat, n: nat)
    requires n <= |locks| && (forall j :: 0 <= j < |locks| ==> locks[j] >= 0) && 0 < paid <= Sum(locks)
    ensures RemainderAfter(locks, paid, n) >= 0
  {
    UsdcBases(locks, paid);
  }

  ghost function SharesPlan(locks: seq<int>, full: seq<int>, waln: nat, paid: nat): (plan: Plan)
    requires |full| == |locks| && Sum(full) > 0
    requires (forall j :: 0 <= j < |locks| ==> locks[j] >= 0) && 0 < paid <= Sum(locks)
    ensures plan.Sized(|locks|)
  {
    Plan(locks, full, WalnShares(locks, full, waln), UsdcShares(locks, paid),
         seq(|locks| + 1, n requires 0 <= n <= |locks| =>
           RemainderNonNegative(locks, paid, n); RemainderAfter(locks, paid, n)))
  }

  lemma UsdcFollows(locks: seq<int>, full: seq<int>, totals: LockTotals, waln: nat, paid: nat, i: nat)
    requires i < |locks| == |full| && 0 < paid <= totals.locked && paid <= U64_MAX
    requires (forall j :: 0 <= j < |locks| ==> locks[j] >= 0) && totals.locked == Sum(locks) && Sum(full) > 0
    ensures FollowsUsdc(SharesPlan(locks, full, waln, paid), locks[i], totals, paid, i)
  {
    UsdcStep(locks, paid, i);
    UsdcSharesExact(locks, paid);
    SumToNonNegative(UsdcShares(locks, paid), i + 1);
  }

  lemma WalnFollows(locks: seq<int>, full: seq<int>, totals: LockTotals, waln: nat, paid: nat, i: nat)
    requires i < |locks| == |full| && totals.full == Sum(full) > 0 && totals.participants == Count(locks)
    requires forall j :: 0 <= j < |locks| ==> locks[j] >= 0 && full[j] >= 0 && (locks[j] == 0 ==> full[j] == 0)
    requires 0 < paid <= Sum(locks)
    ensures FollowsWaln(SharesPlan(locks, full, waln, paid), locks[i], totals, waln, i)
  {
    WalnStep(locks, full, waln, i);
    WalnSharesExact(locks, full, waln);
    SharesWithin(WalnShares(locks, full, waln), waln, i);
  }

  lemma PlanFollows(pool: seq<InvestorRecord>, price: u64, scale: Scale, totals: LockTotals, waln: nat, paid: nat) returns (plan: Plan)
    requires price > 0 && 0 < paid <= totals.locked && paid <= U64_MAX && totals.full > 0
    requires totals.locked == Total(pool, LockOf) && totals.full == Sum(BaseAmounts(pool, price, scale))
    requires totals.participants == Count(Column(pool, LockOf))
    ensures FollowsAll(plan, pool, price, scale, totals, waln, paid)
    ensures var locks, full := Column(pool, LockOf), BaseAmounts(pool, price, scale);
      && plan.full == full
      && plan.waln == WalnShares(locks, full, waln) && plan.usdc == UsdcShares(locks, paid)
      && plan.left[0] == paid - Sum(Scaled(locks, paid, totals.locked))
      && plan.left[|pool|] == 0 && Sum(plan.usdc) == paid
  {
    var locks, full := Column(pool, LockOf), BaseAmounts(pool, price, scale);
    BasesNonNegative(pool, price, scale);
    PoolColumns(pool);
    plan := SharesPlan(locks, full, waln, paid);
    forall i | 0 <= i < |pool|
      ensures Follows(plan, pool, price, scale, totals, waln, paid, i)
    {
      BaseAt(pool, price, scale, i);
      UsdcFollows(locks, full, totals, waln, paid, i);
      WalnFollows(locks, full, totals, waln, paid, i);
    }
    UsdcBases(locks, paid);
    UsdcSharesExact(locks, paid);
  }

  lemma SharesWithin(shares: seq<int>, waln: nat, i: nat)
    requires i < |shares|
    requires forall n :: 0 <= n <= |shares| ==> 0 <= SumTo(shares, n) <= waln
    ensures shares[i] <= waln - SumTo(shares, i) <= waln
  {
    assert SumTo(shares, i + 1) == SumTo(shares, i) + shares[i];
  }

  method ExecuteSettleForced(investors: array<InvestorRecord>, count: nat, price: u64, scale: Scale, waln: u64, paid: u64)
    returns (r: Result<Summary>)
    requires count <= investors.Length && price > 0
    modifies investors
    ensures investors[count..] == old(investors[count..])
    ensures match SettleForced(old(investors[..count]), price, scale, waln, paid)
      case Ok(s) => r == Ok(s.summary) && investors[..count] == s.pool
      case Err(e) => r == Err(e)
  {
    ghost var pool := investors[..count];
    var totals :- SumLocks(investors, count, price, scale);
    :- Need(totals.full > 0, NoEligibleInvestors);
    :- Need(paid > 0, InvalidParameter);
    :- Need(paid <= totals.locked, ArithmeticOverflow);
    ghost var plan := PlanFollows(pool, price, scale, totals, waln, paid);
    var baseTotal := SumBaseShares(investors, count, paid, totals.locked);
    var t :- PayAll(investors, count, price, scale, totals, waln, paid, paid - baseTotal, plan);
    // the program's two checks after the loop never fail
    assert t.remainder == 0 && t.usdcSpent == paid;
    return Ok(Summary(SortAllocs(t.allocs), paid, t.walnPurchased, t.aatVolume, |t.allocs|));
  }
}
