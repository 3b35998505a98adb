/** Starting a round: the elimination loop, the pro-rata locks and the rounding gap. */
module StartRound {
  import opened Arithmetic
  import opened Accounts

  // ---------- elimination ----------

  /** An investor enters the first pass with a deposit, a volume, and half the cap. */
  function InitialMask(pool: seq<InvestorRecord>, cap: nat): (mask: seq<bool>) {
    seq(|pool|, i requires 0 <= i < |pool| =>
      pool[i].usdcDeposited > 0 && pool[i].aatVolume > 0 && pool[i].usdcDeposited >= cap / 2)
  }

  /** Volumes of the masked investors, 0 for the others. */
  function Weights(pool: seq<InvestorRecord>, mask: seq<bool>): (ws: seq<int>)
    requires |mask| == |pool|
  {
    seq(|pool|, i requires 0 <= i < |pool| => if mask[i] then pool[i].aatVolume else 0)
  }

  function Volume(pool: seq<InvestorRecord>, mask: seq<bool>): int
    requires |mask| == |pool|
  {
    Sum(Weights(pool, mask))
  }

  /** An investor's part of the cap, rounded down. */
  function Share(cap: nat, volume: nat, total: int): nat
    requires total > 0
  {
    cap * volume / total
  }

  predicate Covers(r: InvestorRecord, cap: nat, total: int)
    requires total > 0
  {
    r.usdcDeposited >= Share(cap, r.aatVolume, total)
  }

  /** One pass: the total is fixed, and everyone whose share is 0 or exceeds the deposit leaves. */
  function Survivors(pool: seq<InvestorRecord>, cap: nat, mask: seq<bool>): (next: seq<bool>)
    requires |mask| == |pool| && Volume(pool, mask) > 0
  {
    var total := Volume(pool, mask);
    seq(|pool|, i requires 0 <= i < |pool| =>
      mask[i] && Share(cap, pool[i].aatVolume, total) > 0 && Covers(pool[i], cap, total))
  }

  function Bits(mask: seq<bool>): (bits: seq<int>) {
    seq(|mask|, i requires 0 <= i < |mask| => if mask[i] then 1 else 0)
  }

  /** How many investors the mask holds. */
  function Size(mask: seq<bool>): int {
    Sum(Bits(mask))
  }

  predicate Subset(w: seq<bool>, mask: seq<bool>) {
    |w| == |mask| && forall i :: 0 <= i < |w| && w[i] ==> mask[i]
  }

  predicate Empty(mask: seq<bool>) {
    forall i :: 0 <= i < |mask| ==> !mask[i]
  }

  lemma SizeShrinks(w: seq<bool>, mask: seq<bool>)
    requires Subset(w, mask) && w != mask
    ensures 0 <= Size(w) < Size(mask)
  {
    var k :| 0 <= k < |w| && w[k] != mask[k];
    SumToStrict(Bits(w), Bits(mask), |w|, k);
    SumToNonNegative(Bits(w), |w|);
  }

  /** No step of a pass over `mask` leaves u64 or u128. */
  predicate Fits(pool: seq<InvestorRecord>, cap: nat, mask: seq<bool>)
    requires |mask| == |pool|
  {
    Volume(pool, mask) <= U64_MAX &&
    forall i :: 0 <= i < |pool| && mask[i] ==> cap * pool[i].aatVolume <= U128_MAX
  }

  /** The elimination loop entered with `mask`. */
  function Eliminate(pool: seq<InvestorRecord>, cap: nat, mask: seq<bool>): (r: Result<seq<bool>>)
    requires |mask| == |pool|
    ensures r.Ok? ==> Subset(r.value, mask) && Volume(pool, r.value) > 0 && Survivors(pool, cap, r.value) == r.value
    decreases Size(mask)
  {
    if Volume(pool, mask) > U64_MAX then Err(ArithmeticOverflow) else
    :- Need(Volume(pool, mask) > 0, NoEligibleInvestors);
    :- Need(Fits(pool, cap, mask), ArithmeticOverflow);
    var next := Survivors(pool, cap, mask);
    if next == mask then Ok(mask)
    else
      SizeShrinks(next, mask);
      Eliminate(pool, cap, next)
  }

  /** How often the elimination loop is entered. */
  function Passes(pool: seq<InvestorRecord>, cap: nat, mask: seq<bool>): (n: nat)
    requires |mask| == |pool|
    decreases Size(mask)
  {
    if Volume(pool, mask) > 0 && Fits(pool, cap, mask) && Survivors(pool, cap, mask) != mask then
      SizeShrinks(Survivors(pool, cap, mask), mask);
      1 + Passes(pool, cap, Survivors(pool, cap, mask))
    else 1
  }

  // ---------- locks and the gap ----------

  /** What each investor locks before the gap is placed. */
  function FloorLocks(pool: seq<InvestorRecord>, mask: seq<bool>, cap: nat): (locks: seq<int>)
    requires |mask| == |pool| && Volume(pool, mask) > 0
    ensures |locks| == |pool|
    ensures forall i :: 0 <= i < |pool| ==> 0 <= locks[i] <= pool[i].usdcDeposited
  {
    var total := Volume(pool, mask);
    seq(|pool|, i requires 0 <= i < |pool| =>
      if !mask[i] then 0
      else if Covers(pool[i], cap, total) then Share(cap, pool[i].aatVolume, total)
      else pool[i].usdcDeposited)
  }

  /** Moves `lock` from an investor's deposit into the round. */
  function LockRecord(r: InvestorRecord, lock: int): InvestorRecord
    requires 0 <= lock <= r.usdcDeposited
  {
    if lock == 0 then r
    else r.(usdcDeposited := r.usdcDeposited - lock, usdcLocked := lock)
  }

  function ApplyLocks(pool: seq<InvestorRecord>, locks: seq<int>): (locked: seq<InvestorRecord>)
    requires |locks| == |pool|
    requires forall i :: 0 <= i < |pool| ==> 0 <= locks[i] <= pool[i].usdcDeposited
  {
    seq(|pool|, i requires 0 <= i < |pool| => LockRecord(pool[i], locks[i]))
  }

  /** First masked investor, from `from` on, whose remaining deposit covers the gap. */
  function FirstWithRoom(pool: seq<InvestorRecord>, mask: seq<bool>, gap: nat, from: nat): (k: nat)
    requires |mask| == |pool| && from <= |pool|
    ensures from <= k <= |pool|
    ensures k < |pool| ==> mask[k] && pool[k].usdcDeposited >= gap
    ensures forall i :: from <= i < k ==> !(mask[i] && pool[i].usdcDeposited >= gap)
    decreases |pool| - from
  {
    if from == |pool| || (mask[from] && pool[from].usdcDeposited >= gap) then from
    else FirstWithRoom(pool, mask, gap, from + 1)
  }

  /** Gives the whole gap to one investor, or to nobody when no remaining deposit covers it. */
  function PlaceGap(pool: seq<InvestorRecord>, mask: seq<bool>, locked: nat, gap: nat): (r: Result<(seq<InvestorRecord>, u64)>)
    requires |mask| == |pool| && locked <= U64_MAX
    ensures r.Ok? ==> |r.value.0| == |pool|
  {
    var k := FirstWithRoom(pool, mask, gap, 0);
    if gap == 0 || k == |pool| then Ok((pool, locked))
    else
      :- Need(pool[k].usdcLocked + gap <= U64_MAX && locked + gap <= U64_MAX, ArithmeticOverflow);
      Ok((pool[k := AddLock(pool[k], gap)], locked + gap))
  }

  function AddLock(r: InvestorRecord, gap: nat): InvestorRecord
    requires gap <= r.usdcDeposited && r.usdcLocked + gap <= U64_MAX
  {
    r.(usdcDeposited := r.usdcDeposited - gap, usdcLocked := r.usdcLocked + gap)
  }

  datatype Started = Started(pool: seq<InvestorRecord>, volume: int, locked: u64)

  /** Locks the shares of the eligible investors and places the rounding gap. */
  function LockRound(pool: seq<InvestorRecord>, cap: nat, eligible: seq<bool>): (r: Result<Started>)
    requires |eligible| == |pool| && Volume(pool, eligible) > 0
    ensures r.Ok? ==> |r.value.pool| == |pool|
  {
    var locks := FloorLocks(pool, eligible, cap);
    var locked := Sum(locks);
    :- Need(0 <= locked <= U64_MAX, ArithmeticOverflow);
    var gap := if cap > locked then cap - locked else 0;
    :- Need(gap <= U64_MAX, ArithmeticOverflow);
    var placed :- PlaceGap(ApplyLocks(pool, locks), eligible, locked, gap);
    Ok(Started(placed.0, Volume(pool, eligible), placed.1))
  }

  function RoundStart(pool: seq<InvestorRecord>, size: u64, price: u64, scale: Scale): (r: Result<Started>)
    ensures r.Ok? ==> |r.value.pool| == |pool|
  {
    var cap := UsdcValue(size, price, scale);
    :- Need(cap > 0, InvalidParameter);
    var eligible :- Eliminate(pool, cap, InitialMask(pool, cap));
    LockRound(pool, cap, eligible)
  }

  // ---------- the loops ----------

  method SumEligible(investors: array<InvestorRecord>, count: nat, eligible: array<bool>) returns (r: Result<nat>)
    requires count <= investors.Length && eligible.Length == count
    ensures var total := Volume(investors[..count], eligible[..]);
      r == if total <= U64_MAX then Ok(total) else Err(ArithmeticOverflow)
  {
    ghost var weights := Weights(investors[..count], eligible[..]);
    var total: nat := 0;
    for i := 0 to count
      invariant total == SumTo(weights, i) && total <= U64_MAX
    {
      SumToNonNegative(weights, i + 1);
      if eligible[i] {
        if total + investors[i].aatVolume > U64_MAX { return Err(ArithmeticOverflow); }
        total := total + investors[i].aatVolume;
      }
    }
    return Ok(total);
  }

  method DropUncovered(investors: array<InvestorRecord>, count: nat, cap: nat, total: nat, eligible: array<bool>)
    returns (r: Result<bool>)
    requires count <= investors.Length && eligible.Length == count
    requires total == Volume(investors[..count], eligible[..]) && 0 < total <= U64_MAX
    modifies eligible
    ensures r == if Fits(investors[..count], cap, old(eligible[..])) then Ok(eligible[..] != old(eligible[..])) else Err(ArithmeticOverflow)
    ensures r.Ok? ==> eligible[..] == Survivors(investors[..count], cap, old(eligible[..]))
  {
    ghost var pool, mask := investors[..count], eligible[..];
    var changed := false;
    for i := 0 to count
      invariant forall j :: 0 <= j < i ==> eligible[j] == Survivors(pool, cap, mask)[j]
      invariant forall j :: i <= j < count ==> eligible[j] == mask[j]
      invariant forall j :: 0 <= j < i && mask[j] ==> cap * pool[j].aatVolume <= U128_MAX
      invariant !changed ==> eligible[..] == mask
      invariant changed ==> exists j :: 0 <= j < i && eligible[j] != mask[j]
    {
      if eligible[i] {
        assert mask[i];
        :- Need(cap * investors[i].aatVolume <= U128_MAX, ArithmeticOverflow);
        var requiredLock := cap * investors[i].aatVolume / total;
        if requiredLock == 0 || investors[i].usdcDeposited < requiredLock {
          eligible[i] := false;
          changed := true;
          assert eligible[i] != mask[i];
        }
      }
    }
    assert eligible[..] == Survivors(pool, cap, mask);
    return Ok(changed);
  }

  /** `passes` counts how often the loop is entered. */
  method SelectEligible(investors: array<InvestorRecord>, count: nat, cap: nat, eligible: array<bool>)
    returns (r: Result<nat>, ghost passes: nat)
    requires count <= investors.Length && eligible.Length == count
    modifies eligible
    ensures match Eliminate(investors[..count], cap, InitialMask(investors[..count], cap))
      case Ok(mask) => eligible[..] == mask && r == Ok(Volume(investors[..count], mask))
      case Err(e) => r == Err(e)
    ensures passes == Passes(investors[..count], cap, InitialMask(investors[..count], cap))
  {
    ghost var pool := investors[..count];
    for i := 0 to count
      invariant forall j :: 0 <= j < i ==> eligible[j] == InitialMask(pool, cap)[j]
    {
      var record := investors[i];
      eligible[i] := record.usdcDeposited > 0 && record.aatVolume > 0 && record.usdcDeposited >= cap / 2;
    }
    assert eligible[..] == InitialMask(pool, cap);
    ghost var answer := Eliminate(pool, cap, eligible[..]);
    ghost var bound := Passes(pool, cap, eligible[..]);
    var total: nat := 0;
    var changed := true;
    passes := 0;
    while changed
      invariant passes + (if changed then Passes(pool, cap, eligible[..]) else 0) == bound
      invariant changed ==> Eliminate(pool, cap, eligible[..]) == answer
      invariant !changed ==> answer == Ok(eligible[..]) && total == Volume(pool, eligible[..])
      decreases changed, Size(eligible[..])
    {
      ghost var mask := eligible[..];
      passes := passes + 1;
      var sum := SumEligible(investors, count, eligible);
      if sum.Err? { return Err(sum.error), passes; }
      total := sum.value;
      if total == 0 { return Err(NoEligibleInvestors), passes; }
      var dropped := DropUncovered(investors, count, cap, total, eligible);
      if dropped.Err? { return Err(dropped.error), passes; }
      changed := dropped.value;
      if changed {
        SizeShrinks(eligible[..], mask);
      }
    }
    return Ok(total), passes;
  }

  method LockShares(investors: array<InvestorRecord>, count: nat, cap: nat, total: nat, eligible: array<bool>)
    returns (r: Result<u64>)
    requires count <= investors.Length && eligible.Length == count
    requires total == Volume(investors[..count], eligible[..]) && total > 0
    modifies investors
    ensures investors[count..] == old(investors[count..])
    ensures var locks := FloorLocks(old(investors[..count]), eligible[..], cap);
      if Sum(locks) <= U64_MAX
      then r == Ok(Sum(locks)) && investors[..count] == ApplyLocks(old(investors[..count]), locks)
      else r == Err(ArithmeticOverflow)
  {
    ghost var pool := investors[..count];
    ghost var locks := FloorLocks(pool, eligible[..], cap);
    var locked: nat := 0;
    for i := 0 to count
      invariant investors[count..] == old(investors[count..])
      invariant locked == SumTo(locks, i) && locked <= U64_MAX
      invariant forall j :: 0 <= j < i ==> investors[j] == ApplyLocks(pool, locks)[j]
      invariant forall j :: i <= j < count ==> investors[j] == pool[j]
    {
      SumToNonNegative(locks, i + 1);
      var record := investors[i];
      assert record == pool[i];
      if eligible[i] {
        var share := cap * record.aatVolume / total;
        var usdcLocked: nat := if share <= record.usdcDeposited then share else record.usdcDeposited;
        assert usdcLocked == locks[i];
        if usdcLocked != 0 {
          investors[i] := record.(usdcDeposited := record.usdcDeposited - usdcLocked, usdcLocked := usdcLocked);
          :- Need(locked + usdcLocked <= U64_MAX, ArithmeticOverflow);
          locked := locked + usdcLocked;
        }
      }
    }
    assert investors[..count] == ApplyLocks(pool, locks);
    return Ok(locked);
  }

  method AbsorbGap(investors: array<InvestorRecord>, count: nat, eligible: array<bool>, locked: u64, gap: u64)
    returns (r: Result<u64>)
    requires count <= investors.Length && eligible.Length == count && gap > 0
    modifies investors
    ensures investors[count..] == old(investors[count..])
    ensures match PlaceGap(old(investors[..count]), eligible[..], locked, gap)
      case Ok(placed) => r == Ok(placed.1) && investors[..count] == placed.0
      case Err(e) => r == Err(e) && investors[..] == old(investors[..]) && e == ArithmeticOverflow
  {
    ghost var pool, mask := investors[..count], eligible[..];
    for i := 0 to count
      invariant investors[..] == old(investors[..])
      invariant FirstWithRoom(pool, mask, gap, 0) == FirstWithRoom(pool, mask, gap, i)
    {
      if eligible[i] && investors[i].usdcDeposited >= gap {
        var record := investors[i];
        :- Need(record.usdcLocked + gap <= U64_MAX, ArithmeticOverflow);
        :- Need(locked + gap <= U64_MAX, ArithmeticOverflow);
        investors[i] := record.(usdcDeposited := record.usdcDeposited - gap, usdcLocked := record.usdcLocked + gap);
        return Ok(locked + gap);
      }
    }
    return Ok(locked);
  }

  method LockEligible(investors: array<InvestorRecord>, count: nat, cap: nat, total: nat, eligible: array<bool>)
    returns (r: Result<u64>)
    requires count <= investors.Length && eligible.Length == count
    requires total == Volume(investors[..count], eligible[..]) && total > 0
    modifies investors
    ensures investors[count..] == old(investors[count..])
    ensures match LockRound(old(investors[..count]), cap, eligible[..])
      case Ok(s) => r == Ok(s.locked) && investors[..count] == s.pool && s.volume == total
      case Err(e) => r == Err(e) && e == ArithmeticOverflow
  {
    SumToNonNegative(FloorLocks(investors[..count], eligible[..], cap), 0);
    r := LockShares(investors, count, cap, total, eligible);
    if r.Ok? && cap > r.value {
      if cap - r.value > U64_MAX { return Err(ArithmeticOverflow); }
      r := AbsorbGap(investors, count, eligible, r.value, cap - r.value);
    }
  }

  method ExecuteRoundStart(investors: array<InvestorRecord>, count: nat, size: u64, price: u64, scale: Scale)
    returns (r: Result<(int, u64)>)
    requires count <= investors.Length
    modifies investors
    ensures investors[count..] == old(investors[count..])
    ensures match RoundStart(old(investors[..count]), size, price, scale)
      case Ok(s) => r == Ok((s.volume, s.locked)) && investors[..count] == s.pool
      case Err(e) => r == Err(e) && (e != ArithmeticOverflow ==> investors[..] == old(investors[..]))
  {
    var cap := UsdcValue(size, price, scale);
    :- Need(cap > 0, InvalidParameter);
    var eligible := new bool[count];
    var selected, _ := SelectEligible(investors, count, cap, eligible);
    if selected.Err? { return Err(selected.error); }
    var locked :- LockEligible(investors, count, cap, selected.value, eligible);
    return Ok((selected.value, locked));
  }
}
