/** The rounding gap of a round start: how large it is, when it is always locked, and
    that starting a round cannot overflow and conserves every investor's balance. */
module Gap {
  import opened Arithmetic
  import opened Accounts
  import opened StartRound
  import opened Elimination

  // ---------- the eligible set ----------

  /** What the elimination leaves behind: everyone in the set has a volume, a visible
      share, a deposit that covers it, and half the cap. */
  predicate Apportioned(pool: seq<InvestorRecord>, cap: nat, mask: seq<bool>) {
    |mask| == |pool| && Volume(pool, mask) > 0 &&
    forall i :: 0 <= i < |pool| && mask[i] ==>
      Share(cap, pool[i].aatVolume, Volume(pool, mask)) > 0 &&
      Covers(pool[i], cap, Volume(pool, mask)) && pool[i].aatVolume > 0 &&
      2 * pool[i].usdcDeposited >= cap - 1
  }

  lemma EliminationApportions(pool: seq<InvestorRecord>, cap: nat, mask: seq<bool>)
    requires Eliminate(pool, cap, InitialMask(pool, cap)) == Ok(mask)
    ensures Apportioned(pool, cap, mask)
  {
    var next := Survivors(pool, cap, mask);
    forall i | 0 <= i < |pool| && mask[i]
      ensures Share(cap, pool[i].aatVolume, Volume(pool, mask)) > 0
      ensures Covers(pool[i], cap, Volume(pool, mask)) && pool[i].aatVolume > 0
      ensures 2 * pool[i].usdcDeposited >= cap - 1
    {
      assert next[i] && InitialMask(pool, cap)[i];
    }
  }

  /** Each eligible investor locks the plain share: the limit to the deposit never applies. */
  lemma LocksAreShares(pool: seq<InvestorRecord>, cap: nat, mask: seq<bool>)
    requires Apportioned(pool, cap, mask)
    ensures FloorLocks(pool, mask, cap) == Scaled(Weights(pool, mask), cap, Volume(pool, mask))
    ensures forall i :: 0 <= i < |pool| ==> (mask[i] <==> FloorLocks(pool, mask, cap)[i] > 0)
  {
    var total := Volume(pool, mask);
    forall i | 0 <= i < |pool|
      ensures FloorLocks(pool, mask, cap)[i] == Scaled(Weights(pool, mask), cap, total)[i]
      ensures mask[i] <==> FloorLocks(pool, mask, cap)[i] > 0
    {
      if !mask[i] {
        assert cap * 0 / total == 0;
      }
    }
  }

  /** The floor shares miss less than one unit per eligible investor. */
  lemma GapBelowCount(pool: seq<InvestorRecord>, cap: nat, mask: seq<bool>)
    requires Apportioned(pool, cap, mask)
    ensures 0 <= cap - Sum(FloorLocks(pool, mask, cap)) < Size(mask) <= |pool|
  {
    LocksAreShares(pool, cap, mask);
    var ws := Weights(pool, mask);
    SplitBounds(ws, cap);
    assert Positive(ws) == Bits(mask);
    CountPositiveSum(ws);
  }

  /** When each lock leaves at most `room`, deposits of at least (cap - 1) / 2 bound the cap. */
  lemma {:induction false} BackingBounds(pool: seq<InvestorRecord>, cap: nat, mask: seq<bool>, locks: seq<int>, room: int, n: nat)
    requires |mask| == |locks| == |pool| && n <= |pool|
    requires forall i :: 0 <= i < |pool| ==> if mask[i]
      then 2 * pool[i].usdcDeposited >= cap - 1 && pool[i].usdcDeposited - locks[i] <= room
      else locks[i] == 0
    ensures (cap - 1 - 2 * room) * SumTo(Bits(mask), n) <= 2 * SumTo(locks, n)
  {
    if n > 0 {
      BackingBounds(pool, cap, mask, locks, room, n - 1);
      Distribute(cap - 1 - 2 * room, SumTo(Bits(mask), n - 1), Bits(mask)[n - 1]);
    }
  }

  /** From three eligible investors and a cap of twice their number on, somebody always
      has room for the whole gap. */
  lemma GapHasRoom(pool: seq<InvestorRecord>, cap: nat, mask: seq<bool>)
    requires Apportioned(pool, cap, mask)
    requires Size(mask) >= 3 && cap >= 2 * Size(mask)
    ensures var locks := FloorLocks(pool, mask, cap);
      exists i :: 0 <= i < |pool| && mask[i] && pool[i].usdcDeposited - locks[i] >= cap - Sum(locks)
  {
    LocksAreShares(pool, cap, mask);
    GapBelowCount(pool, cap, mask);
    var locks, n := FloorLocks(pool, mask, cap), Size(mask);
    var gap := cap - Sum(locks);
    GapArithmetic(n, cap, gap);
    if forall i :: 0 <= i < |pool| && mask[i] ==> pool[i].usdcDeposited - locks[i] <= gap - 1 {
      BackingBounds(pool, cap, mask, locks, gap - 1, |pool|);
    }
  }

  /** The arithmetic behind the bound: it is where the quadratic in n factors. */
  lemma GapArithmetic(n: int, cap: int, gap: int)
    requires n >= 3 && cap >= 2 * n && gap <= n - 1
    ensures (cap - 1 - 2 * (gap - 1)) * n > 2 * (cap - gap)
  {
    MulMonotone(gap, n - 1, 2 * n - 2);
    MulMonotone(2 * n, cap, n - 2);
    assert (cap - 1 - 2 * (gap - 1)) * n - 2 * (cap - gap) == cap * (n - 2) - (2 * n - 2) * gap + n;
    assert (2 * n - 2) * (n - 1) == 2 * n * n - 4 * n + 2;
    assert 2 * n * (n - 2) == 2 * n * n - 4 * n;
  }

  // ---------- the locks of a started round ----------

  /** A started round, given by its final locks: the floor shares, with the gap on top of
      one of them unless no eligible investor had room for it. */
  ghost predicate StartsWith(pool: seq<InvestorRecord>, cap: nat, mask: seq<bool>, locks: seq<int>, s: Started) {
    && Apportioned(pool, cap, mask)
    && |locks| == |pool|
    && (forall i :: 0 <= i < |pool| ==> FloorLocks(pool, mask, cap)[i] <= locks[i] <= pool[i].usdcDeposited)
    && (forall i :: 0 <= i < |pool| ==> (mask[i] <==> locks[i] > 0))
    && s.pool == ApplyLocks(pool, locks)
    && s.volume == Volume(pool, mask)
    && s.locked == Sum(locks)
    && (s.locked == cap || (
      && locks == FloorLocks(pool, mask, cap)
      && forall i :: 0 <= i < |pool| && mask[i] ==> pool[i].usdcDeposited - locks[i] < cap - s.locked))
  }

  /** The recipient of the gap pays it from what the deposit had left. */
  lemma RecipientFits(pool: seq<InvestorRecord>, cap: nat, mask: seq<bool>, k: nat, gap: nat)
    requires Apportioned(pool, cap, mask)
    requires k < |pool| && mask[k]
    requires ApplyLocks(pool, FloorLocks(pool, mask, cap))[k].usdcDeposited >= gap
    ensures var locks := FloorLocks(pool, mask, cap);
      && locks[k] + gap <= pool[k].usdcDeposited
      && ApplyLocks(pool, locks)[k].usdcLocked == locks[k]
      && Sum(locks[k := locks[k] + gap]) == Sum(locks) + gap
      && Sum(locks) + gap <= Total(pool, DepositOf)
  {
    LocksAreShares(pool, cap, mask);
    var locks := FloorLocks(pool, mask, cap);
    assert ApplyLocks(pool, locks)[k] == LockRecord(pool[k], locks[k]);
    SumToUpdate(locks, k, locks[k] + gap, |pool|);
    var raised, deposits := locks[k := locks[k] + gap], Column(pool, DepositOf);
    assert forall i :: 0 <= i < |pool| ==> deposits[i] == pool[i].usdcDeposited;
    SumToMonotone(raised, deposits, |pool|);
  }

  lemma PlaceGapOutcome(pool: seq<InvestorRecord>, cap: nat, mask: seq<bool>) returns (locks: seq<int>)
    requires Apportioned(pool, cap, mask)
    requires LockRound(pool, cap, mask).Ok?
    ensures StartsWith(pool, cap, mask, locks, LockRound(pool, cap, mask).value)
  {
    LocksAreShares(pool, cap, mask);
    GapBelowCount(pool, cap, mask);
    locks := FloorLocks(pool, mask, cap);
    var gap := cap - Sum(locks);
    var pool1 := ApplyLocks(pool, locks);
    var k := FirstWithRoom(pool1, mask, gap, 0);
    if gap > 0 {
      if k < |pool| {
        RecipientFits(pool, cap, mask, k, gap);
        var final := locks[k := locks[k] + gap];
        assert pool1[k := AddLock(pool1[k], gap)] == ApplyLocks(pool, final);
        locks := final;
      } else {
        forall i | 0 <= i < |pool| && mask[i]
          ensures pool[i].usdcDeposited - locks[i] < gap
        {
          assert pool1[i].usdcDeposited == pool[i].usdcDeposited - locks[i];
        }
      }
    }
  }

  /** How a successful start came about. */
  lemma StartExplained(pool: seq<InvestorRecord>, size: u64, price: u64, scale: Scale) returns (mask: seq<bool>, locks: seq<int>)
    requires RoundStart(pool, size, price, scale).Ok?
    ensures StartsWith(pool, UsdcValue(size, price, scale), mask, locks, RoundStart(pool, size, price, scale).value)
    ensures Eliminate(pool, UsdcValue(size, price, scale), InitialMask(pool, UsdcValue(size, price, scale))) == Ok(mask)
  {
    var cap := UsdcValue(size, price, scale);
    mask := Eliminate(pool, cap, InitialMask(pool, cap)).value;
    EliminationApportions(pool, cap, mask);
    locks := PlaceGapOutcome(pool, cap, mask);
  }

  // ---------- no overflow ----------

  /** The limits every pool of the program respects: volumes within the AAT limit and
      deposits within u64. */
  predicate Sound(pool: seq<InvestorRecord>) {
    |pool| <= MAX_INVESTORS && Total(pool, VolumeOf) <= MAX_TOTAL_AAT_VOLUME && Total(pool, DepositOf) <= U64_MAX
  }

  lemma InitialFits(pool: seq<InvestorRecord>, cap: nat)
    requires Sound(pool)
    ensures Fits(pool, cap, InitialMask(pool, cap))
  {
    var mask := InitialMask(pool, cap);
    SumToMonotone(Weights(pool, mask), Column(pool, VolumeOf), |pool|);
    TotalCoversEach(pool, VolumeOf);
    forall i | 0 <= i < |pool| && mask[i]
      ensures cap * pool[i].aatVolume <= U128_MAX
    {
      assert VolumeOf(pool[i]) <= MAX_TOTAL_AAT_VOLUME;
      MulMonotone(cap, 2 * U64_MAX + 1, pool[i].aatVolume);
      MulMonotone(pool[i].aatVolume, MAX_TOTAL_AAT_VOLUME, 2 * U64_MAX + 1);
    }
  }

  lemma LockRoundSucceeds(pool: seq<InvestorRecord>, cap: nat, mask: seq<bool>)
    requires Sound(pool) && Apportioned(pool, cap, mask)
    ensures LockRound(pool, cap, mask).Ok?
  {
    var locks := FloorLocks(pool, mask, cap);
    SumToNonNegative(locks, |pool|);
    SumToMonotone(locks, Column(pool, DepositOf), |pool|);
    GapBelowCount(pool, cap, mask);
    var gap := cap - Sum(locks);
    var k := FirstWithRoom(ApplyLocks(pool, locks), mask, gap, 0);
    if k < |pool| {
      RecipientFits(pool, cap, mask, k, gap);
    }
  }

  /** A pool within the limits never makes a start overflow: it starts, or the cap is 0,
      or the elimination found nobody. */
  lemma RoundStartNeverOverflows(pool: seq<InvestorRecord>, size: u64, price: u64, scale: Scale)
    requires Sound(pool)
    ensures var cap := UsdcValue(size, price, scale);
      var r := RoundStart(pool, size, price, scale);
      if cap == 0 then r == Err(InvalidParameter)
      else if Empty(EligibleSet(pool, cap, InitialMask(pool, cap))) then r == Err(NoEligibleInvestors)
      else r.Ok?
  {
    var cap := UsdcValue(size, price, scale);
    if cap > 0 {
      var initial := InitialMask(pool, cap);
      InitialFits(pool, cap);
      EliminateEnds(pool, cap, initial);
      if Eliminate(pool, cap, initial).Ok? {
        var mask := Eliminate(pool, cap, initial).value;
        EliminationApportions(pool, cap, mask);
        LockRoundSucceeds(pool, cap, mask);
      }
    }
  }

  // ---------- what a start leaves behind ----------

  /** How many investors hold a lock. */
  function Participants(pool: seq<InvestorRecord>): int {
    Count(Column(pool, LockOf))
  }

  predicate Unlocked(pool: seq<InvestorRecord>) {
    forall i :: 0 <= i < |pool| ==> pool[i].usdcLocked == 0
  }

  /** The locks can be read back from the pool they were written to. */
  lemma LocksReadBack(pool: seq<InvestorRecord>, locks: seq<int>)
    requires Unlocked(pool) && |locks| == |pool|
    requires forall i :: 0 <= i < |pool| ==> 0 <= locks[i] <= pool[i].usdcDeposited
    ensures Column(ApplyLocks(pool, locks), LockOf) == locks
  {
    var column := Column(ApplyLocks(pool, locks), LockOf);
    forall i | 0 <= i < |pool|
      ensures column[i] == locks[i]
    {
      assert column[i] == LockRecord(pool[i], locks[i]).usdcLocked;
    }
  }

  lemma LocksWritten(pool: seq<InvestorRecord>, cap: nat, mask: seq<bool>, locks: seq<int>, s: Started)
    requires Unlocked(pool) && StartsWith(pool, cap, mask, locks, s)
    ensures |s.pool| == |pool|
    ensures Column(s.pool, LockOf) == locks
    ensures Positive(locks) == Bits(mask)
    ensures forall i :: 0 <= i < |pool| ==> s.pool[i] == LockRecord(pool[i], locks[i])
  {
    LocksReadBack(pool, locks);
  }

  lemma LockedVolumes(pool: seq<InvestorRecord>, cap: nat, mask: seq<bool>, locks: seq<int>, s: Started)
    requires Unlocked(pool) && StartsWith(pool, cap, mask, locks, s)
    ensures Total(s.pool, LockedVolumeOf) == s.volume
  {
    var column := Column(s.pool, LockedVolumeOf);
    forall i | 0 <= i < |pool|
      ensures column[i] == Weights(pool, mask)[i]
    {
      assert s.pool[i] == LockRecord(pool[i], locks[i]) && pool[i].usdcLocked == 0;
      assert mask[i] <==> locks[i] > 0;
      assert column[i] == LockedVolumeOf(s.pool[i]);
    }
    assert column == Weights(pool, mask);
  }

  /** A start only moves deposits into locks: nothing else in any record changes and
      nobody's balance does, and the totals it reports are those of the new pool. */
  lemma StartConserves(pool: seq<InvestorRecord>, size: u64, price: u64, scale: Scale)
    requires Unlocked(pool) && RoundStart(pool, size, price, scale).Ok?
    ensures var s := RoundStart(pool, size, price, scale).value;
      && |s.pool| == |pool|
      && (forall i :: 0 <= i < |pool| ==>
        && s.pool[i] == pool[i].(usdcDeposited := s.pool[i].usdcDeposited, usdcLocked := s.pool[i].usdcLocked)
        && BalanceOf(s.pool[i]) == BalanceOf(pool[i]))
      && Total(s.pool, LockOf) == s.locked
      && Total(s.pool, LockedVolumeOf) == s.volume
  {
    var mask, locks := StartExplained(pool, size, price, scale);
    ConservedBy(pool, UsdcValue(size, price, scale), mask, locks, RoundStart(pool, size, price, scale).value);
  }

  lemma ConservedBy(pool: seq<InvestorRecord>, cap: nat, mask: seq<bool>, locks: seq<int>, s: Started)
    requires Unlocked(pool) && StartsWith(pool, cap, mask, locks, s)
    ensures |s.pool| == |pool|
    ensures forall i :: 0 <= i < |pool| ==>
      && s.pool[i] == pool[i].(usdcDeposited := s.pool[i].usdcDeposited, usdcLocked := s.pool[i].usdcLocked)
      && BalanceOf(s.pool[i]) == BalanceOf(pool[i])
    ensures Total(s.pool, LockOf) == s.locked
    ensures Total(s.pool, LockedVolumeOf) == s.volume
  {
    LocksWritten(pool, cap, mask, locks, s);
    LockedVolumes(pool, cap, mask, locks, s);
  }

  /** Two participants leave one unit unlocked exactly when neither deposit covers it,
      that is when each locked the same half of an odd cap and had no more. */
  lemma TwoInvestorGap(pool: seq<InvestorRecord>, cap: nat, mask: seq<bool>, locks: seq<int>, s: Started)
    requires Unlocked(pool) && StartsWith(pool, cap, mask, locks, s) && Participants(s.pool) == 2
    ensures cap - 1 <= s.locked <= cap <= U64_MAX
    ensures s.locked < cap <==>
      cap % 2 == 1 && forall i :: 0 <= i < |pool| && mask[i] ==> pool[i].usdcDeposited == cap / 2
    ensures s.locked < cap ==> forall i :: 0 <= i < |pool| && mask[i] ==> s.pool[i].usdcDeposited == 0
  {
    LocksWritten(pool, cap, mask, locks, s);
    GapBelowCount(pool, cap, mask);
    var i, j := TwoMembers(mask);
    SumOfTwo(locks, i, j);
  }

  lemma TwoMembers(mask: seq<bool>) returns (i: nat, j: nat)
    requires Size(mask) == 2
    ensures i < j < |mask| && forall k :: 0 <= k < |mask| ==> (mask[k] <==> k == i || k == j)
  {
    var bits := Bits(mask);
    j := LastMember(mask, |mask|);
    i := LastMember(mask, j);
    SumToPrefix(bits, i);
    forall k | 0 <= k < i
      ensures !mask[k]
    {
      assert bits[k] <= 0;
    }
  }

  lemma {:induction false} LastMember(mask: seq<bool>, n: nat) returns (k: nat)
    requires n <= |mask| && SumTo(Bits(mask), n) > 0
    ensures k < n && mask[k] && SumTo(Bits(mask), k) == SumTo(Bits(mask), n) - 1
    ensures forall i :: k < i < n ==> !mask[i]
  {
    if mask[n - 1] {
      k := n - 1;
    } else {
      k := LastMember(mask, n - 1);
    }
  }

  lemma SumOfTwo(s: seq<int>, i: nat, j: nat)
    requires i < j < |s| && forall k :: 0 <= k < |s| && k != i && k != j ==> s[k] == 0
    ensures Sum(s) == s[i] + s[j]
  {
    SumToUpdate(s, i, 0, |s|);
    SumToUpdate(s[i := 0], j, 0, |s|);
    SumToZero(s[i := 0][j := 0], |s|);
  }

  /** What stays unlocked after a start: less than one unit per participant, at most one
      unit for two of them, and nothing for one, or for three or more once the cap is
      twice their number. The cap always fits u64. */
  predicate GapSmall(cap: int, locked: int, n: int) {
    && 0 <= cap - locked < n
    && (locked == cap || n == 2 || (n >= 3 && cap < 2 * n))
    && cap <= U64_MAX
  }

  lemma GapOf(pool: seq<InvestorRecord>, cap: nat, mask: seq<bool>, locks: seq<int>, s: Started)
    requires Unlocked(pool) && StartsWith(pool, cap, mask, locks, s) && |pool| <= MAX_INVESTORS
    ensures 1 <= Participants(s.pool) <= |pool|
    ensures GapSmall(cap, s.locked, Participants(s.pool))
  {
    LocksWritten(pool, cap, mask, locks, s);
    GapBelowCount(pool, cap, mask);
    var n := Size(mask);
    if n == 2 {
      TwoInvestorGap(pool, cap, mask, locks, s);
    }
    if n >= 3 && cap >= 2 * n {
      GapHasRoom(pool, cap, mask);
    }
  }

  lemma StartGap(pool: seq<InvestorRecord>, size: u64, price: u64, scale: Scale)
    requires Unlocked(pool) && RoundStart(pool, size, price, scale).Ok? && |pool| <= MAX_INVESTORS
    ensures var s := RoundStart(pool, size, price, scale).value;
      1 <= Participants(s.pool) <= |pool| && GapSmall(UsdcValue(size, price, scale), s.locked, Participants(s.pool))
  {
    var mask, locks := StartExplained(pool, size, price, scale);
    GapOf(pool, UsdcValue(size, price, scale), mask, locks, RoundStart(pool, size, price, scale).value);
  }

  // ---------- pool order ----------

  function FloorLockIn(p: seq<InvestorRecord>, m: seq<bool>, cap: nat, r: InvestorRecord): int
    requires |m| == |p| && Volume(p, m) > 0
  {
    if exists i :: 0 <= i < |p| && p[i] == r && m[i] then Share(cap, r.aatVolume, Volume(p, m)) else 0
  }

  lemma LocksPermuted(p: seq<InvestorRecord>, m: seq<bool>, q: seq<InvestorRecord>, w: seq<bool>, cap: nat)
    requires Apportioned(p, cap, m) && Apportioned(q, cap, w) && multiset(p) == multiset(q)
    requires Volume(p, m) == Volume(q, w) && Agree(p, m, p, m) && Agree(p, m, q, w)
    ensures Sum(FloorLocks(p, m, cap)) == Sum(FloorLocks(q, w, cap))
  {
    var f := (r: InvestorRecord) => FloorLockIn(p, m, cap, r);
    forall i | 0 <= i < |p|
      ensures FloorLocks(p, m, cap)[i] == f(p[i])
    {
    }
    forall j | 0 <= j < |q|
      ensures FloorLocks(q, w, cap)[j] == f(q[j])
    {
      assert q[j] in multiset(p);
      var i :| 0 <= i < |p| && p[i] == q[j];
    }
    assert FloorLocks(p, m, cap) == Column(p, f);
    assert FloorLocks(q, w, cap) == Column(q, f);
    TotalPermuted(p, q, f);
  }

  ghost predicate SomeoneHasRoom(pool: seq<InvestorRecord>, cap: nat, mask: seq<bool>)
    requires |mask| == |pool| && Volume(pool, mask) > 0
  {
    var locks := FloorLocks(pool, mask, cap);
    exists i :: 0 <= i < |pool| && mask[i] && pool[i].usdcDeposited - locks[i] >= cap - Sum(locks)
  }

  /** The whole cap is locked exactly when some eligible investor has room for the gap. */
  lemma LockedIffRoom(pool: seq<InvestorRecord>, cap: nat, mask: seq<bool>)
    requires Apportioned(pool, cap, mask) && LockRound(pool, cap, mask).Ok?
    ensures LockRound(pool, cap, mask).value.locked ==
      if SomeoneHasRoom(pool, cap, mask) then cap else Sum(FloorLocks(pool, mask, cap))
  {
    LocksAreShares(pool, cap, mask);
    GapBelowCount(pool, cap, mask);
    var locks := FloorLocks(pool, mask, cap);
    var pool1 := ApplyLocks(pool, locks);
    assert forall i :: 0 <= i < |pool| && mask[i] ==> pool1[i].usdcDeposited == pool[i].usdcDeposited - locks[i];
    var k := FirstWithRoom(pool1, mask, cap - Sum(locks), 0);
    assert k < |pool| <==> SomeoneHasRoom(pool, cap, mask);
  }

  lemma RoomPermuted(p: seq<InvestorRecord>, m: seq<bool>, q: seq<InvestorRecord>, w: seq<bool>, cap: nat)
    requires Apportioned(p, cap, m) && Apportioned(q, cap, w) && multiset(p) == multiset(q)
    requires Volume(p, m) == Volume(q, w) && Agree(p, m, p, m) && Agree(p, m, q, w)
    ensures SomeoneHasRoom(p, cap, m) <==> SomeoneHasRoom(q, cap, w)
  {
    LocksPermuted(p, m, q, w, cap);
    forall i, j | 0 <= i < |p| && 0 <= j < |q| && p[i] == q[j]
      ensures m[i] == w[j] && FloorLocks(p, m, cap)[i] == FloorLocks(q, w, cap)[j]
    {
    }
    if SomeoneHasRoom(p, cap, m) {
      var i :| 0 <= i < |p| && m[i] && p[i].usdcDeposited - FloorLocks(p, m, cap)[i] >= cap - Sum(FloorLocks(p, m, cap));
      assert p[i] in multiset(q);
    }
    if SomeoneHasRoom(q, cap, w) {
      var j :| 0 <= j < |q| && w[j] && q[j].usdcDeposited - FloorLocks(q, w, cap)[j] >= cap - Sum(FloorLocks(q, w, cap));
      assert q[j] in multiset(p);
    }
  }

  /** Reordering the pool changes neither the outcome of a start, nor its volume, nor the
      amount it locks; only who pays the gap may differ. */
  lemma StartPermuted(p: seq<InvestorRecord>, q: seq<InvestorRecord>, size: u64, price: u64, scale: Scale)
    requires multiset(p) == multiset(q) && Sound(p)
    ensures var s, t := RoundStart(p, size, price, scale), RoundStart(q, size, price, scale);
      && (s.Err? ==> t == s)
      && (s.Ok? ==> t.Ok? && s.value.locked == t.value.locked && s.value.volume == t.value.volume)
  {
    var cap := UsdcValue(size, price, scale);
    assert |p| == |multiset(p)| == |q|;
    TotalPermuted(p, q, VolumeOf);
    TotalPermuted(p, q, DepositOf);
    RoundStartNeverOverflows(p, size, price, scale);
    RoundStartNeverOverflows(q, size, price, scale);
    if cap > 0 {
      EliminatePermuted(cap, p, InitialMask(p, cap), p, InitialMask(p, cap));
      EliminatePermuted(cap, p, InitialMask(p, cap), q, InitialMask(q, cap));
      if RoundStart(p, size, price, scale).Ok? {
        var m, w := Eliminate(p, cap, InitialMask(p, cap)).value, Eliminate(q, cap, InitialMask(q, cap)).value;
        EliminationApportions(p, cap, m);
        EliminationApportions(q, cap, w);
        LockRoundSucceeds(p, cap, m);
        LockRoundSucceeds(q, cap, w);
        RoomPermuted(p, m, q, w, cap);
        LocksPermuted(p, m, q, w, cap);
        LockedIffRoom(p, cap, m);
        LockedIffRoom(q, cap, w);
      }
    }
  }

  /** The bound on the cap is sharp: n investors of equal volume, each with n - 1 units,
      leave n - 1 units of a cap of 2n - 1 unlocked. */
  lemma GapBoundIsSharp(n: nat)
    requires 3 <= n <= MAX_INVESTORS
    ensures var pool := seq(n, i requires 0 <= i < n => InvestorRecord(i, n - 1, 0, 0, 0, 1, 0));
      var mask := InitialMask(pool, 2 * n - 1);
      && Size(mask) == n
      && Eliminate(pool, 2 * n - 1, mask) == Ok(mask)
      && LockRound(pool, 2 * n - 1, mask).Ok?
      && LockRound(pool, 2 * n - 1, mask).value.locked == n
  {
    var pool := seq(n, i requires 0 <= i < n => InvestorRecord(i, n - 1, 0, 0, 0, 1, 0));
    var cap := 2 * n - 1;
    var mask := InitialMask(pool, cap);
    SumConstant(Weights(pool, mask), 1, n);
    SumConstant(Bits(mask), 1, n);
    FloorAtLeast(cap * 1, n, 1);
    FloorAtMost(cap * 1, n, 1);
    assert Survivors(pool, cap, mask) == mask;
    var locks := FloorLocks(pool, mask, cap);
    SumConstant(locks, 1, n);
  }
}
