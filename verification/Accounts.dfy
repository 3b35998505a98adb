/** The program's stored records, its errors, and sums over the investor pool. */
module Accounts {
  import opened Arithmetic

  const MAX_INVESTORS: nat := 100
  const MIN_SELL_WALN: nat := 1_000_000_000
  const MAX_TOTAL_AAT_VOLUME: nat := 1_000_000

  /** A 32-byte key read as a big-endian number, so that the byte-wise order the
      program sorts by is the order of numbers. */
  type Pubkey = nat

  /** The program's errors, followed by the three the runtime raises for it. */
  datatype FloorError =
    | SellPaused
    | ContractFrozen
    | ZeroAmount
    | InsufficientFunds
    | NotYetUnlocked
    | AlreadyClaimed
    | ArithmeticOverflow
    | InvalidInvestor
    | NoEligibleInvestors
    | InvalidAatNft
    | InvalidParameter
    | WalnAllocationLimitExceeded
    | InvestorPoolFull
    | UsdcLocked
    | SellLeavesUnpayableDust
    | SellAmountTooSmall
    | InvestorNotInactive
    | ZeroAatAllocation
    | FundsLocked
    | AccountMissing
    | AccountInUse
    | TokenTransferFailed

  datatype Result<+T> = Ok(value: T) | Err(error: FloorError) {
    predicate IsFailure() {
      Err?
    }
    function PropagateFailure<U>(): Result<U>
      requires Err?
    {
      Err(error)
    }
    function Extract(): T
      requires Ok?
    {
      value
    }
  }

  /** The outcome of one `require!` or checked operation. */
  datatype Check = Pass | Fail(error: FloorError) {
    predicate IsFailure() {
      Fail?
    }
    function PropagateFailure<U>(): Result<U>
      requires Fail?
    {
      Err(error)
    }
  }

  function Need(condition: bool, error: FloorError): Check {
    if condition then Pass else Fail(error)
  }

  datatype InvestorRecord = InvestorRecord(
    investor: Pubkey,
    usdcDeposited: u64,
    usdcLocked: u64,
    usdcCommitted: nat,
    walnPurchased: nat,
    aatVolume: u64,
    usdcUnlockTs: i64)

  datatype InvestorAlloc = InvestorAlloc(investor: Pubkey, walnAmount: u64)

  datatype RoundLockedWaln = RoundLockedWaln(unlock: i64, remainingToClaim: nat, investors: seq<InvestorAlloc>)

  datatype RoundRecord = RoundRecord(
    triggeredAt: i64,
    walnPurchased: nat,
    usdcSpent: nat,
    totalAatVolumeAtTrigger: nat,
    participantCount: nat)

  /** USDC paid for `waln` at `price`, rounded down. */
  function UsdcValue(waln: nat, price: nat, scale: Scale): (usdc: nat) {
    waln * price / scale
  }

  // ---------- sums over records ----------

  function DepositOf(r: InvestorRecord): int { r.usdcDeposited }
  function LockOf(r: InvestorRecord): int { r.usdcLocked }
  function BalanceOf(r: InvestorRecord): int { r.usdcDeposited + r.usdcLocked }
  function VolumeOf(r: InvestorRecord): int { r.aatVolume }
  function LockedVolumeOf(r: InvestorRecord): int { if r.usdcLocked > 0 then r.aatVolume else 0 }

  function Column<T>(rows: seq<T>, f: T -> int): (c: seq<int>) {
    seq(|rows|, i requires 0 <= i < |rows| => f(rows[i]))
  }

  function Total<T>(rows: seq<T>, f: T -> int): int {
    Sum(Column(rows, f))
  }

  function Keys(pool: seq<InvestorRecord>): (keys: seq<Pubkey>) {
    seq(|pool|, i requires 0 <= i < |pool| => pool[i].investor)
  }

  ghost predicate Distinct(keys: seq<Pubkey>) {
    forall i, j :: 0 <= i < j < |keys| ==> keys[i] != keys[j]
  }

  /** First position of `key`, or the length when it does not occur. */
  function IndexOf(keys: seq<Pubkey>, key: Pubkey): (k: nat)
    ensures k <= |keys|
    ensures k < |keys| ==> keys[k] == key
    ensures forall i :: 0 <= i < k ==> keys[i] != key
  {
    if |keys| == 0 || keys[0] == key then 0 else 1 + IndexOf(keys[1..], key)
  }

  method FindInvestor(investors: array<InvestorRecord>, count: nat, key: Pubkey) returns (k: nat)
    requires count <= investors.Length
    ensures k == IndexOf(Keys(investors[..count]), key)
  {
    ghost var keys := Keys(investors[..count]);
    for i := 0 to count
      invariant forall j :: 0 <= j < i ==> keys[j] != key
    {
      if investors[i].investor == key {
        assert keys[i] == key;
        return i;
      }
    }
    return count;
  }

  /** With distinct keys the position of a key is its only position. */
  lemma IndexOfDistinct(keys: seq<Pubkey>, i: nat)
    requires i < |keys| && Distinct(keys)
    ensures IndexOf(keys, keys[i]) == i
  {
    var k := IndexOf(keys, keys[i]);
    assert k <= i && keys[k] == keys[i];
  }

  lemma ColumnAt<T>(rows: seq<T>, f: T -> int, i: nat)
    requires i < |rows|
    ensures Column(rows, f)[i] == f(rows[i])
  {
  }

  /** The lock columns of the pool, entry by entry. */
  lemma PoolColumns(pool: seq<InvestorRecord>)
    ensures forall i :: 0 <= i < |pool| ==> Column(pool, LockOf)[i] == pool[i].usdcLocked
    ensures forall i :: 0 <= i < |pool| ==> Column(pool, LockedVolumeOf)[i] == LockedVolumeOf(pool[i])
  {
    forall i | 0 <= i < |pool|
      ensures Column(pool, LockOf)[i] == pool[i].usdcLocked
      ensures Column(pool, LockedVolumeOf)[i] == LockedVolumeOf(pool[i])
    {
      ColumnAt(pool, LockOf, i);
      ColumnAt(pool, LockedVolumeOf, i);
    }
  }

  lemma TotalUpdate<T>(rows: seq<T>, k: nat, r: T, f: T -> int)
    requires k < |rows|
    ensures Total(rows[k := r], f) == Total(rows, f) - f(rows[k]) + f(r)
  {
    assert Column(rows[k := r], f) == Column(rows, f)[k := f(r)];
    SumToUpdate(Column(rows, f), k, f(r), |rows|);
  }

  lemma TotalAppend<T>(rows: seq<T>, r: T, f: T -> int)
    ensures Total(rows + [r], f) == Total(rows, f) + f(r)
  {
    assert Column(rows + [r], f) == Column(rows, f) + [f(r)];
    SumAppend(Column(rows, f), f(r));
  }

  /** The pool after the admin removed slot `k`: the last record moves into the hole. */
  function SwapRemove<T>(rows: seq<T>, k: nat): (rest: seq<T>)
    requires k < |rows|
  {
    rows[k := rows[|rows| - 1]][..|rows| - 1]
  }

  lemma TotalSwapRemove<T>(rows: seq<T>, k: nat, f: T -> int)
    requires k < |rows|
    ensures Total(SwapRemove(rows, k), f) == Total(rows, f) - f(rows[k])
  {
    var c := Column(rows, f);
    assert Column(SwapRemove(rows, k), f) == c[k := c[|c| - 1]][..|c| - 1];
    SumSwapRemove(c, k);
  }

  lemma TotalAgree<T>(p: seq<T>, q: seq<T>, f: T -> int, g: T -> int)
    requires |p| == |q|
    requires forall i :: 0 <= i < |p| ==> f(p[i]) == g(q[i])
    ensures Total(p, f) == Total(q, g)
  {
    SumToAgree(Column(p, f), Column(q, g), |p|);
  }

  lemma TotalAtMost<T>(p: seq<T>, q: seq<T>, f: T -> int, g: T -> int)
    requires |p| == |q|
    requires forall i :: 0 <= i < |p| ==> f(p[i]) <= g(q[i])
    ensures Total(p, f) <= Total(q, g)
  {
    SumToMonotone(Column(p, f), Column(q, g), |p|);
  }

  lemma TotalCoversEach<T>(rows: seq<T>, f: T -> int)
    requires forall i :: 0 <= i < |rows| ==> f(rows[i]) >= 0
    ensures Total(rows, f) >= 0
    ensures forall i :: 0 <= i < |rows| ==> f(rows[i]) <= Total(rows, f)
  {
    var c := Column(rows, f);
    SumToNonNegative(c, |rows|);
    assert forall i :: 0 <= i < |rows| ==> c[i] == f(rows[i]);
  }

  lemma {:induction false} TotalConcat<T>(p: seq<T>, q: seq<T>, f: T -> int)
    ensures Total(p + q, f) == Total(p, f) + Total(q, f)
    decreases |q|
  {
    if |q| == 0 {
      assert p + q == p;
    } else {
      var init, last := q[..|q| - 1], q[|q| - 1];
      assert q == init + [last];
      assert p + q == (p + init) + [last];
      TotalConcat(p, init, f);
      TotalAppend(p + init, last, f);
      TotalAppend(init, last, f);
    }
  }

  /** A sum over rows depends on which rows there are, not on their order. */
  lemma {:induction false} TotalPermuted<T>(p: seq<T>, q: seq<T>, f: T -> int)
    requires multiset(p) == multiset(q)
    ensures Total(p, f) == Total(q, f)
    decreases |p|
  {
    assert |p| == |multiset(p)| == |multiset(q)| == |q|;
    if |p| > 0 {
      var init, r := p[..|p| - 1], p[|p| - 1];
      assert p == init + [r];
      assert r in multiset(q);
      var k :| 0 <= k < |q| && q[k] == r;
      var front, back := q[..k], q[k + 1..];
      assert q == front + ([r] + back);
      MultisetWithout(init, r, front, back);
      TotalPermuted(init, front + back, f);
      TotalAppend(init, r, f);
      TotalConcat(front, back, f);
      TotalConcat(front, [r] + back, f);
      TotalConcat([r], back, f);
      TotalAppend([], r, f);
      assert [] + [r] == [r];
    }
  }

  lemma MultisetWithout<T>(init: seq<T>, r: T, front: seq<T>, back: seq<T>)
    requires multiset(init + [r]) == multiset(front + ([r] + back))
    ensures multiset(init) == multiset(front + back)
  {
    assert multiset(init) == multiset(init + [r]) - multiset{r};
    assert multiset(front + back) == multiset(front + ([r] + back)) - multiset{r};
  }

  lemma TotalBalance(pool: seq<InvestorRecord>)
    ensures Total(pool, BalanceOf) == Total(pool, DepositOf) + Total(pool, LockOf)
  {
    SumToAdd(Column(pool, DepositOf), Column(pool, LockOf), Column(pool, BalanceOf), |pool|);
  }
}
