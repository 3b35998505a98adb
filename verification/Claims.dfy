/** Claims: an allocation is found exactly when it exists, is paid once, and the round
    account disappears with its last claim. */
module Claims {
  import opened Arithmetic
  import opened Accounts
  import opened Settlement
  import opened Allotment
  import opened Market
  import opened Invariant

  /** What the program still owes `investor` for `round`. */
  ghost function Owed(m: State, round: nat, investor: Pubkey): int {
    if round in m.rounds then Total(m.rounds[round].investors, WalnFor(investor)) else 0
  }

  // ---------- lookup ----------

  lemma {:induction false} AbsentTotal(allocs: seq<InvestorAlloc>, key: Pubkey)
    requires !HasKey(allocs, key)
    ensures Total(allocs, WalnFor(key)) == 0
  {
    forall i | 0 <= i < |allocs|
      ensures Column(allocs, WalnFor(key))[i] == 0
    {
      ColumnAt(allocs, WalnFor(key), i);
    }
    SumToZero(Column(allocs, WalnFor(key)), |allocs|);
  }

  /** In a strictly ascending list the entry found for a key holds all that the key is owed,
      and a key that is not found is owed nothing. */
  lemma EntryAmount(allocs: seq<InvestorAlloc>, key: Pubkey)
    requires Ascending(allocs)
    ensures var k := IndexOf(AllocKeys(allocs), key);
      Total(allocs, WalnFor(key)) == if k < |allocs| then allocs[k].walnAmount else 0
  {
    var k := IndexOf(AllocKeys(allocs), key);
    if k < |allocs| {
      assert AllocKeys(allocs)[k] == key;
      var rest := allocs[k := allocs[k].(walnAmount := 0)];
      TotalUpdate(allocs, k, rest[k], WalnFor(key));
      forall i | 0 <= i < |rest|
        ensures Column(rest, WalnFor(key))[i] == 0
      {
        ColumnAt(rest, WalnFor(key), i);
      }
      SumToZero(Column(rest, WalnFor(key)), |rest|);
    } else {
      forall i | 0 <= i < |allocs|
        ensures allocs[i].investor != key
      {
        assert AllocKeys(allocs)[i] != key;
      }
      AbsentTotal(allocs, key);
    }
  }

  /** The binary search a claim runs on the stored, sorted list. */
  method BinarySearch(allocs: seq<InvestorAlloc>, key: Pubkey) returns (k: nat)
    requires Ascending(allocs)
    ensures k == IndexOf(AllocKeys(allocs), key)
    ensures k < |allocs| <==> HasKey(allocs, key)
  {
    var low, high := 0, |allocs|;
    while low < high
      invariant 0 <= low <= high <= |allocs|
      invariant forall i :: 0 <= i < low ==> allocs[i].investor < key
      invariant forall i :: high <= i < |allocs| ==> key < allocs[i].investor
    {
      var middle := (low + high) / 2;
      if allocs[middle].investor < key {
        low := middle + 1;
      } else if key < allocs[middle].investor {
        high := middle;
      } else {
        assert AllocKeys(allocs)[middle] == key;
        IndexOfFound(AllocKeys(allocs), key, middle);
        return middle;
      }
    }
    assert forall i :: 0 <= i < |allocs| ==> AllocKeys(allocs)[i] != key;
    return |allocs|;
  }

  lemma IndexOfFound(keys: seq<Pubkey>, key: Pubkey, k: nat)
    requires k < |keys| && keys[k] == key
    requires forall i, j :: 0 <= i < j < |keys| ==> keys[i] < keys[j]
    ensures IndexOf(keys, key) == k
  {
    assert keys[IndexOf(keys, key)] == key;
  }

  // ---------- one claim ----------

  lemma NothingUnpaid(allocs: seq<InvestorAlloc>)
    requires Total(allocs, UnpaidOf) == 0
    ensures Total(allocs, WalnOf) == 0 && forall key :: Total(allocs, WalnFor(key)) == 0
  {
    TotalCoversEach(allocs, UnpaidOf);
    forall i | 0 <= i < |allocs|
      ensures allocs[i].walnAmount == 0 == Column(allocs, WalnOf)[i]
    {
      assert UnpaidOf(allocs[i]) <= 0;
      ColumnAt(allocs, WalnOf, i);
    }
    SumToZero(Column(allocs, WalnOf), |allocs|);
    forall key
      ensures Total(allocs, WalnFor(key)) == 0
    {
      forall i | 0 <= i < |allocs|
        ensures Column(allocs, WalnFor(key))[i] == 0
      {
        ColumnAt(allocs, WalnFor(key), i);
      }
      SumToZero(Column(allocs, WalnFor(key)), |allocs|);
    }
  }

  lemma ReducedTotals(account: RoundLockedWaln, k: nat)
    requires Ascending(account.investors) && account.remainingToClaim == Total(account.investors, UnpaidOf) > 0
    requires k < |account.investors| && account.investors[k].walnAmount > 0
    ensures var after := Reduced(account, k);
      && Ascending(after.investors) && after.remainingToClaim == Total(after.investors, UnpaidOf)
      && UnclaimedIn(after) == UnclaimedIn(account) - account.investors[k].walnAmount
    ensures var claimant := account.investors[k].investor;
      forall key :: Total(Reduced(account, k).investors, WalnFor(key)) == (if key == claimant then 0 else Total(account.investors, WalnFor(key)))
  {
    var after := Reduced(account, k);
    var entry := after.investors[k];
    TotalUpdate(account.investors, k, entry, UnpaidOf);
    TotalUpdate(account.investors, k, entry, WalnOf);
    EntryAt(account.investors, k);
    forall key
      ensures Total(after.investors, WalnFor(key)) ==
        (if key == account.investors[k].investor then 0 else Total(account.investors, WalnFor(key)))
    {
      TotalUpdate(account.investors, k, entry, WalnFor(key));
    }
  }

  lemma EntryAt(allocs: seq<InvestorAlloc>, k: nat)
    requires Ascending(allocs) && k < |allocs|
    ensures IndexOf(AllocKeys(allocs), allocs[k].investor) == k
    ensures Total(allocs, WalnFor(allocs[k].investor)) == allocs[k].walnAmount
  {
    IndexOfFound(AllocKeys(allocs), allocs[k].investor, k);
    EntryAmount(allocs, allocs[k].investor);
  }

  lemma PaidRounds(rounds: map<nat, RoundLockedWaln>, round: nat, k: nat)
    requires round in rounds && AccountOk(rounds[round])
    requires k < |rounds[round].investors| && rounds[round].investors[k].walnAmount > 0
    ensures var after := Paid(rounds, round, k);
      && MapSum(after, UnclaimedIn) == MapSum(rounds, UnclaimedIn) - rounds[round].investors[k].walnAmount
      && (forall r :: r != round ==> (r in after <==> r in rounds))
      && (forall r :: r != round && r in rounds ==> after[r] == rounds[r])
      && (round in after <==> rounds[round].remainingToClaim > 1)
      && (round in after ==> after[round] == Reduced(rounds[round], k) && AccountOk(after[round]))
  {
    var account := rounds[round];
    ReducedTotals(account, k);
    if account.remainingToClaim == 1 {
      assert Paid(rounds, round, k) == rounds - {round};
      MapSumRemove(rounds, round, UnclaimedIn);
      NothingUnpaid(Reduced(account, k).investors);
    } else {
      MapSumUpdate(rounds, round, Reduced(account, k), UnclaimedIn);
    }
  }

  /** A claim taken apart: the entry it pays and the accounts it leaves. */
  lemma ClaimIs(m: State, investor: Pubkey, round: u64, now: i64) returns (k: nat, n: State)
    requires Claim(m, investor, round, now).Ok?
    ensures n == Claim(m, investor, round, now).value
    ensures round in m.rounds && k < |m.rounds[round].investors| && m.rounds[round].investors[k].investor == investor
    ensures 0 < m.rounds[round].investors[k].walnAmount <= m.walnVault && m.rounds[round].remainingToClaim > 0
    ensures n == m.(rounds := Paid(m.rounds, round, k), walnVault := m.walnVault - m.rounds[round].investors[k].walnAmount)
  {
    k := IndexOf(AllocKeys(m.rounds[round].investors), investor);
    assert AllocKeys(m.rounds[round].investors)[k] == investor;
    n := Claim(m, investor, round, now).value;
  }

  lemma OwedAfterPaid(rounds: map<nat, RoundLockedWaln>, round: nat, k: nat, m: State, n: State)
    requires round in rounds && AccountOk(rounds[round])
    requires k < |rounds[round].investors| && rounds[round].investors[k].walnAmount > 0
    requires m.rounds == rounds && n.rounds == Paid(rounds, round, k)
    ensures Owed(m, round, rounds[round].investors[k].investor) == rounds[round].investors[k].walnAmount
    ensures var claimant := rounds[round].investors[k].investor;
      forall r, key :: Owed(n, r, key) == (if r == round && key == claimant then 0 else Owed(m, r, key))
  {
    PaidRounds(rounds, round, k);
    ReducedTotals(rounds[round], k);
    EntryAt(rounds[round].investors, k);
    if rounds[round].remainingToClaim == 1 {
      NothingUnpaid(Reduced(rounds[round], k).investors);
    }
  }

  /** A successful claim pays exactly what was owed and leaves nothing owed, to the
      claimant; everyone else is owed what they were. The last claim closes the account. */
  lemma ClaimPays(m: State, investor: Pubkey, round: u64, now: i64)
    requires ClaimsOk(m) && Claim(m, investor, round, now).Ok?
    ensures var n := Claim(m, investor, round, now).value;
      && 0 < Owed(m, round, investor) == m.walnVault - n.walnVault
      && (forall r, key :: Owed(n, r, key) == (if r == round && key == investor then 0 else Owed(m, r, key)))
      && (round in n.rounds <==> m.rounds[round].remainingToClaim > 1)
  {
    var k, n := ClaimIs(m, investor, round, now);
    OwedAfterPaid(m.rounds, round, k, m, n);
    PaidRounds(m.rounds, round, k);
  }

  /** A claim zeroes the claimant's entry and counts it, or removes the account with the last
      unpaid entry; its unlock time, every other entry, every other round and every other
      account stay. */
  lemma ClaimEffect(m: State, investor: Pubkey, round: u64, now: i64) returns (k: nat)
    requires ClaimsOk(m) && Claim(m, investor, round, now).Ok?
    ensures round in m.rounds && k < |m.rounds[round].investors| && m.rounds[round].investors[k].investor == investor
    ensures var n, before := Claim(m, investor, round, now).value, m.rounds[round];
      && n == m.(rounds := n.rounds, walnVault := m.walnVault - before.investors[k].walnAmount)
      && (forall r :: r != round ==> (r in n.rounds <==> r in m.rounds))
      && (forall r :: r != round && r in m.rounds ==> n.rounds[r] == m.rounds[r])
      && (round in n.rounds <==> before.remainingToClaim > 1)
      && (round in n.rounds ==>
        && n.rounds[round].unlock == before.unlock && n.rounds[round].remainingToClaim == before.remainingToClaim - 1
        && n.rounds[round].investors == before.investors[k := InvestorAlloc(investor, 0)])
  {
    var n;
    k, n := ClaimIs(m, investor, round, now);
    PaidRounds(m.rounds, round, k);
  }

  lemma ClaimKeeps(m: State, investor: Pubkey, round: u64, now: i64) returns (n: State)
    requires Inv(m) && Claim(m, investor, round, now).Ok?
    ensures n == Claim(m, investor, round, now).value
    ensures Inv(n) && WalnExcess(n) == WalnExcess(m)
  {
    var k;
    k, n := ClaimIs(m, investor, round, now);
    PaidRounds(m.rounds, round, k);
    RoundUnaffected(m, n);
    assert PoolOk(n) && LobbyOk(n) && ClaimsOk(n);
  }

  lemma VaultCoversEntry(m: State, round: nat, k: nat)
    requires WalnExcess(m) >= 0 && round in m.rounds && k < |m.rounds[round].investors|
    ensures m.rounds[round].investors[k].walnAmount <= m.walnVault
  {
    TotalCoversEach(m.rounds[round].investors, WalnOf);
    assert WalnOf(m.rounds[round].investors[k]) <= UnclaimedIn(m.rounds[round]);
    MapSumRemove(m.rounds, round, UnclaimedIn);
    UnclaimedNonNegative(m.rounds - {round});
  }

  /** A claim succeeds exactly when the market is not frozen, something is owed, and the lock
      period is over. */
  lemma ClaimSucceeds(m: State, investor: Pubkey, round: u64, now: i64)
    requires Inv(m)
    ensures Claim(m, investor, round, now).Ok? <==>
      !m.frozen && Owed(m, round, investor) > 0 && now >= m.rounds[round].unlock
  {
    if round in m.rounds {
      var account := m.rounds[round];
      EntryAmount(account.investors, investor);
      var k := IndexOf(AllocKeys(account.investors), investor);
      if k < |account.investors| {
        VaultCoversEntry(m, round, k);
      }
    }
  }

  /** A round account exists exactly as long as somebody is owed something from it. */
  lemma AccountOpenIffOwed(m: State, round: nat)
    requires ClaimsOk(m)
    ensures round in m.rounds <==> exists investor :: Owed(m, round, investor) > 0
  {
    if round in m.rounds {
      var allocs := m.rounds[round].investors;
      if forall i :: 0 <= i < |allocs| ==> allocs[i].walnAmount == 0 {
        SumToZero(Column(allocs, UnpaidOf), |allocs|);
      }
      var i :| 0 <= i < |allocs| && allocs[i].walnAmount > 0;
      EntryAt(allocs, i);
      assert Owed(m, round, allocs[i].investor) > 0;
    }
  }
}
