/** What is on record after a round was settled: the round's own accounts, and the lifetime
    counters of the investors, which grow by what each paid and by what each can claim. */
module SettledRounds {
  import opened Arithmetic
  import opened Accounts
  import opened Gap
  import opened Settlement
  import opened Allotment
  import opened SettlementEffects
  import opened Market
  import opened Invariant
  import opened RoundInvariant
  import opened Claims

  // ---------- lifetime counters ----------

  /** The counters of record `i` grow by the USDC it paid and by its allocations. */
  ghost predicate Counted(before: InvestorRecord, after: InvestorRecord, paid: int, allocs: seq<InvestorAlloc>) {
    && after.usdcCommitted == before.usdcCommitted + paid
    && after.walnPurchased == before.walnPurchased + Total(allocs, WalnFor(before.investor))
  }

  lemma RewardedAt(pool: seq<InvestorRecord>, key: Pubkey, waln: nat, i: nat)
    requires Distinct(Keys(pool)) && i < |pool|
    ensures Reward(pool, key, waln)[i] ==
      pool[i].(walnPurchased := pool[i].walnPurchased + (if pool[i].investor == key then waln else 0))
  {
    var k := IndexOf(Keys(pool), key);
    if k < |pool| && i != k {
      assert Keys(pool)[i] != Keys(pool)[k];
    } else if k == |pool| {
      assert Keys(pool)[i] != key;
    }
  }

  lemma AllocatedTo(pool: seq<InvestorRecord>, allocs: seq<InvestorAlloc>, amounts: seq<int>, i: nat)
    requires |amounts| == |pool| && Distinct(Keys(pool)) && i < |pool| && Lists(allocs, pool, amounts)
    requires pool[i].usdcLocked == 0 ==> amounts[i] == 0
    ensures Total(allocs, WalnFor(pool[i].investor)) == amounts[i]
  {
    if pool[i].usdcLocked == 0 && Participates(pool, pool[i].investor) {
      var j :| 0 <= j < |pool| && pool[j].usdcLocked > 0 && pool[j].investor == pool[i].investor;
      assert Keys(pool)[i] == Keys(pool)[j];
    }
  }

  /** A full settlement counts the whole lock as paid, and as bought what it allocates. */
  lemma FullCounters(pool: seq<InvestorRecord>, price: u64, scale: Scale, dust: u64, now: i64, i: nat)
    requires price > 0 && Distinct(Keys(pool)) && Participants(pool) > 0 && i < |pool|
    requires SettleFull(pool, price, scale, dust, now).Ok?
    ensures var s := SettleFull(pool, price, scale, dust, now).value;
      |s.pool| == |pool| && Counted(pool[i], s.pool[i], pool[i].usdcLocked, s.summary.allocs)
  {
    var bases := BaseAmounts(pool, price, scale);
    BasesEach(pool, price, scale);
    FinishCounters(pool, bases, SpendLocks(pool, bases), price, scale, dust, now, i);
  }

  /** The end of a full settlement adds the dust to the same investor's record and entry. */
  lemma FinishPool(paid: seq<InvestorRecord>, totals: Summary, price: u64, scale: Scale, dust: u64, now: i64, i: nat)
    requires Finish(paid, totals, price, scale, dust, now).Ok? && |totals.allocs| > 0
    requires Distinct(Keys(paid)) && i < |paid|
    ensures var s := Finish(paid, totals, price, scale, dust, now).value;
      var winner := totals.allocs[DustRecipient(now, |totals.allocs|)].investor;
      |s.pool| == |paid| &&
      s.pool[i] == paid[i].(walnPurchased := paid[i].walnPurchased + (if paid[i].investor == winner then dust else 0))
  {
    RewardedAt(paid, totals.allocs[DustRecipient(now, |totals.allocs|)].investor, dust, i);
  }

  lemma FinishOwes(paid: seq<InvestorRecord>, totals: Summary, price: u64, scale: Scale, dust: u64, now: i64, key: Pubkey)
    requires Finish(paid, totals, price, scale, dust, now).Ok? && |totals.allocs| > 0 && OneEach(totals.allocs)
    ensures var s := Finish(paid, totals, price, scale, dust, now).value.summary;
      var winner := totals.allocs[DustRecipient(now, |totals.allocs|)].investor;
      Total(s.allocs, WalnFor(key)) == Total(totals.allocs, WalnFor(key)) + (if key == winner then dust else 0)
  {
    var k := DustRecipient(now, |totals.allocs|);
    FinishList(paid, totals, price, scale, dust, now);
    DustTotals(totals.allocs, k, dust);
    DustKeepsKeys(totals.allocs, k, dust);
    Stored(WithDust(totals.allocs, k, dust));
  }

  lemma FinishCounters(pool: seq<InvestorRecord>, bases: seq<int>, paid: seq<InvestorRecord>, price: u64, scale: Scale, dust: u64, now: i64, i: nat)
    requires |bases| == |pool| && Distinct(Keys(pool)) && Participants(pool) > 0 && i < |pool|
    requires PrefixFits(pool, bases, |pool|)
    requires paid == SpendLocks(pool, bases)
    requires forall j :: 0 <= j < |pool| && pool[j].usdcLocked == 0 ==> bases[j] == 0
    requires Finish(paid, PrefixTotals(pool, bases, |pool|), price, scale, dust, now).Ok?
    ensures var s := Finish(paid, PrefixTotals(pool, bases, |pool|), price, scale, dust, now).value;
      |s.pool| == |pool| && Counted(pool[i], s.pool[i], pool[i].usdcLocked, s.summary.allocs)
  {
    var totals := PrefixTotals(pool, bases, |pool|);
    AllocationsList(pool, bases);
    AllocatedTo(pool, totals.allocs, bases, i);
    assert Keys(paid) == Keys(pool);
    FinishPool(paid, totals, price, scale, dust, now, i);
    FinishOwes(paid, totals, price, scale, dust, now, pool[i].investor);
  }

  lemma DustKeepsKeys(shares: seq<InvestorAlloc>, k: nat, dust: u64)
    requires OneEach(shares) && k < |shares| && shares[k].walnAmount + dust <= U64_MAX
    ensures OneEach(WithDust(shares, k, dust))
  {
  }

  /** A forced settlement counts each one's share of the payouts, and the wALN allocated. */
  lemma ForcedCounters(pool: seq<InvestorRecord>, price: u64, scale: Scale, waln: u64, paid: u64, i: nat)
    requires price > 0 && Distinct(Keys(pool)) && i < |pool|
    requires SettleForced(pool, price, scale, waln, paid).Ok?
    ensures var s := SettleForced(pool, price, scale, waln, paid).value;
      |s.pool| == |pool| && Counted(pool[i], s.pool[i], UsdcShares(Column(pool, LockOf), paid)[i], s.summary.allocs)
  {
    ForcedPool(pool, price, scale, waln, paid);
    ForcedAllocations(pool, price, scale, waln, paid);
    WalnAmounts(pool, price, scale, waln);
    var shares := WalnShares(Column(pool, LockOf), BaseAmounts(pool, price, scale), waln);
    AllocatedTo(pool, SettleForced(pool, price, scale, waln, paid).value.summary.allocs, shares, i);
  }

  // ---------- the accounts of the round ----------

  /** The two accounts of round `r`: its record, and its claims when there are any. */
  ghost predicate OnRecord(m: State, n: State, s: Summary, now: i64) {
    var unlock := now + m.curLockPeriod;
    && n.records == m.records[m.roundCount := RoundRecord(now, s.walnPurchased, s.usdcSpent, s.aatVolume, s.participants)]
    && (|s.allocs| > 0 ==> InI64(unlock) && n.rounds == m.rounds[m.roundCount := RoundLockedWaln(unlock, |s.allocs|, s.allocs)])
  }

  lemma FullOnRecord(sold: State, now: i64) returns (s: Settled)
    requires SettleRound(sold, now).Ok?
    ensures sold.curPrice > 0 && SettleFull(sold.pool, sold.curPrice, sold.scale, sold.carryover, now) == Ok(s)
    ensures SettleRound(sold, now).value.pool == s.pool && OnRecord(sold, SettleRound(sold, now).value, s.summary, now)
  {
    s := SettleFull(sold.pool, sold.curPrice, sold.scale, sold.carryover, now).value;
  }

  lemma ForcedOnRecord(m: State, now: i64) returns (s: Settled)
    requires CloseRound(m, now).Ok?
    ensures m.curPrice > 0 && SettleForced(m.pool, m.curPrice, m.scale, m.curWaln, m.curSpent) == Ok(s)
    ensures CloseRound(m, now).value.pool == s.pool && OnRecord(m, CloseRound(m, now).value, s.summary, now)
  {
    s := SettleForced(m.pool, m.curPrice, m.scale, m.curWaln, m.curSpent).value;
  }

  /** `n` is `m` with its round ended: the pool paid or refunded, the round's two accounts
      added, the round counters reset, the spent USDC taken off the lobby, and nothing else. */
  ghost predicate RoundEnded(m: State, n: State, spent: int) {
    && n.lobby == m.lobby - spent && CountersReset(m, n) && AccountsAdded(m, n)
  }

  ghost predicate CountersReset(m: State, n: State) {
    && m.roundCount < U64_MAX
    && n == m.(
      pool := n.pool, rounds := n.rounds, records := n.records, carryover := n.carryover, totalLocked := n.totalLocked,
      roundStarted := false, roundCount := m.roundCount + 1, curWaln := 0, curSpent := 0, lobby := n.lobby)
  }

  ghost predicate AccountsAdded(m: State, n: State) {
    && n.records.Keys == m.records.Keys + {m.roundCount} && n.rounds.Keys == m.rounds.Keys + {m.roundCount}
    && (forall r :: r != m.roundCount && r in m.records ==> n.records[r] == m.records[r])
    && (forall r :: r != m.roundCount && r in m.rounds ==> n.rounds[r] == m.rounds[r])
  }

  lemma RecordAdds(m: State, n: State, s: Summary, now: i64)
    requires OnRecord(m, n, s, now) && |s.allocs| > 0
    ensures AccountsAdded(m, n)
  {
  }

  lemma FullEnds(sold: State, now: i64)
    requires Filled(sold) && SettleRound(sold, now).Ok?
    ensures RoundEnded(sold, SettleRound(sold, now).value, sold.totalLocked)
    ensures SettleRound(sold, now).value.totalLocked == sold.totalLocked
  {
    var s := FullOnRecord(sold, now);
    FullSummary(sold.pool, sold.curSize, sold.curPrice, sold.scale, sold.carryover, now);
    RecordAdds(sold, SettleRound(sold, now).value, s.summary, now);
    FullResets(sold, now, s);
  }

  lemma FullResets(sold: State, now: i64, s: Settled)
    requires sold.curPrice > 0 && SettleFull(sold.pool, sold.curPrice, sold.scale, sold.carryover, now) == Ok(s)
    requires SettleRound(sold, now).Ok?
    ensures var n := SettleRound(sold, now).value;
      CountersReset(sold, n) && n.lobby == sold.lobby - s.summary.usdcSpent && n.totalLocked == sold.totalLocked
  {
  }

  lemma ForcedEnds(m: State, now: i64)
    requires Inv(m) && CloseRound(m, now).Ok?
    ensures RoundEnded(m, CloseRound(m, now).value, m.curSpent)
    ensures CloseRound(m, now).value.totalLocked == 0 && CloseRound(m, now).value.carryover == m.carryover
  {
    var s := ForcedOnRecord(m, now);
    ForcedFacts(m);
    ForcedResets(m, now, s);
    SomeEntry(s.summary.allocs);
    RecordAdds(m, CloseRound(m, now).value, s.summary, now);
  }

  lemma ForcedResets(m: State, now: i64, s: Settled)
    requires m.curPrice > 0 && SettleForced(m.pool, m.curPrice, m.scale, m.curWaln, m.curSpent) == Ok(s)
    requires CloseRound(m, now).Ok?
    ensures m.curWaln > 0
    ensures var n := CloseRound(m, now).value;
      CountersReset(m, n) && n.lobby == m.lobby - s.summary.usdcSpent && n.totalLocked == 0 &&
      n.carryover == m.carryover + (m.curWaln - s.summary.walnPurchased)
  {
  }

  /** A list that sums to something has an entry. */
  lemma SomeEntry(allocs: seq<InvestorAlloc>)
    requires Total(allocs, WalnOf) > 0
    ensures |allocs| > 0
  {
  }

  lemma FullSummary(pool: seq<InvestorRecord>, size: u64, price: u64, scale: Scale, dust: u64, now: i64)
    requires Opened(pool, size, price, scale) && SettleFull(pool, price, scale, dust, now).Ok?
    ensures var s := SettleFull(pool, price, scale, dust, now).value.summary;
      && |s.allocs| > 0 && s.walnPurchased == Sum(BaseAmounts(pool, price, scale)) + dust
      && s.usdcSpent == Total(pool, LockOf) && s.aatVolume == Total(pool, LockedVolumeOf) && s.participants == Participants(pool)
  {
    FullPool(pool, price, scale, dust, now);
    var w := FullAllocations(pool, price, scale, dust, now);
    SomethingListed(pool, size, price, scale, dust, w, SettleFull(pool, price, scale, dust, now).value.summary.allocs);
  }

  lemma SomethingListed(pool: seq<InvestorRecord>, size: u64, price: u64, scale: Scale, dust: u64, w: nat, allocs: seq<InvestorAlloc>)
    requires Opened(pool, size, price, scale) && w < |pool|
    requires var bases := BaseAmounts(pool, price, scale); Lists(allocs, pool, bases[w := bases[w] + dust])
    ensures |allocs| > 0
  {
    var bases := BaseAmounts(pool, price, scale);
    BasesWithinSize(pool, size, price, scale);
    SumToUpdate(bases, w, bases[w] + dust, |pool|);
    SomeEntry(allocs);
  }

  /** After a full settlement the record shows what the round bought, paid and was based on,
      and claims open after the lock period. */
  lemma FullRecorded(sold: State, now: i64, n: State)
    requires Filled(sold) && SettleRound(sold, now) == Ok(n)
    ensures sold.curPrice > 0 && sold.roundCount in n.records && sold.roundCount in n.rounds
    ensures n.records[sold.roundCount] == RoundRecord(
      now, Sum(BaseAmounts(sold.pool, sold.curPrice, sold.scale)) + sold.carryover, sold.totalLocked,
      Total(sold.pool, LockedVolumeOf), Participants(sold.pool))
    ensures n.rounds[sold.roundCount].unlock == now + sold.curLockPeriod
  {
    var s := FullOnRecord(sold, now);
    FullSummary(sold.pool, sold.curSize, sold.curPrice, sold.scale, sold.carryover, now);
  }

  /** It leaves the deposits, and each investor's counters grew by the lock and by what the
      investor can now claim. */
  lemma FullCounted(sold: State, now: i64, n: State, i: nat)
    requires Filled(sold) && SettleRound(sold, now) == Ok(n) && i < |sold.pool|
    ensures |n.pool| == |sold.pool| && n.pool[i].usdcDeposited == sold.pool[i].usdcDeposited
    ensures n.pool[i].usdcCommitted == sold.pool[i].usdcCommitted + sold.pool[i].usdcLocked
    ensures n.pool[i].walnPurchased == sold.pool[i].walnPurchased + Owed(n, sold.roundCount, sold.pool[i].investor)
  {
    var s := FullOnRecord(sold, now);
    FullSummary(sold.pool, sold.curSize, sold.curPrice, sold.scale, sold.carryover, now);
    FullPool(sold.pool, sold.curPrice, sold.scale, sold.carryover, now);
    FullCounters(sold.pool, sold.curPrice, sold.scale, sold.carryover, now, i);
    assert n.rounds[sold.roundCount].investors == s.summary.allocs;
  }

  /** After a forced close the record shows exactly the wALN sold and the USDC paid; each
      investor can claim the own wALN share, and of the lock got back what the own share of
      the payouts left of it, the counters growing by the two shares. */
  lemma ForcedRecorded(m: State, now: i64, n: State)
    requires Inv(m) && CloseRound(m, now) == Ok(n)
    ensures m.curPrice > 0 && Sum(BaseAmounts(m.pool, m.curPrice, m.scale)) > 0
    ensures m.roundCount in n.records && m.roundCount in n.rounds && n.rounds[m.roundCount].unlock == now + m.curLockPeriod
    ensures n.records[m.roundCount] == RoundRecord(
      now, m.curWaln, m.curSpent, Total(m.pool, LockedVolumeOf), n.rounds[m.roundCount].remainingToClaim)
    ensures var locks := Column(m.pool, LockOf);
      var usdc, waln := UsdcShares(locks, m.curSpent), WalnShares(locks, BaseAmounts(m.pool, m.curPrice, m.scale), m.curWaln);
      |n.pool| == |m.pool| && forall i :: 0 <= i < |n.pool| ==>
        && n.pool[i].usdcDeposited == m.pool[i].usdcDeposited + m.pool[i].usdcLocked - usdc[i]
        && n.pool[i].usdcCommitted == m.pool[i].usdcCommitted + usdc[i]
        && n.pool[i].walnPurchased == m.pool[i].walnPurchased + waln[i]
        && Owed(n, m.roundCount, m.pool[i].investor) == waln[i]
  {
    var s := ForcedOnRecord(m, now);
    ForcedPool(m.pool, m.curPrice, m.scale, m.curWaln, m.curSpent);
    ForcedAllocations(m.pool, m.curPrice, m.scale, m.curWaln, m.curSpent);
    WalnAmounts(m.pool, m.curPrice, m.scale, m.curWaln);
    SomeEntry(s.summary.allocs);
    var waln := WalnShares(Column(m.pool, LockOf), BaseAmounts(m.pool, m.curPrice, m.scale), m.curWaln);
    forall i | 0 <= i < |n.pool|
      ensures Counted(m.pool[i], n.pool[i], UsdcShares(Column(m.pool, LockOf), m.curSpent)[i], n.rounds[m.roundCount].investors)
      ensures Total(n.rounds[m.roundCount].investors, WalnFor(m.pool[i].investor)) == waln[i]
    {
      ForcedCounters(m.pool, m.curPrice, m.scale, m.curWaln, m.curSpent, i);
      AllocatedTo(m.pool, s.summary.allocs, waln, i);
    }
  }
}
