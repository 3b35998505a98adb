/** Rounds keep the invariant: starts, sales, both settlements, cancellation and claims. */
module RoundInvariant {
  import opened Arithmetic
  import opened Accounts
  import opened StartRound
  import opened Gap
  import opened Settlement
  import opened SettlementEffects
  import opened Market
  import opened Invariant

  // ---------- starting ----------

  lemma SameKeys(p: seq<InvestorRecord>, q: seq<InvestorRecord>)
    requires |p| == |q| && forall i :: 0 <= i < |p| ==> p[i].investor == q[i].investor
    ensures Keys(p) == Keys(q)
  {
  }

  /** The pool of a start: the same investors, with part of each balance locked. */
  ghost predicate Restarted(before: seq<InvestorRecord>, s: Started) {
    && |s.pool| == |before|
    && (forall i :: 0 <= i < |before| ==>
      && s.pool[i].investor == before[i].investor && s.pool[i].aatVolume == before[i].aatVolume
      && BalanceOf(s.pool[i]) == BalanceOf(before[i]))
    && Total(s.pool, LockOf) == s.locked && Total(s.pool, LockedVolumeOf) == s.volume
  }

  lemma StartRestarts(pool: seq<InvestorRecord>, size: u64, price: u64, scale: Scale)
    requires Unlocked(pool) && RoundStart(pool, size, price, scale).Ok?
    ensures Restarted(pool, RoundStart(pool, size, price, scale).value)
  {
    StartConserves(pool, size, price, scale);
  }

  lemma BegunKeeps(m: State, s: Started)
    requires Inv(m) && !m.roundStarted && Restarted(m.pool, s)
    requires 1 <= Participants(s.pool) <= |m.pool|
    requires GapSmall(UsdcValue(m.roundSize, m.floorPrice, m.scale), s.locked, Participants(s.pool))
    ensures Inv(Begun(m, s))
  {
    var n := Begun(m, s);
    SameKeys(m.pool, s.pool);
    TotalAgree(m.pool, s.pool, BalanceOf, BalanceOf);
    assert PoolOk(n) && AatOk(n) && LobbyOk(n) && ConfigOk(n);
    assert LocksOk(n) && SalesOk(n);
    assert CapacityOk(n) && ClaimsOk(n);
  }

  lemma BeginKeeps(m: State)
    requires Inv(m) && !m.roundStarted && BeginRound(m).Ok?
    ensures var n := BeginRound(m).value;
      && Inv(n) && n.roundStarted && n.curWaln == 0 && Restarted(m.pool, RoundStart(m.pool, m.roundSize, m.floorPrice, m.scale).value)
      && n == Begun(m, RoundStart(m.pool, m.roundSize, m.floorPrice, m.scale).value)
  {
    StartRestarts(m.pool, m.roundSize, m.floorPrice, m.scale);
    StartGap(m.pool, m.roundSize, m.floorPrice, m.scale);
    BegunKeeps(m, RoundStart(m.pool, m.roundSize, m.floorPrice, m.scale).value);
  }

  /** Between rounds a start succeeds or reports that nobody is eligible. */
  lemma BeginNeverOverflows(m: State)
    requires Inv(m)
    ensures BeginRound(m).Ok? || BeginRound(m) == Err(NoEligibleInvestors)
  {
    PoolIsSound(m);
    RoundStartNeverOverflows(m.pool, m.roundSize, m.floorPrice, m.scale);
  }

  // ---------- selling ----------

  /** A sale the guards let through. */
  predicate Admitted(m: State, amount: nat) {
    var remaining := m.curSize - m.curWaln;
    && 0 < amount <= remaining
    && (amount == remaining || UsdcValue(remaining - amount, m.curPrice, m.scale) > 0)
    && (m.curWaln > 0 || amount >= MIN_SELL_WALN || amount == remaining)
  }

  lemma ValueSuperadditive(sold: nat, amount: nat, price: nat, scale: Scale)
    ensures UsdcValue(sold, price, scale) + UsdcValue(amount, price, scale) <= UsdcValue(sold + amount, price, scale)
  {
    FloorSuperadditive(sold * price, amount * price, scale);
    Distribute(price, sold, amount);
  }

  lemma SaleKeeps(m: State, amount: u64)
    requires Inv(m) && m.roundStarted && Admitted(m, amount) && TakeSale(m, amount).Ok?
    ensures var n := TakeSale(m, amount).value;
      && n.curWaln == m.curWaln + amount <= n.curSize && LocksOk(n) && SalesOk(n)
      && (n.curWaln < n.curSize ==> CapacityOk(n)) && WalnExcess(n) == WalnExcess(m)
  {
    ValueSuperadditive(m.curWaln, amount, m.curPrice, m.scale);
  }

  // ---------- settling ----------

  /** The state right after the last sale of a round. */
  ghost predicate Filled(m: State) {
    Core(m) && m.roundStarted && LocksOk(m) && SalesOk(m) && m.curWaln == m.curSize
  }

  /** What both settlements do to the pool and allocate. */
  ghost predicate Settles(m: State, s: Settled) {
    && SameButPaid(m.pool, s.pool) && WellStored(s.summary.allocs)
    && Total(s.pool, BalanceOf) == Total(m.pool, BalanceOf) - s.summary.usdcSpent
    && Total(s.summary.allocs, WalnOf) == s.summary.walnPurchased
  }

  lemma UnlockedTotals(pool: seq<InvestorRecord>)
    requires Unlocked(pool)
    ensures Total(pool, LockOf) == 0 && Total(pool, BalanceOf) == Total(pool, DepositOf)
  {
    PoolColumns(pool);
    SumToZero(Column(pool, LockOf), |pool|);
    TotalBalance(pool);
  }

  /** The account a settlement stores extends the round accounts by what it allocates. */
  lemma AccountStored(m: State, s: Summary, unlock: i64, now: i64)
    requires ClaimsOk(m) && m.roundCount < U64_MAX && WellStored(s.allocs)
    ensures var rounds := Record(m, s, unlock, now).rounds;
      && (forall r :: r in rounds ==> r < m.roundCount + 1 && AccountOk(rounds[r]))
      && MapSum(rounds, UnclaimedIn) == MapSum(m.rounds, UnclaimedIn) + Total(s.allocs, WalnOf)
  {
    if |s.allocs| > 0 {
      var account := RoundLockedWaln(unlock, |s.allocs|, s.allocs);
      assert Record(m, s, unlock, now).rounds == m.rounds[m.roundCount := account] && AccountOk(account);
      MapSumUpdate(m.rounds, m.roundCount, account, UnclaimedIn);
    }
  }

  /** `n` is `m` with its round closed on the settled pool, field by field. */
  ghost predicate Concluded(m: State, s: Settled, n: State) {
    && m.roundCount < U64_MAX && n.roundCount == m.roundCount + 1
    && n.pool == s.pool && n.nfts == m.nfts && n.totalAat == m.totalAat
    && n.scale == m.scale && n.floorPrice == m.floorPrice && n.roundSize == m.roundSize && n.curPrice == m.curPrice
    && !n.roundStarted && n.curWaln == 0 && n.curSpent == 0 && n.totalLocked == 0
    && n.lobby == m.lobby - s.summary.usdcSpent
    && n.carryover == m.curWaln + m.carryover - s.summary.walnPurchased
    && n.walnVault == m.walnVault && n.usdcVault == m.usdcVault
    && exists unlock: i64, now: i64 :: n.rounds == Record(m, s.summary, unlock, now).rounds
  }

  /** Closing a round on a settled pool leaves an idle market. */
  lemma ConcludedKeeps(m: State, s: Settled, n: State)
    requires Core(m) && Settles(m, s) && Concluded(m, s, n)
    ensures Inv(n) && WalnExcess(n) == WalnExcess(m)
  {
    var unlock: i64, now: i64 :| n.rounds == Record(m, s.summary, unlock, now).rounds;
    AccountStored(m, s.summary, unlock, now);
    SameKeys(m.pool, s.pool);
    UnlockedTotals(s.pool);
    assert PoolOk(n) && LobbyOk(n) && ClaimsOk(n);
  }

  lemma FinalizeConcludes(m: State, s: Settled, unlock: i64, now: i64, carryover: int)
    requires Finalize(m.(pool := s.pool), s.summary, unlock, now, carryover).Ok?
    requires carryover == m.curWaln + m.carryover - s.summary.walnPurchased
    ensures Concluded(m, s, NothingLocked(Finalize(m.(pool := s.pool), s.summary, unlock, now, carryover).value))
  {
    assert Finalize(m.(pool := s.pool), s.summary, unlock, now, carryover).value.rounds == Record(m, s.summary, unlock, now).rounds;
  }

  /** The facts about a full settlement that closing the round needs. */
  ghost predicate FullOutcome(m: State, s: Settled) {
    && m.curPrice > 0 && Settles(m, s)
    && s.summary.usdcSpent == Total(m.pool, LockOf)
    && s.summary.walnPurchased == Sum(BaseAmounts(m.pool, m.curPrice, m.scale)) + m.carryover
  }

  lemma FullFacts(m: State, now: i64)
    requires m.curPrice > 0 && Distinct(Keys(m.pool)) && Participants(m.pool) > 0
    requires SettleFull(m.pool, m.curPrice, m.scale, m.carryover, now).Ok?
    ensures FullOutcome(m, SettleFull(m.pool, m.curPrice, m.scale, m.carryover, now).value)
  {
    FullPool(m.pool, m.curPrice, m.scale, m.carryover, now);
    var w := FullAllocations(m.pool, m.curPrice, m.scale, m.carryover, now);
    FullOutcomeFrom(m, SettleFull(m.pool, m.curPrice, m.scale, m.carryover, now).value, now, w);
  }

  lemma FullOutcomeFrom(m: State, s: Settled, now: i64, w: nat)
    requires m.curPrice > 0 && SameButPaid(m.pool, s.pool)
    requires forall i :: 0 <= i < |m.pool| ==> s.pool[i].usdcDeposited == m.pool[i].usdcDeposited
    requires s.summary.usdcSpent == Total(m.pool, LockOf)
    requires DustedList(s.summary, m.pool, BaseAmounts(m.pool, m.curPrice, m.scale), m.carryover, now, w)
    ensures FullOutcome(m, s)
  {
    var bases := BaseAmounts(m.pool, m.curPrice, m.scale);
    FullBalance(m.pool, s.pool);
    SumToUpdate(bases, w, bases[w] + m.carryover, |m.pool|);
  }

  /** A full settlement taken apart. */
  lemma SettleRoundIs(m: State, now: i64) returns (s: Settled, n: State)
    requires SettleRound(m, now).Ok?
    ensures n == NothingLocked(SettleRound(m, now).value) && Concluded(m, s, n)
    ensures m.curPrice > 0 && SettleFull(m.pool, m.curPrice, m.scale, m.carryover, now) == Ok(s)
  {
    var unlock, carryover;
    s, unlock, carryover := SettleRoundFinalizes(m, now);
    FinalizeConcludes(m, s, unlock, now, carryover);
    n := NothingLocked(Finalize(m.(pool := s.pool), s.summary, unlock, now, carryover).value);
  }

  lemma SettleRoundFinalizes(m: State, now: i64) returns (s: Settled, unlock: i64, carryover: int)
    requires SettleRound(m, now).Ok?
    ensures m.curPrice > 0 && SettleFull(m.pool, m.curPrice, m.scale, m.carryover, now) == Ok(s)
    ensures carryover == m.curWaln + m.carryover - s.summary.walnPurchased
    ensures SettleRound(m, now) == Finalize(m.(pool := s.pool), s.summary, unlock, now, carryover)
  {
    s := SettleFull(m.pool, m.curPrice, m.scale, m.carryover, now).value;
    unlock, carryover := now + m.curLockPeriod, m.curWaln + m.carryover - s.summary.walnPurchased;
  }

  lemma SettleKeeps(m: State, now: i64) returns (n: State)
    requires Filled(m) && SettleRound(m, now).Ok?
    ensures n == NothingLocked(SettleRound(m, now).value)
    ensures Inv(n) && !n.roundStarted && WalnExcess(n) == WalnExcess(m) && n.roundCount == m.roundCount + 1
    ensures n.carryover == m.curWaln - Sum(BaseAmounts(m.pool, m.curPrice, m.scale))
  {
    FullFacts(m, now);
    var s;
    s, n := SettleRoundIs(m, now);
    ConcludedKeeps(m, s, n);
  }

  lemma FullBalance(before: seq<InvestorRecord>, after: seq<InvestorRecord>)
    requires SameButPaid(before, after)
    requires forall i :: 0 <= i < |before| ==> after[i].usdcDeposited == before[i].usdcDeposited
    ensures Total(after, BalanceOf) == Total(before, BalanceOf) - Total(before, LockOf)
  {
    TotalAgree(before, after, DepositOf, DepositOf);
    TotalBalance(before);
    UnlockedTotals(after);
  }

  /** A full settlement of a reachable filled round succeeds exactly when the unlock time
      and the round counter have room and the log entry of the dust's recipient holds. */
  lemma SettleSucceeds(m: State, now: i64)
    requires Filled(m)
    ensures SettleRound(m, now).Ok? <==>
      && InI64(now + m.curLockPeriod) && m.roundCount < U64_MAX
      && DustLoggable(m.pool, m.curPrice, m.scale, m.carryover, now)
  {
    PoolIsSound(m);
    UnclaimedNonNegative(m.rounds);
    FullSucceeds(m.pool, m.curSize, m.curPrice, m.scale, m.carryover, now);
    if SettleRound(m, now).Ok? {
      SettleRoundNeeds(m, now);
    } else if SettleFull(m.pool, m.curPrice, m.scale, m.carryover, now).Ok? {
      FullFacts(m, now);
      BasesWithinSize(m.pool, m.curSize, m.curPrice, m.scale);
      LockedWithinLobby(m);
    }
  }

  lemma SettleRoundNeeds(m: State, now: i64)
    requires SettleRound(m, now).Ok?
    ensures InI64(now + m.curLockPeriod) && m.roundCount < U64_MAX && m.curPrice > 0
    ensures SettleFull(m.pool, m.curPrice, m.scale, m.carryover, now).Ok?
  {
  }

  lemma LockedWithinLobby(m: State)
    requires LobbyOk(m)
    ensures m.totalLocked <= m.lobby
  {
    TotalBalance(m.pool);
    TotalCoversEach(m.pool, DepositOf);
  }

  lemma AutoStartKeeps(m: State)
    requires Inv(NothingLocked(m)) && !m.roundStarted
    ensures AutoStart(m).Ok? && Inv(AutoStart(m).value) && WalnExcess(AutoStart(m).value) == WalnExcess(m)
    ensures AutoStart(m).value.roundCount == m.roundCount
  {
    var idle := NothingLocked(m);
    BeginNeverOverflows(idle);
    assert BeginRound(m) == BeginRound(idle);
    if BeginRound(m).Ok? {
      BeginKeeps(idle);
    }
  }

  lemma OpenKeeps(m: State)
    requires Inv(m) && OpenFor(m).Ok?
    ensures var open := OpenFor(m).value;
      && Inv(open) && open.roundStarted && open.roundCount == m.roundCount && WalnExcess(open) == WalnExcess(m)
      && open.curPrice == EffectivePrice(m) && open.curSize == EffectiveSize(m) && open.curWaln == EffectiveSold(m)
      && open.scale == m.scale && open.carryover == m.carryover && open.usdcVault == m.usdcVault && open.walnVault == m.walnVault
      && open.lobby == m.lobby && open.curSpent == m.curSpent && open.rounds == m.rounds
  {
    if !m.roundStarted {
      BeginKeeps(m);
    }
  }

  lemma SaleAdmitted(m: State, open: State, maxAmount: u64)
    requires Inv(m) && SaleAmount(m, maxAmount).Ok?
    requires open.curPrice == EffectivePrice(m) && open.curSize == EffectiveSize(m) && open.curWaln == EffectiveSold(m) && open.scale == m.scale
    ensures Admitted(open, SaleAmount(m, maxAmount).value)
  {
  }

  lemma SoldKeeps(m: State, maxAmount: u64)
    requires Inv(m) && SoldState(m, maxAmount).Ok?
    ensures var sold := SoldState(m, maxAmount).value;
      && (if sold.curWaln < sold.curSize then Inv(sold) else Filled(sold))
      && WalnExcess(sold) == WalnExcess(m) && sold.roundCount == m.roundCount && sold.roundStarted
  {
    OpenKeeps(m);
    var open := OpenFor(m).value;
    SaleAdmitted(m, open, maxAmount);
    BookedKeeps(open, SaleAmount(m, maxAmount).value);
  }

  lemma BookedKeeps(open: State, amount: u64)
    requires Inv(open) && open.roundStarted && Admitted(open, amount) && TakeSale(open, amount).Ok?
    ensures var sold := TakeSale(open, amount).value;
      && (if sold.curWaln < sold.curSize then Inv(sold) else Filled(sold))
      && WalnExcess(sold) == WalnExcess(open) && sold.roundCount == open.roundCount && sold.roundStarted
  {
    SaleKeeps(open, amount);
  }

  lemma SellKeeps(m: State, maxAmount: u64, now: i64)
    requires Inv(m) && Sell(m, maxAmount, now).Ok?
    ensures var n := Sell(m, maxAmount, now).value;
      Inv(n) && WalnExcess(n) == WalnExcess(m)
  {
    SoldKeeps(m, maxAmount);
    var sold := SoldState(m, maxAmount).value;
    if sold.curWaln == sold.curSize {
      var idle := SettleKeeps(sold, now);
      AutoStartKeeps(SettleRound(sold, now).value);
    }
  }

  // ---------- forced settlement and cancellation ----------

  /** The facts about a forced settlement that closing the round needs. */
  ghost predicate ForcedOutcome(m: State, s: Settled) {
    && Settles(m, s) && s.summary.usdcSpent == m.curSpent <= m.totalLocked
    && s.summary.walnPurchased == m.curWaln
  }

  lemma ForcedFacts(m: State)
    requires m.curPrice > 0 && Distinct(Keys(m.pool)) && LobbyOk(m)
    requires SettleForced(m.pool, m.curPrice, m.scale, m.curWaln, m.curSpent).Ok?
    ensures ForcedOutcome(m, SettleForced(m.pool, m.curPrice, m.scale, m.curWaln, m.curSpent).value)
  {
    ForcedPool(m.pool, m.curPrice, m.scale, m.curWaln, m.curSpent);
    ForcedAllocations(m.pool, m.curPrice, m.scale, m.curWaln, m.curSpent);
  }

  /** A forced settlement taken apart. */
  lemma CloseRoundIs(m: State, now: i64) returns (s: Settled, n: State)
    requires CloseRound(m, now).Ok?
    ensures CloseRound(m, now) == Ok(n) && Concluded(m, s, n)
    ensures m.curPrice > 0 && SettleForced(m.pool, m.curPrice, m.scale, m.curWaln, m.curSpent) == Ok(s)
  {
    var unlock, carryover;
    s, unlock, carryover := CloseRoundFinalizes(m, now);
    FinalizeConcludes(m, s, unlock, now, carryover);
    n := NothingLocked(Finalize(m.(pool := s.pool), s.summary, unlock, now, carryover).value);
  }

  lemma CloseRoundFinalizes(m: State, now: i64) returns (s: Settled, unlock: i64, carryover: int)
    requires CloseRound(m, now).Ok?
    ensures m.curPrice > 0 && SettleForced(m.pool, m.curPrice, m.scale, m.curWaln, m.curSpent) == Ok(s)
    ensures carryover == m.curWaln + m.carryover - s.summary.walnPurchased
    ensures var closed := Finalize(m.(pool := s.pool), s.summary, unlock, now, carryover);
      closed.Ok? && CloseRound(m, now) == Ok(NothingLocked(closed.value))
  {
    s := SettleForced(m.pool, m.curPrice, m.scale, m.curWaln, m.curSpent).value;
    unlock, carryover := now + m.curLockPeriod, m.carryover + (m.curWaln - s.summary.walnPurchased);
  }

  lemma CloseRoundKeeps(m: State, now: i64) returns (n: State)
    requires Inv(m) && CloseRound(m, now).Ok?
    ensures CloseRound(m, now) == Ok(n)
    ensures Inv(n) && !n.roundStarted && WalnExcess(n) == WalnExcess(m) && n.roundCount == m.roundCount + 1
    ensures n.carryover == m.carryover
  {
    ForcedFacts(m);
    var s;
    s, n := CloseRoundIs(m, now);
    ConcludedKeeps(m, s, n);
  }

  /** A round can be closed by force exactly when it is partly filled, no more was paid out
      than locked, and the unlock time and the round counter have room. */
  lemma CloseRoundSucceeds(m: State, now: i64)
    requires Inv(m)
    ensures CloseRound(m, now).Ok? <==>
      && m.roundStarted && m.curWaln > 0 && m.curSpent <= m.totalLocked
      && InI64(now + m.curLockPeriod) && m.roundCount < U64_MAX
  {
    if CloseRound(m, now).Ok? {
      CloseRoundNeeds(m, now);
    }
    if m.roundStarted && m.curWaln > 0 {
      PoolIsSound(m);
      ForcedSucceeds(m.pool, m.curSize, m.curPrice, m.scale, m.curWaln, m.curSpent);
      if m.curSpent <= m.totalLocked && InI64(now + m.curLockPeriod) && m.roundCount < U64_MAX {
        ForcedFacts(m);
        LockedWithinLobby(m);
        ForcedCloses(m, now, SettleForced(m.pool, m.curPrice, m.scale, m.curWaln, m.curSpent).value);
      }
    }
  }

  lemma CloseRoundNeeds(m: State, now: i64)
    requires CloseRound(m, now).Ok?
    ensures m.roundStarted && m.curWaln > 0 && InI64(now + m.curLockPeriod) && m.roundCount < U64_MAX && m.curPrice > 0
    ensures SettleForced(m.pool, m.curPrice, m.scale, m.curWaln, m.curSpent).Ok?
  {
  }

  lemma ForcedCloses(m: State, now: i64, s: Settled)
    requires m.roundStarted && m.curWaln > 0 && InI64(now + m.curLockPeriod) && m.roundCount < U64_MAX
    requires m.curPrice > 0 && SettleForced(m.pool, m.curPrice, m.scale, m.curWaln, m.curSpent) == Ok(s)
    requires s.summary.walnPurchased == m.curWaln && s.summary.usdcSpent <= m.lobby
    ensures CloseRound(m, now).Ok?
  {
  }

  /** With at most two participants, or a cap of at least twice their number, what was paid
      always is within the locks: only the clock and the counter can prevent a forced close. */
  lemma SmallGapCloses(m: State, now: i64)
    requires Inv(m) && m.roundStarted && m.curWaln > 0
    requires Participants(m.pool) <= 2 || UsdcValue(m.curSize, m.curPrice, m.scale) >= 2 * Participants(m.pool)
    ensures CloseRound(m, now).Ok? <==> InI64(now + m.curLockPeriod) && m.roundCount < U64_MAX
  {
    PaidBelowCap(m);
    CloseRoundSucceeds(m, now);
  }

  /** While a round is open it has paid less than its cap. */
  lemma PaidBelowCap(m: State)
    requires RoundOk(m) && m.roundStarted
    ensures m.curSpent <= UsdcValue(m.curWaln, m.curPrice, m.scale) <= UsdcValue(m.curSize, m.curPrice, m.scale) - 1
    ensures m.curSpent + UsdcValue(m.curSize - m.curWaln, m.curPrice, m.scale) <= UsdcValue(m.curSize, m.curPrice, m.scale)
  {
    ValueSuperadditive(m.curWaln, m.curSize - m.curWaln, m.curPrice, m.scale);
  }

  lemma CancelKeeps(m: State)
    requires Inv(m) && CancelRound(m).Ok?
    ensures Inv(CancelRound(m).value) && WalnExcess(CancelRound(m).value) == WalnExcess(m)
  {
    var n := CancelRound(m).value;
    SameKeys(m.pool, n.pool);
    TotalAgree(m.pool, n.pool, BalanceOf, BalanceOf);
    UnlockedTotals(n.pool);
    assert PoolOk(n) && LobbyOk(n) && RoundOk(n);
  }

  /** An unfilled round can always be cancelled. */
  lemma CancelSucceeds(m: State)
    requires Inv(m)
    ensures CancelRound(m).Ok? <==> m.roundStarted && m.curWaln == 0
  {
    TotalCoversEach(m.pool, BalanceOf);
    assert forall i :: 0 <= i < |m.pool| ==> BalanceOf(m.pool[i]) <= U64_MAX;
  }
}
