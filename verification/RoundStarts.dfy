/** How rounds begin: every round starts in a sell, which opens it or fills the one before,
    and what the round records at its end is what its start computed. */
module RoundStarts {
  import opened Arithmetic
  import opened Accounts
  import opened StartRound
  import opened Gap
  import opened Eligibility
  import opened SettlementEffects
  import opened Market
  import opened Invariant
  import opened RoundInvariant
  import opened Claims
  import opened Conservation
  import opened SettledRounds
  import opened RoundRuns

  /** After `ins` a round is running that was not before. */
  ghost predicate NewRound(m: State, ins: Instruction) {
    Apply(m, ins).roundStarted && (!m.roundStarted || Apply(m, ins).roundCount != m.roundCount)
  }

  ghost function StartOf(idle: State): Result<Started> {
    RoundStart(idle.pool, idle.roundSize, idle.floorPrice, idle.scale)
  }

  /** `n` runs the round that a start in the idle market locks, at the terms configured there. */
  ghost predicate StartedFrom(idle: State, n: State) {
    && StartOf(idle).Ok? && n.roundStarted && n.pool == StartOf(idle).value.pool
    && Total(n.pool, LockedVolumeOf) == StartOf(idle).value.volume
    && n.totalLocked == StartOf(idle).value.locked
    && n.curPrice == idle.floorPrice && n.curSize == idle.roundSize && n.curLockPeriod == idle.lockPeriod && n.scale == idle.scale
  }

  /** A start changes nothing but the pool and the terms of the round. */
  lemma BeginTouches(idle: State)
    requires BeginRound(idle).Ok?
    ensures var n := BeginRound(idle).value;
      n == idle.(
        pool := n.pool, roundStarted := true, curPrice := n.curPrice, curSize := n.curSize,
        curLockPeriod := n.curLockPeriod, curSpent := 0, totalLocked := n.totalLocked)
  {
  }

  lemma BeginStarts(idle: State)
    requires Inv(idle) && !idle.roundStarted && BeginRound(idle).Ok?
    ensures StartedFrom(idle, BeginRound(idle).value)
  {
    BeginKeeps(idle);
  }

  /** The settled market a filling sale leaves before the next start: the settings are those
      from before the sale, and each record of the round that was filled keeps its investor,
      deposit, volume and unlock time, and nothing of it is locked. */
  ghost predicate SettledFrom(m: State, idle: State) {
    && OpenFor(m).Ok? && Inv(idle) && !idle.roundStarted && Unlocked(idle.pool)
    && idle.roundSize == m.roundSize && idle.floorPrice == m.floorPrice && idle.lockPeriod == m.lockPeriod && idle.scale == m.scale
    && SameButPaid(OpenFor(m).value.pool, idle.pool)
    && forall i :: 0 <= i < |idle.pool| ==> idle.pool[i].usdcDeposited == OpenFor(m).value.pool[i].usdcDeposited
  }

  lemma SettlementLeaves(sold: State, now: i64) returns (idle: State)
    requires Filled(sold) && SettleRound(sold, now).Ok?
    ensures idle == NothingLocked(SettleRound(sold, now).value) && Inv(idle) && !idle.roundStarted
    ensures idle.roundSize == sold.roundSize && idle.floorPrice == sold.floorPrice && idle.scale == sold.scale
    ensures SameButPaid(sold.pool, idle.pool)
    ensures forall i :: 0 <= i < |idle.pool| ==> idle.pool[i].usdcDeposited == sold.pool[i].usdcDeposited
  {
    idle := SettleKeeps(sold, now);
    var s, idle' := SettleRoundIs(sold, now);
    FullPool(sold.pool, sold.curPrice, sold.scale, sold.carryover, now);
  }

  lemma LockPeriodKept(sold: State, now: i64)
    requires SettleRound(sold, now).Ok?
    ensures SettleRound(sold, now).value.lockPeriod == sold.lockPeriod
  {
  }

  lemma SoldSettings(m: State, maxAmount: u64)
    requires SoldState(m, maxAmount).Ok?
    ensures var sold := SoldState(m, maxAmount).value;
      && sold.roundSize == m.roundSize && sold.floorPrice == m.floorPrice && sold.lockPeriod == m.lockPeriod
  {
  }

  lemma AutoStartIs(settled: State)
    requires Inv(NothingLocked(settled)) && !settled.roundStarted && AutoStart(settled).Ok?
    ensures var idle, n := NothingLocked(settled), AutoStart(settled).value;
      if StartOf(idle).Ok? then n.roundStarted && BeginRound(idle) == Ok(n)
      else StartOf(idle) == Err(NoEligibleInvestors) && n == idle
  {
    BeginNeverOverflows(NothingLocked(settled));
  }

  /** After the settlement the next round is started if and only if a start on the settled
      pool, at the configured size and price, finds somebody; otherwise the market stays as
      the settlement left it, with nothing locked. */
  lemma NextRound(m: State, maxAmount: u64, now: i64) returns (idle: State)
    requires Inv(m) && SettlesFully(m, SellWaln(maxAmount, now))
    ensures SettledFrom(m, idle)
    ensures var n := Apply(m, SellWaln(maxAmount, now));
      && (n.roundStarted <==> StartOf(idle).Ok?)
      && (n.roundStarted ==> BeginRound(idle) == Ok(n) && StartedFrom(idle, n))
      && (!n.roundStarted ==> n == idle && StartOf(idle) == Err(NoEligibleInvestors))
  {
    var settled := SettledBy(m, maxAmount, now);
    idle := NothingLocked(settled);
    AutoStartIs(settled);
    if StartOf(idle).Ok? {
      BeginStarts(idle);
    }
  }

  lemma SettledBy(m: State, maxAmount: u64, now: i64) returns (settled: State)
    requires Inv(m) && SettlesFully(m, SellWaln(maxAmount, now))
    ensures SettledFrom(m, NothingLocked(settled)) && !settled.roundStarted
    ensures AutoStart(settled) == Ok(Apply(m, SellWaln(maxAmount, now)))
  {
    var sold, n;
    sold, settled, n := CompletingSell(m, maxAmount, now);
    var idle := SettlementLeaves(sold, now);
    SoldSettings(m, maxAmount);
    LockPeriodKept(sold, now);
  }

  /** With a configured cap of at least the candidates' volume: if and only if some set of
      candidates of the settled pool, with at least one member, can pay its shares of it. */
  lemma NextRoundIfAffordable(m: State, maxAmount: u64, now: i64) returns (idle: State)
    requires Inv(m) && SettlesFully(m, SellWaln(maxAmount, now))
    ensures SettledFrom(m, idle)
    ensures var cap := UsdcValue(m.roundSize, m.floorPrice, m.scale);
      cap >= VolumeIn(idle.pool, Candidates(idle.pool, cap), |idle.pool|) ==>
        (Apply(m, SellWaln(maxAmount, now)).roundStarted <==> exists w: seq<bool> :: Affordable(idle.pool, cap, w) && !Empty(w))
  {
    idle := NextRound(m, maxAmount, now);
    var cap := UsdcValue(m.roundSize, m.floorPrice, m.scale);
    if cap >= VolumeIn(idle.pool, Candidates(idle.pool, cap), |idle.pool|) {
      AffordableStart(idle);
    }
  }

  lemma AffordableStart(idle: State)
    requires Inv(idle) && !idle.roundStarted
    requires var cap := UsdcValue(idle.roundSize, idle.floorPrice, idle.scale);
      cap >= VolumeIn(idle.pool, Candidates(idle.pool, cap), |idle.pool|)
    ensures StartOf(idle).Ok? <==>
      exists w: seq<bool> :: Affordable(idle.pool, UsdcValue(idle.roundSize, idle.floorPrice, idle.scale), w) && !Empty(w)
  {
    PoolIsSound(idle);
    LargeCapStart(idle.pool, idle.roundSize, idle.floorPrice, idle.scale);
  }

  /** The automatic start, from the idle market that the settlement of `sold` left. */
  lemma AutoStarted(m: State, maxAmount: u64, now: i64) returns (sold: State, idle: State)
    requires Inv(m) && SettlesFully(m, SellWaln(maxAmount, now)) && Apply(m, SellWaln(maxAmount, now)).roundStarted
    ensures OpenFor(m).Ok? && Filled(sold) && sold.pool == OpenFor(m).value.pool
    ensures SettleRound(sold, now).Ok? && idle == NothingLocked(SettleRound(sold, now).value)
    ensures Inv(idle) && !idle.roundStarted && BeginRound(idle) == Ok(Apply(m, SellWaln(maxAmount, now)))
  {
    var settled, n;
    sold, settled, n := CompletingSell(m, maxAmount, now);
    idle := SettleKeeps(sold, now);
    AutoStartBegins(settled, n);
  }

  lemma AutoStartBegins(settled: State, n: State)
    requires AutoStart(settled) == Ok(n) && n.roundStarted && !NothingLocked(settled).roundStarted
    ensures BeginRound(NothingLocked(settled)) == Ok(n)
  {
  }

  lemma OpensRound(m: State, maxAmount: u64, now: i64)
    requires Inv(m) && !m.roundStarted && Sell(m, maxAmount, now).Ok? && !SettlesFully(m, SellWaln(maxAmount, now))
    ensures StartedFrom(m, Sell(m, maxAmount, now).value)
  {
    var sold, n := SellIs(m, maxAmount, now);
    var sold' := SoldIs(m, maxAmount);
    BeginStarts(m);
    SoldKeeps(m, maxAmount);
  }

  /** Only sells start rounds: the first into an idle market, or one that settles a round. */
  lemma RoundsStartInSells(m: State, ins: Instruction) returns (idle: State)
    requires Inv(m) && NewRound(m, ins)
    ensures ins.SellWaln? && Inv(idle) && !idle.roundStarted && StartedFrom(idle, Apply(m, ins))
    ensures !SettlesFully(m, ins) ==> idle == m
    ensures SettlesFully(m, ins) ==> BeginRound(idle) == Ok(Apply(m, ins))
  {
    OnlySellsStart(m, ins);
    if SettlesFully(m, ins) {
      var sold;
      sold, idle := AutoStarted(m, ins.amount, ins.now);
      BeginStarts(idle);
    } else {
      var n := SellConserves(m, ins.amount, ins.now);
      idle := m;
      OpensRound(m, ins.amount, ins.now);
    }
  }

  lemma OnlySellsStart(m: State, ins: Instruction)
    requires Inv(m) && NewRound(m, ins)
    ensures ins.SellWaln? && Step(m, ins).Ok?
  {
    if IsQuiet(ins) {
      var n := QuietStep(m, ins);
    } else {
      match ins
      case ClaimWaln(investor, round, now) => var k, n := ClaimIs(m, investor, round, now);
      case ForceClose(now) => var n := CloseRoundKeeps(m, now);
      case _ =>
    }
  }

  // ---------- from the start to the record ----------

  /** The value of the lock that the start takes from `key`, and the old dust for one. */
  ghost function Allotment(idle: State, key: Pubkey, winner: Pubkey, dust: int): int
    requires StartOf(idle).Ok? && idle.floorPrice > 0
  {
    WalnValue(Total(StartOf(idle).value.pool, LockFor(key)), idle.floorPrice, idle.scale) + (if key == winner then dust else 0)
  }

  /** What a started round is to leave on record, whoever gets the old dust. */
  ghost predicate Accounted(idle: State, round: nat, after: State, winner: Pubkey, dust: int)
    requires StartOf(idle).Ok? && idle.floorPrice > 0
  {
    var start := StartOf(idle).value;
    && Total(start.pool, LockFor(winner)) > 0
    && round in after.records
    && after.records[round].totalAatVolumeAtTrigger == start.volume
    && after.records[round].usdcSpent == start.locked
    && forall key :: Owed(after, round, key) == Allotment(idle, key, winner, dust)
  }

  /** A settling sale records as spent what the round had locked. */
  lemma SettlementSpends(m: State, maxAmount: u64, now: i64)
    requires Inv(m) && SettlesFully(m, SellWaln(maxAmount, now))
    ensures OpenFor(m).Ok? && m.roundCount in Apply(m, SellWaln(maxAmount, now)).records
    ensures Apply(m, SellWaln(maxAmount, now)).records[m.roundCount].usdcSpent == OpenFor(m).value.totalLocked
  {
    var sold, settled, n := CompletingSell(m, maxAmount, now);
    FullRecorded(sold, now, settled);
  }

  /** What the settlement of the locks in `n` leaves is what the start of `n` is to leave. */
  lemma AccountedFrom(idle: State, n: State, round: nat, after: State, winner: Pubkey, dust: int)
    requires StartedFrom(idle, n) && n.curPrice > 0 && LockedBy(n, winner) > 0 && round in after.records
    requires after.records[round].totalAatVolumeAtTrigger == Total(n.pool, LockedVolumeOf)
    requires after.records[round].usdcSpent == n.totalLocked
    requires forall key :: Owed(after, round, key) == Due(n, key, winner, dust)
    ensures Accounted(idle, round, after, winner, dust)
  {
    forall key
      ensures Owed(after, round, key) == Allotment(idle, key, winner, dust)
    {
      assert Owed(after, round, key) == Due(n, key, winner, dust);
    }
  }

  /** From the instruction that starts a round, over any run while it lasts, to its full
      settlement: the recorded volume and spending are those the start computed, and each
      investor is allocated the value of the lock the start took, at the start's price. */
  lemma RoundAccounted(m: State, ins: Instruction, trace: seq<Instruction>, maxAmount: u64, now: i64)
    returns (idle: State, winner: Pubkey)
    requires Inv(m) && NewRound(m, ins) && SameRound(Apply(m, ins), trace)
    requires SettlesFully(Run(Apply(m, ins), trace), SellWaln(maxAmount, now))
    ensures Inv(idle) && !idle.roundStarted && StartedFrom(idle, Apply(m, ins)) && idle.floorPrice > 0
    ensures var n := Apply(m, ins);
      var before := Run(n, trace);
      Wins(before.pool, now, winner) && Accounted(idle, n.roundCount, Apply(before, SellWaln(maxAmount, now)), winner, before.carryover)
  {
    idle := RoundsStartInSells(m, ins);
    StepConserves(m, ins);
    var n := Apply(m, ins);
    TermsIsolated(n, trace);
    winner := RoundIsolation(n, trace, maxAmount, now);
    var before := Run(n, trace);
    SettlementSpends(before, maxAmount, now);
    AccountedFrom(idle, n, n.roundCount, Apply(before, SellWaln(maxAmount, now)), winner, before.carryover);
  }

  /** A sale that opens a round and fills it at once: the same. */
  lemma FilledAtOnce(m: State, maxAmount: u64, now: i64) returns (winner: Pubkey)
    requires Inv(m) && !m.roundStarted && SettlesFully(m, SellWaln(maxAmount, now))
    ensures StartOf(m).Ok? && m.floorPrice > 0 && Wins(StartOf(m).value.pool, now, winner)
    ensures Accounted(m, m.roundCount, Apply(m, SellWaln(maxAmount, now)), winner, m.carryover)
  {
    winner := SettlementAllots(m, maxAmount, now);
    SettlementSpends(m, maxAmount, now);
    BeginStarts(m);
    AccountedFrom(m, OpenFor(m).value, m.roundCount, Apply(m, SellWaln(maxAmount, now)), winner, m.carryover);
  }

  // ---------- which rounds can be cancelled ----------

  /** Only a round that was started automatically can ever be cancelled, and only while
      nothing was sold in it: one opened by a sale holds that sale to its end. */
  lemma OnlyAutoStartedCancels(m: State, ins: Instruction, trace: seq<Instruction>)
    requires Inv(m) && NewRound(m, ins) && SameRound(Apply(m, ins), trace)
    ensures CancelRound(Run(Apply(m, ins), trace)).Ok? ==>
      SettlesFully(m, ins) && Run(Apply(m, ins), trace).curWaln == 0
  {
    StepConserves(m, ins);
    var n := Apply(m, ins);
    TermsIsolated(n, trace);
    CancelSucceeds(Run(n, trace));
    OnlySellsStart(m, ins);
    if !SettlesFully(m, ins) {
      var sold, n' := SellIs(m, ins.amount, ins.now);
      var sold' := SoldIs(m, ins.amount);
    }
  }
}
