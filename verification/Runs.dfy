/** Safety over whole runs: the invariant, the exact accounts of both vaults, solvency
    towards the investors, and the bound on the carried-over dust. */
module Runs {
  import opened Arithmetic
  import opened Accounts
  import opened Gap
  import opened SettlementEffects
  import opened Market
  import opened Invariant
  import opened RoundInvariant
  import opened Conservation

  /** The sum of a quantity over the steps of a run. */
  ghost function Over(m: State, trace: seq<Instruction>, q: (State, Instruction) -> int): int
    decreases |trace|
  {
    if |trace| == 0 then 0 else q(m, trace[0]) + Over(Apply(m, trace[0]), trace[1..], q)
  }

  lemma {:induction false} RunKeeps(m: State, trace: seq<Instruction>)
    requires Inv(m)
    ensures Inv(Run(m, trace)) && m.roundCount <= Run(m, trace).roundCount
    decreases |trace|
  {
    if |trace| > 0 {
      StepConserves(m, trace[0]);
      RunKeeps(Apply(m, trace[0]), trace[1..]);
    }
  }

  lemma {:induction false} RunSplit(m: State, trace: seq<Instruction>, n: nat)
    requires n <= |trace|
    ensures Run(m, trace) == Run(Run(m, trace[..n]), trace[n..])
    decreases |trace|
  {
    if n == 0 {
      assert trace[..0] == [] && trace[0..] == trace;
    } else {
      RunSplit(Apply(m, trace[0]), trace[1..], n - 1);
      assert trace[1..][..n - 1] == trace[..n][1..];
      assert trace[1..][n - 1..] == trace[n..];
    }
  }

  lemma RunConcat(m: State, s: seq<Instruction>, t: seq<Instruction>)
    ensures Run(m, s + t) == Run(Run(m, s), t)
  {
    RunSplit(m, s + t, |s|);
    assert (s + t)[..|s|] == s && (s + t)[|s|..] == t;
  }

  /** The state of a program some time after its initialization. */
  ghost predicate Reached(start: State, trace: seq<Instruction>, m: State) {
    (exists price: u64, size: u64, lockPeriod: i64, scale: Scale :: Initialize(price, size, lockPeriod, scale) == Ok(start)) &&
    m == Run(start, trace)
  }

  lemma InitialState(start: State)
    requires exists price: u64, size: u64, lockPeriod: i64, scale: Scale :: Initialize(price, size, lockPeriod, scale) == Ok(start)
    ensures Inv(start) && WalnExcess(start) == 0 && UsdcExcess(start) == 0 && start.carryover == 0 && !start.roundStarted
  {
    var price: u64, size: u64, lockPeriod: i64, scale: Scale :| Initialize(price, size, lockPeriod, scale) == Ok(start);
    InitializeEstablishes(price, size, lockPeriod, scale);
  }

  lemma ReachedInv(start: State, trace: seq<Instruction>, m: State)
    requires Reached(start, trace, m)
    ensures Inv(m)
  {
    InitialState(start);
    RunKeeps(start, trace);
  }

  /** The totals the program keeps are those of its records: balances, locks, and AAT
      volumes, which stay within the limit and bound those of the pool; between rounds
      nothing is locked or in progress, and no investor has two records. */
  lemma RecordsAddUp(start: State, trace: seq<Instruction>, m: State)
    requires Reached(start, trace, m)
    ensures m.lobby == Total(m.pool, BalanceOf) && m.totalLocked == Total(m.pool, LockOf)
    ensures !m.roundStarted ==> m.totalLocked == 0 && m.curWaln == 0 && m.curSpent == 0 && Unlocked(m.pool)
    ensures m.totalAat == MapSum(m.nfts, Identity) <= MAX_TOTAL_AAT_VOLUME && Total(m.pool, VolumeOf) <= m.totalAat
    ensures Distinct(Keys(m.pool))
    ensures forall i :: 0 <= i < |m.pool| ==> m.pool[i].investor in m.nfts && m.pool[i].aatVolume == m.nfts[m.pool[i].investor]
  {
    ReachedInv(start, trace, m);
    PoolVolumeBounded(m.pool, m.nfts);
    if !m.roundStarted {
      UnlockedTotals(m.pool);
    }
  }

  // ---------- wALN ----------

  lemma {:induction false} WalnOverRun(m: State, trace: seq<Instruction>)
    requires Inv(m)
    ensures WalnExcess(Run(m, trace)) == WalnExcess(m) + Over(m, trace, WalnReceived)
    decreases |trace|
  {
    if |trace| > 0 {
      StepConserves(m, trace[0]);
      WalnOverRun(Apply(m, trace[0]), trace[1..]);
    }
  }

  /** The wALN vault holds exactly what investors can still claim, the dust, and the
      unsettled sales, besides what outsiders sent. */
  lemma WalnConserved(start: State, trace: seq<Instruction>, m: State)
    requires Reached(start, trace, m)
    ensures m.walnVault == MapSum(m.rounds, UnclaimedIn) + m.carryover + m.curWaln + Over(start, trace, WalnReceived)
  {
    InitialState(start);
    WalnOverRun(start, trace);
  }

  // ---------- USDC ----------

  lemma {:induction false} UsdcOverRun(m: State, trace: seq<Instruction>)
    requires Inv(m)
    ensures UsdcExcess(Run(m, trace)) == UsdcExcess(m) + Over(m, trace, UsdcReceived) + Over(m, trace, Surplus)
    decreases |trace|
  {
    if |trace| > 0 {
      StepConserves(m, trace[0]);
      UsdcOverRun(Apply(m, trace[0]), trace[1..]);
    }
  }

  /** The USDC vault holds exactly the balances less the current payments, besides what
      outsiders sent and what fully settled rounds locked beyond their payments. */
  lemma UsdcConserved(start: State, trace: seq<Instruction>, m: State)
    requires Reached(start, trace, m)
    ensures m.usdcVault == Total(m.pool, BalanceOf) - m.curSpent + Over(start, trace, UsdcReceived) + Over(start, trace, Surplus)
  {
    InitialState(start);
    ReachedInv(start, trace, m);
    UsdcOverRun(start, trace);
  }

  /** A fully settled round pays at most its cap, so its shortfall is at most its gap. */
  lemma SurplusAboveGap(m: State, ins: Instruction)
    requires Inv(m)
    ensures SettledGap(m, ins) >= 0 && Surplus(m, ins) + SettledGap(m, ins) >= 0
  {
    if SettlesFully(m, ins) {
      SoldKeeps(m, ins.amount);
    }
  }

  lemma {:induction false} SurplusOverRun(m: State, trace: seq<Instruction>)
    requires Inv(m)
    ensures Over(m, trace, SettledGap) >= 0 && Over(m, trace, UsdcReceived) >= 0
    ensures Over(m, trace, Surplus) + Over(m, trace, SettledGap) >= 0
    decreases |trace|
  {
    if |trace| > 0 {
      StepConserves(m, trace[0]);
      SurplusAboveGap(m, trace[0]);
      SurplusOverRun(Apply(m, trace[0]), trace[1..]);
    }
  }

  /** The unlocked gap of the round in progress. */
  ghost function OpenGap(m: State): int {
    if m.roundStarted then CapOf(m) - m.totalLocked else 0
  }

  /** Up to the gaps of the settled rounds the vault covers every balance less the current
      payments, and up to the current gap as well it covers every deposit. */
  lemma Solvent(start: State, trace: seq<Instruction>, m: State)
    requires Reached(start, trace, m)
    ensures m.usdcVault + Over(start, trace, SettledGap) >= Total(m.pool, BalanceOf) - m.curSpent
    ensures m.usdcVault + Over(start, trace, SettledGap) + OpenGap(m) >= Total(m.pool, DepositOf)
    ensures OpenGap(m) >= 0
  {
    UsdcConserved(start, trace, m);
    InitialState(start);
    ReachedInv(start, trace, m);
    SurplusOverRun(start, trace);
    TotalBalance(m.pool);
    if m.roundStarted {
      PaidBelowCap(m);
    } else {
      UnlockedTotals(m.pool);
    }
  }

  /** In every state of the program a withdrawal succeeds exactly when the market is not
      frozen, the investor is past the unlock time and asks for a positive amount within the
      deposit, and the vault holds it. */
  lemma WithdrawalSucceeds(m: State, investor: Pubkey, amount: u64, now: i64)
    requires Inv(m)
    ensures var k := IndexOf(Keys(m.pool), investor);
      Withdraw(m, investor, amount, now).Ok? <==>
        && !m.frozen && k < |m.pool| && now >= m.pool[k].usdcUnlockTs
        && var out := if amount == U64_MAX then m.pool[k].usdcDeposited else amount;
        0 < out <= m.pool[k].usdcDeposited && out <= m.usdcVault
  {
    TotalCoversEach(m.pool, BalanceOf);
    var k := IndexOf(Keys(m.pool), investor);
    if k < |m.pool| {
      assert BalanceOf(m.pool[k]) <= Total(m.pool, BalanceOf);
    }
  }

  /** While every start locked its whole cap, the vault holds every deposit: a withdrawal
      fails only for the investor's own reasons, even in the middle of a round. */
  lemma WithdrawalsPayable(start: State, trace: seq<Instruction>, m: State, investor: Pubkey, amount: u64, now: i64)
    requires Reached(start, trace, m) && Over(start, trace, SettledGap) == 0 && OpenGap(m) == 0
    ensures Total(m.pool, DepositOf) <= m.usdcVault
    ensures var k := IndexOf(Keys(m.pool), investor);
      Withdraw(m, investor, amount, now).Ok? <==>
        && !m.frozen && k < |m.pool| && now >= m.pool[k].usdcUnlockTs
        && var out := if amount == U64_MAX then m.pool[k].usdcDeposited else amount;
        0 < out <= m.pool[k].usdcDeposited
  {
    Solvent(start, trace, m);
    ReachedInv(start, trace, m);
    WithdrawalSucceeds(m, investor, amount, now);
    TotalCoversEach(m.pool, DepositOf);
    var k := IndexOf(Keys(m.pool), investor);
    if k < |m.pool| {
      assert DepositOf(m.pool[k]) <= Total(m.pool, DepositOf);
    }
  }

  // ---------- dust ----------

  /** The dust after a full settlement is bounded by the rounding of that round alone. */
  lemma DustAfterSettlement(m: State, ins: Instruction)
    requires Inv(m) && SettlesFully(m, ins)
    ensures var sold := AtSettlement(m, ins);
      DustBounded(Apply(m, ins).carryover, sold.curSize, sold.curPrice, sold.scale, sold.totalLocked, Participants(sold.pool))
  {
    var n := SellConserves(m, ins.amount, ins.now);
    var sold := AtSettlement(m, ins);
    DustOfRound(sold.pool, sold.curSize, sold.curPrice, sold.scale);
  }

  ghost predicate DustFrom(m: State, trace: seq<Instruction>, i: nat, dust: int)
    requires i < |trace|
  {
    var before := Run(m, trace[..i]);
    SettlesFully(before, trace[i]) &&
    var sold := AtSettlement(before, trace[i]);
    DustBounded(dust, sold.curSize, sold.curPrice, sold.scale, sold.totalLocked, Participants(sold.pool))
  }

  /** Dust never accumulates: at any time it is what it was at the start of the run, or it
      is bounded by the rounding of one single round of the run. */
  lemma {:induction false} DustNeverAccumulates(m: State, trace: seq<Instruction>)
    requires Inv(m)
    ensures Run(m, trace).carryover == m.carryover ||
      exists i :: 0 <= i < |trace| && DustFrom(m, trace, i, Run(m, trace).carryover)
    decreases |trace|
  {
    if |trace| > 0 {
      var n := |trace| - 1;
      var before := Run(m, trace[..n]);
      RunKeeps(m, trace[..n]);
      RunSplit(m, trace, n);
      assert trace[n..] == [trace[n]];
      assert Run(m, trace) == Apply(before, trace[n]) by {
        assert Run(before, [trace[n]]) == Run(Apply(before, trace[n]), []);
      }
      StepConserves(before, trace[n]);
      if SettlesFully(before, trace[n]) {
        DustAfterSettlement(before, trace[n]);
        assert DustFrom(m, trace, n, Run(m, trace).carryover);
      } else {
        DustNeverAccumulates(m, trace[..n]);
        if before.carryover != m.carryover {
          var i :| 0 <= i < n && DustFrom(m, trace[..n], i, before.carryover);
          assert trace[..n][..i] == trace[..i];
          assert DustFrom(m, trace, i, before.carryover);
        }
      }
    }
  }
}
