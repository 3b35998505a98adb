/** When allocations can be claimed: the unlock time a settlement sets is never moved, so
    whoever is owed something can claim it from then on, whatever happened in between. */
module ClaimTimes {
  import opened Arithmetic
  import opened Accounts
  import opened Market
  import opened Invariant
  import opened RoundInvariant
  import opened Claims
  import opened Conservation
  import opened Runs
  import opened ClaimRuns
  import opened RoundRuns
  import opened SettledRounds

  /** No instruction brings a round account back or changes its unlock time. */
  lemma UnlockStep(m: State, ins: Instruction, round: nat)
    requires Inv(m) && round < m.roundCount && round in Apply(m, ins).rounds
    ensures round in m.rounds && Apply(m, ins).rounds[round].unlock == m.rounds[round].unlock
  {
    if Step(m, ins).Ok? {
      if ins.ClaimWaln? {
        var k := ClaimEffect(m, ins.investor, ins.round, ins.now);
      } else {
        var n := OthersLeaveAccounts(m, ins);
        assert round in m.rounds <==> round in n.rounds;
      }
    }
  }

  lemma {:induction false} UnlockStays(m: State, trace: seq<Instruction>, round: nat)
    requires Inv(m) && round < m.roundCount && round in Run(m, trace).rounds
    ensures round in m.rounds && Run(m, trace).rounds[round].unlock == m.rounds[round].unlock
    decreases |trace|
  {
    if |trace| > 0 {
      StepConserves(m, trace[0]);
      UnlockStays(Apply(m, trace[0]), trace[1..], round);
      UnlockStep(m, trace[0], round);
    }
  }

  /** After any run without a claim of the investor for the round, the investor can claim
      exactly from the unlock time on that the account had at the beginning, unless the
      market is frozen. */
  lemma StaysClaimable(m: State, trace: seq<Instruction>, round: u64, investor: Pubkey, now: i64)
    requires Inv(m) && round < m.roundCount && Owed(m, round, investor) > 0
    requires Over(m, trace, ClaimsBy(round, investor)) == 0
    ensures Owed(Run(m, trace), round, investor) == Owed(m, round, investor)
    ensures Claim(Run(m, trace), investor, round, now).Ok? <==> !Run(m, trace).frozen && now >= m.rounds[round].unlock
  {
    RunKeeps(m, trace);
    ClaimedOnce(m, trace, round, investor);
    UnlockStays(m, trace, round);
    ClaimSucceeds(Run(m, trace), investor, round, now);
  }

  /** An allocation of a full settlement can be claimed exactly from the settlement's time
      plus the lock period of the round on. */
  lemma ClaimableAfterSettlement(m: State, maxAmount: u64, settled: i64, n: State, trace: seq<Instruction>, investor: Pubkey, now: i64)
    requires Inv(m) && SettlesFully(m, SellWaln(maxAmount, settled)) && Apply(m, SellWaln(maxAmount, settled)) == n
    requires Owed(n, m.roundCount, investor) > 0 && Over(n, trace, ClaimsBy(m.roundCount, investor)) == 0
    ensures OpenFor(m).Ok?
    ensures Claim(Run(n, trace), investor, m.roundCount, now).Ok? <==>
      !Run(n, trace).frozen && now >= settled + OpenFor(m).value.curLockPeriod
  {
    var n' := SellConserves(m, maxAmount, settled);
    SettlementUnlocks(m, maxAmount, settled);
    StaysClaimable(n, trace, m.roundCount, investor, now);
  }

  lemma SettlementUnlocks(m: State, maxAmount: u64, settled: i64)
    requires Inv(m) && SettlesFully(m, SellWaln(maxAmount, settled))
    ensures OpenFor(m).Ok? && m.roundCount in Apply(m, SellWaln(maxAmount, settled)).rounds
    ensures Apply(m, SellWaln(maxAmount, settled)).rounds[m.roundCount].unlock == settled + OpenFor(m).value.curLockPeriod
  {
    var sold, closed, n := CompletingSell(m, maxAmount, settled);
    var sold' := SoldIs(m, maxAmount);
    FullRecorded(sold, settled, closed);
  }

  /** The same for an allocation of a forced close. */
  lemma ClaimableAfterClose(m: State, closed: i64, n: State, trace: seq<Instruction>, investor: Pubkey, now: i64)
    requires Inv(m) && CloseRound(m, closed) == Ok(n)
    requires Owed(n, m.roundCount, investor) > 0 && Over(n, trace, ClaimsBy(m.roundCount, investor)) == 0
    ensures Claim(Run(n, trace), investor, m.roundCount, now).Ok? <==>
      !Run(n, trace).frozen && now >= closed + m.curLockPeriod
  {
    var n' := CloseRoundKeeps(m, closed);
    ForcedRecorded(m, closed, n);
    StaysClaimable(n, trace, m.roundCount, investor, now);
  }
}
