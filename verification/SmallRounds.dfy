/** A round whose cap is below twice the number of its investors can lock less than it pays
    out. It then cannot be closed by force, and the vault may not cover all deposits. */
module SmallRounds {
  import opened Arithmetic
  import opened Accounts
  import opened StartRound
  import opened Gap
  import opened Market
  import opened Invariant
  import opened Conservation
  import opened Runs
  import opened RoundRuns

  const SCALE: Scale := 1_000_000_000
  const CAP: nat := 5

  /** `k` investors of volume 1 with a deposit of 2 each. */
  function Equals(k: nat): (pool: seq<InvestorRecord>) {
    seq(k, i requires 0 <= i < k => InvestorRecord(i, 2, 0, 0, 0, 1, 0))
  }

  /** Initialized with a cap of 5 units, and `k` investors have joined. */
  ghost predicate Joined(m: State, k: nat) {
    && m.scale == SCALE && m.floorPrice == 1 && m.roundSize == CAP * SCALE && m.lockPeriod == 0 && m.withdrawLock == 0
    && !m.sellPaused && !m.frozen && !m.roundStarted && m.roundCount == 0 && m.curWaln == 0 && m.curSpent == 0
    && m.pool == Equals(k) && m.totalAat == k && (forall i :: i in m.nfts ==> i < k)
    && m.lobby == 2 * k && m.usdcVault == 2 * k && m.walnVault == 0
  }

  function Join(k: nat): (trace: seq<Instruction>) {
    [MintAatNft(k, 1), DepositUsdc(k, 2, 0)]
  }

  lemma JoinStep(m: State, k: nat)
    requires Joined(m, k) && k < 3
    ensures Joined(Run(m, Join(k)), k + 1)
  {
    var minted := m.(totalAat := m.totalAat + 1, nfts := m.nfts[k := 1]);
    assert Apply(m, MintAatNft(k, 1)) == minted;
    forall i | 0 <= i < k
      ensures Keys(m.pool)[i] != k
    {
    }
    assert IndexOf(Keys(m.pool), k) == k;
    var n := Apply(minted, DepositUsdc(k, 2, 0));
    assert n.pool == Equals(k + 1);
    assert Join(k)[1..][1..] == [];
    assert Run(m, Join(k)) == n;
  }

  /** The three after the start: one unit locked for each, and one left from the `k`-th on. */
  function Remaining(k: nat): (pool: seq<InvestorRecord>) {
    seq(3, i requires 0 <= i < 3 => InvestorRecord(i, if i < k then 0 else 1, 1, 0, 0, 1, 0))
  }

  lemma SharesOfThree(mask: seq<bool>)
    requires mask == [true, true, true]
    ensures Volume(Equals(3), mask) == 3
    ensures FloorLocks(Equals(3), mask, CAP) == [1, 1, 1]
  {
    SumConstant(Weights(Equals(3), mask), 1, 3);
    assert Share(CAP, 1, 3) == 1;
  }

  lemma StartLocksThree()
    ensures var start := RoundStart(Equals(3), CAP * SCALE, 1, SCALE);
      start.Ok? && start.value.pool == Remaining(0) && start.value.locked == 3
  {
    GapBoundIsSharp(3);
    assert Equals(3) == seq(3, i requires 0 <= i < 3 => InvestorRecord(i, 3 - 1, 0, 0, 0, 1, 0));
    assert UsdcValue(CAP * SCALE, 1, SCALE) == CAP;
    var mask := [true, true, true];
    assert InitialMask(Equals(3), CAP) == mask;
    SharesOfThree(mask);
    var mask', locks := StartExplained(Equals(3), CAP * SCALE, 1, SCALE);
    assert locks == [1, 1, 1];
    assert ApplyLocks(Equals(3), locks) == Remaining(0);
  }

  /** The round sold four fifths for 4 units, and the first `k` investors withdrew the rest
      of their deposits. */
  ghost predicate Drained(n: State, k: nat) {
    && n.roundStarted && n.curWaln == 4 * SCALE && n.curSize == CAP * SCALE && n.curPrice == 1 && n.scale == SCALE
    && n.curSpent == 4 && n.totalLocked == 3 && !n.frozen && !n.sellPaused
    && n.pool == Remaining(k) && n.usdcVault + k == 2
  }

  lemma SaleStep(m: State)
    requires Joined(m, 3)
    ensures Drained(Apply(m, SellWaln(4 * SCALE, 0)), 0)
  {
    StartLocksThree();
    assert UsdcValue(4 * SCALE, 1, SCALE) == 4;
    assert UsdcValue(SCALE, 1, SCALE) == 1;
    assert SaleAmount(m, 4 * SCALE) == Ok(4 * SCALE);
    assert BeginRound(m).Ok? && BeginRound(m).value.totalLocked == 3;
  }

  /** A partly filled round that can neither be closed by force nor be cancelled: three
      equal investors lock 3 units of a cap of 5, of which a sale is paid 4. */
  lemma ForcedCloseCanFail() returns (start: State, trace: seq<Instruction>, m: State)
    ensures Reached(start, trace, m) && Inv(m) && Drained(m, 0) && Overpaid(m)
    ensures (forall now :: CloseRound(m, now).Err?) && CancelRound(m).Err?
  {
    start := Initialize(1, CAP * SCALE, 0, SCALE).value;
    assert Joined(start, 0);
    JoinStep(start, 0);
    JoinStep(Run(start, Join(0)), 1);
    RunConcat(start, Join(0), Join(1));
    JoinStep(Run(start, Join(0) + Join(1)), 2);
    RunConcat(start, Join(0) + Join(1), Join(2));
    var full := Run(start, Join(0) + Join(1) + Join(2));
    SaleStep(full);
    var sale := [SellWaln(4 * SCALE, 0)];
    trace := Join(0) + Join(1) + Join(2) + sale;
    RunConcat(start, Join(0) + Join(1) + Join(2), sale);
    m := Run(start, trace);
    assert sale[1..] == [];
    assert m == Apply(full, SellWaln(4 * SCALE, 0));
    ReachedInv(start, trace, m);
    OverpaidCannotEnd(m);
  }

  // ---------- the vault falls short ----------

  lemma WithdrawStep(m: State, k: nat)
    requires Inv(m) && Drained(m, k) && k < 2
    ensures Drained(Apply(m, WithdrawUsdc(k, 1, 0)), k + 1)
  {
    assert Keys(m.pool)[k] == k;
    IndexOfDistinct(Keys(m.pool), k);
    WithdrawalSucceeds(m, k, 1, 0);
    assert Apply(m, WithdrawUsdc(k, 1, 0)).pool == Remaining(k + 1);
  }

  /** With nothing left in the vault no sale is possible: one of all that is left cannot be
      paid, and a smaller one would leave less than a unit's worth. */
  lemma NoSale(m: State, maxAmount: u64, now: i64)
    requires Inv(m) && Drained(m, 2)
    ensures Sell(m, maxAmount, now).Err?
  {
    assert UsdcValue(SCALE, 1, SCALE) == 1;
    if maxAmount >= SCALE {
      RoundCompletes(m, maxAmount, now);
    } else if maxAmount > 0 {
      assert UsdcValue(SCALE - maxAmount, 1, SCALE) == 0;
      assert SaleAmount(m, maxAmount).Err?;
    }
  }

  /** A run into a round that no sale, no forced close and no cancellation ends, and in which
      an investor past the unlock time cannot withdraw the own deposit: the vault is empty. */
  lemma VaultCanFallShort() returns (start: State, trace: seq<Instruction>, m: State)
    ensures Reached(start, trace, m) && Inv(m) && Overpaid(m) && !m.frozen && !m.sellPaused
    ensures (forall now :: CloseRound(m, now).Err?) && CancelRound(m).Err?
    ensures forall maxAmount: u64, now: i64 :: Sell(m, maxAmount, now).Err?
    ensures |m.pool| == 3 && m.pool[2] == InvestorRecord(2, 1, 1, 0, 0, 1, 0)
    ensures forall now: i64 :: Withdraw(m, 2, 1, now).Err?
  {
    var before, sold;
    start, before, sold := ForcedCloseCanFail();
    var out := [WithdrawUsdc(0, 1, 0), WithdrawUsdc(1, 1, 0)];
    trace := before + out;
    WithdrawStep(sold, 0);
    StepConserves(sold, out[0]);
    WithdrawStep(Apply(sold, out[0]), 1);
    RunConcat(start, before, out);
    m := Run(start, trace);
    assert out[1..] == [out[1]] && out[1..][1..] == [];
    ReachedInv(start, trace, m);
    OverpaidCannotEnd(m);
    forall maxAmount: u64, now: i64
      ensures Sell(m, maxAmount, now).Err?
    {
      NoSale(m, maxAmount, now);
    }
    forall now: i64
      ensures Withdraw(m, 2, 1, now).Err?
    {
      assert Keys(m.pool)[2] == 2;
      IndexOfDistinct(Keys(m.pool), 2);
      WithdrawalSucceeds(m, 2, 1, now);
    }
  }
}
