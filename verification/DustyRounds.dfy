/** A round that no sale can fill: the dust carried over from a round at a low price, handed
    out in a round at a high one, is worth more than a u64. */
module DustyRounds {
  import opened Arithmetic
  import opened Accounts
  import opened StartRound
  import opened Gap
  import opened Settlement
  import opened SettlementEffects
  import opened Market
  import opened Invariant
  import opened RoundInvariant
  import opened Runs
  import opened RoundRuns

  const SCALE: Scale := 1_000_000_000
  const FIRST_SIZE: nat := 1_500_000_000
  const SIZE: nat := 2_000_000_000
  const PRICE: nat := 9_000_000_000_000_000_000
  const CAP: nat := 18_000_000_000_000_000_000

  // ---------- a single investor ----------

  lemma SumOne(x: int)
    ensures Sum([x]) == x
  {
    assert SumTo([x], 0) == 0;
  }

  /** A single investor of volume 1 who can pay the cap locks all of it. */
  lemma SingleStart(r: InvestorRecord, size: u64, price: u64, scale: Scale)
    requires r.aatVolume == 1 && r.usdcLocked == 0
    requires 0 < UsdcValue(size, price, scale) <= r.usdcDeposited
    ensures var cap := UsdcValue(size, price, scale);
      RoundStart([r], size, price, scale) == Ok(Started([LockRecord(r, cap)], 1, cap))
  {
    var cap := UsdcValue(size, price, scale);
    assert InitialMask([r], cap) == [true];
    assert Weights([r], [true]) == [1];
    SumOne(1);
    assert Share(cap, 1, 1) == cap;
    assert Survivors([r], cap, [true]) == [true];
    assert FloorLocks([r], [true], cap) == [cap];
    SumOne(cap);
    assert ApplyLocks([r], [cap]) == [LockRecord(r, cap)];
  }

  lemma NobodyStarts(r: InvestorRecord, size: u64, price: u64, scale: Scale)
    requires r.usdcDeposited == 0 && UsdcValue(size, price, scale) > 0
    ensures RoundStart([r], size, price, scale) == Err(NoEligibleInvestors)
  {
    var cap := UsdcValue(size, price, scale);
    assert InitialMask([r], cap) == [false];
    assert Weights([r], [false]) == [0];
    SumOne(0);
  }

  lemma SingleBase(r: InvestorRecord, price: u64, scale: Scale)
    requires price > 0
    ensures BaseAmounts([r], price, scale) == [scale * r.usdcLocked / price]
    ensures Sum(BaseAmounts([r], price, scale)) == scale * r.usdcLocked / price
    ensures r.usdcLocked > 0 ==> Participants([r]) == 1
  {
    assert Column([r], LockOf) == [r.usdcLocked];
    var bases := BaseAmounts([r], price, scale);
    BaseAt([r], price, scale, 0);
    assert bases == [bases[0]];
    SumOne(bases[0]);
    if r.usdcLocked > 0 {
      assert Positive(Column([r], LockOf)) == [1];
      SumOne(1);
    }
  }

  // ---------- the first round ----------

  /** The investor has joined with one unit, of a round size worth one and a half. */
  ghost predicate Ready(m: State) {
    && m.scale == SCALE && m.floorPrice == 1 && m.roundSize == FIRST_SIZE && m.lockPeriod == 0 && m.withdrawLock == 0
    && !m.sellPaused && !m.frozen && !m.roundStarted && m.roundCount == 0 && m.curWaln == 0 && m.curSpent == 0
    && m.pool == [InvestorRecord(0, 1, 0, 0, 0, 1, 0)] && m.nfts == map[0 := 1]
    && m.carryover == 0 && m.usdcVault == 1 && m.walnVault == 0
  }

  lemma Joining(m: State)
    requires Initialize(1, FIRST_SIZE, 0, SCALE) == Ok(m)
    ensures Ready(Run(m, [MintAatNft(0, 1), DepositUsdc(0, 1, 0)]))
  {
    var minted := m.(totalAat := 1, nfts := map[0 := 1]);
    assert Apply(m, MintAatNft(0, 1)) == minted;
    var n := Apply(minted, DepositUsdc(0, 1, 0));
    assert n.pool == [InvestorRecord(0, 1, 0, 0, 0, 1, 0)];
    assert [MintAatNft(0, 1), DepositUsdc(0, 1, 0)][1..] == [DepositUsdc(0, 1, 0)];
    assert [DepositUsdc(0, 1, 0)][1..] == [];
  }

  /** The whole first round sold, but not yet settled. */
  ghost predicate FirstSold(sold: State) {
    && sold.scale == SCALE && sold.floorPrice == 1 && sold.roundSize == FIRST_SIZE && sold.lockPeriod == 0 && sold.withdrawLock == 0
    && !sold.sellPaused && !sold.frozen && sold.roundStarted && sold.roundCount == 0
    && sold.curPrice == 1 && sold.curSize == FIRST_SIZE && sold.curWaln == FIRST_SIZE && sold.curLockPeriod == 0
    && sold.pool == [InvestorRecord(0, 0, 1, 0, 0, 1, 0)] && sold.nfts == map[0 := 1]
    && sold.carryover == 0 && sold.usdcVault == 0 && sold.walnVault == FIRST_SIZE
  }

  lemma FirstSale(m: State)
    requires Inv(m) && Ready(m)
    ensures SoldState(m, FIRST_SIZE).Ok? && FirstSold(SoldState(m, FIRST_SIZE).value) && Filled(SoldState(m, FIRST_SIZE).value)
  {
    SingleStart(m.pool[0], m.roundSize, m.floorPrice, m.scale);
    assert UsdcValue(FIRST_SIZE, 1, SCALE) == 1;
    assert BeginRound(m).Ok?;
    SoldKeeps(m, FIRST_SIZE);
  }

  /** Half a round of dust is carried over, and everybody's deposit is spent. */
  ghost predicate Carried(m: State) {
    && m.scale == SCALE && m.floorPrice == 1 && m.roundSize == FIRST_SIZE && m.lockPeriod == 0 && m.withdrawLock == 0
    && !m.sellPaused && !m.frozen && !m.roundStarted && m.roundCount == 1 && m.curWaln == 0 && m.curSpent == 0
    && |m.pool| == 1 && m.pool[0].investor == 0 && m.pool[0].aatVolume == 1 && m.nfts == map[0 := 1]
    && m.pool[0].usdcDeposited == 0 && m.pool[0].usdcLocked == 0
    && m.carryover == FIRST_SIZE - SCALE && m.usdcVault == 0 && m.walnVault == FIRST_SIZE
  }

  lemma SettingsKept(sold: State, now: i64)
    requires SettleRound(sold, now).Ok?
    ensures var n := SettleRound(sold, now).value;
      && n.lockPeriod == sold.lockPeriod && n.withdrawLock == sold.withdrawLock
      && n.sellPaused == sold.sellPaused && n.frozen == sold.frozen
  {
  }

  lemma FirstSettlement(sold: State) returns (idle: State)
    requires FirstSold(sold) && Filled(sold)
    ensures SettleRound(sold, 0).Ok? && idle == NothingLocked(SettleRound(sold, 0).value) && Carried(idle)
  {
    SettleSucceeds(sold, 0);
    SettingsKept(sold, 0);
    SingleBase(sold.pool[0], 1, SCALE);
    idle := SettleKeeps(sold, 0);
    var s, idle' := SettleRoundIs(sold, 0);
    FullPool(sold.pool, 1, SCALE, 0, 0);
  }

  lemma FirstRound(m: State)
    requires Inv(m) && Ready(m)
    ensures Carried(Apply(m, SellWaln(FIRST_SIZE, 0)))
  {
    FirstSale(m);
    var sold := SoldState(m, FIRST_SIZE).value;
    var idle := FirstSettlement(sold);
    assert idle.pool == [idle.pool[0]];
    NobodyStarts(idle.pool[0], idle.roundSize, idle.floorPrice, idle.scale);
    assert AutoStart(SettleRound(sold, 0).value) == Ok(idle);
    assert Sell(m, FIRST_SIZE, 0) == Ok(idle);
  }

  // ---------- the second round ----------

  function Reprice(): (trace: seq<Instruction>) {
    [ChangePrice(PRICE), ChangeSize(SIZE), DepositUsdc(0, CAP, 0)]
  }

  /** The price was raised and the investor can pay the new cap. */
  ghost predicate Funded(m: State) {
    && m.scale == SCALE && m.floorPrice == PRICE && m.roundSize == SIZE && m.lockPeriod == 0
    && !m.sellPaused && !m.frozen && !m.roundStarted && m.roundCount == 1 && m.curWaln == 0 && m.curSpent == 0
    && |m.pool| == 1 && m.pool[0].usdcDeposited == CAP && m.pool[0].usdcLocked == 0 && m.pool[0].aatVolume == 1
    && m.carryover == FIRST_SIZE - SCALE && m.usdcVault == CAP && m.walnVault == FIRST_SIZE
  }

  lemma Repriced(m: State)
    requires Inv(m) && Carried(m)
    ensures Funded(Run(m, Reprice()))
  {
    var raised := m.(floorPrice := PRICE);
    assert Apply(m, ChangePrice(PRICE)) == raised;
    var resized := raised.(roundSize := SIZE);
    assert Apply(raised, ChangeSize(SIZE)) == resized;
    FundedDeposit(m, resized);
    assert Reprice()[1..] == [ChangeSize(SIZE), DepositUsdc(0, CAP, 0)];
    assert Reprice()[1..][1..] == [DepositUsdc(0, CAP, 0)];
    assert Reprice()[1..][1..][1..] == [];
  }

  lemma FundedDeposit(m: State, resized: State)
    requires Inv(m) && Carried(m) && resized == m.(floorPrice := PRICE, roundSize := SIZE)
    ensures Funded(Apply(resized, DepositUsdc(0, CAP, 0)))
  {
    assert Keys(m.pool)[0] == 0;
    assert Column(m.pool, BalanceOf) == [0];
    SumOne(0);
  }

  /** Half of the second round is sold. */
  ghost predicate HalfSold(m: State) {
    && m.scale == SCALE && m.curPrice == PRICE && m.curSize == SIZE && m.curWaln == SCALE && m.curLockPeriod == 0
    && !m.sellPaused && !m.frozen && m.roundStarted && m.roundCount == 1
    && |m.pool| == 1 && m.pool[0].usdcLocked == CAP && m.carryover == FIRST_SIZE - SCALE
    && m.curSpent == PRICE && m.totalLocked == CAP && m.usdcVault == PRICE && m.walnVault == FIRST_SIZE + SCALE
  }

  lemma SecondSale(m: State)
    requires Inv(m) && Funded(m)
    ensures HalfSold(Apply(m, SellWaln(SCALE, 0)))
  {
    assert m.pool == [m.pool[0]];
    assert UsdcValue(SIZE, PRICE, SCALE) == CAP;
    assert UsdcValue(SCALE, PRICE, SCALE) == PRICE;
    SingleStart(m.pool[0], m.roundSize, m.floorPrice, m.scale);
    assert SaleAmount(m, SCALE) == Ok(SCALE);
    assert BeginRound(m).Ok?;
  }

  /** Whatever the clock says, the only participant gets the dust, which then is too much. */
  lemma DustTooMuch(m: State, now: i64)
    requires HalfSold(m)
    ensures !DustLoggable(m.pool, m.curPrice, m.scale, m.carryover, now)
  {
    assert LocksBefore(m.pool, 0) == 0 && LocksBefore(m.pool, 1) == 1;
    assert Picks(m.pool, now, 0);
    assert SCALE * CAP / PRICE == SIZE;
    assert UsdcValue(SIZE + (FIRST_SIZE - SCALE), PRICE, SCALE) > U64_MAX;
  }

  /** A run into a half-sold round in which sells are open, both vaults can move the rest,
      and clock and counter have room, yet no sale of the rest ever succeeds. Closing it by
      force does. */
  lemma FillingCanFail() returns (start: State, trace: seq<Instruction>, m: State)
    ensures Reached(start, trace, m) && Inv(m) && m.roundStarted && m.curWaln <= m.curSize
    ensures !m.frozen && !m.sellPaused && LastSalePayable(m) && m.roundCount < U64_MAX && m.curLockPeriod == 0
    ensures forall maxAmount: u64, now: i64 :: maxAmount >= m.curSize - m.curWaln ==> Sell(m, maxAmount, now).Err?
    ensures forall now: i64 :: CloseRound(m, now).Ok?
  {
    start := Initialize(1, FIRST_SIZE, 0, SCALE).value;
    var joining := [MintAatNft(0, 1), DepositUsdc(0, 1, 0)];
    var first, second := [SellWaln(FIRST_SIZE, 0)], [SellWaln(SCALE, 0)];
    trace := joining + first + Reprice() + second;
    var ready, carried, funded := Run(start, joining), Run(start, joining + first), Run(start, joining + first + Reprice());
    RunConcat(start, joining, first);
    RunConcat(start, joining + first, Reprice());
    RunConcat(start, joining + first + Reprice(), second);
    assert first[1..] == [] && second[1..] == [];
    Joining(start);
    ReachedInv(start, joining, ready);
    FirstRound(ready);
    ReachedInv(start, joining + first, carried);
    Repriced(carried);
    ReachedInv(start, joining + first + Reprice(), funded);
    SecondSale(funded);
    m := Run(start, trace);
    ReachedInv(start, trace, m);
    LastSaleFails(m);
    StillCloses(m);
  }

  lemma StillCloses(m: State)
    requires Inv(m) && HalfSold(m)
    ensures forall now: i64 :: CloseRound(m, now).Ok?
  {
    forall now: i64
      ensures CloseRound(m, now).Ok?
    {
      CloseRoundSucceeds(m, now);
    }
  }

  lemma LastSaleFails(m: State)
    requires Inv(m) && HalfSold(m)
    ensures LastSalePayable(m)
    ensures forall maxAmount: u64, now: i64 :: maxAmount >= m.curSize - m.curWaln ==> Sell(m, maxAmount, now).Err?
  {
    assert UsdcValue(SIZE - SCALE, PRICE, SCALE) == PRICE;
    forall maxAmount: u64, now: i64 | maxAmount >= m.curSize - m.curWaln
      ensures Sell(m, maxAmount, now).Err?
    {
      RoundCompletes(m, maxAmount, now);
      DustTooMuch(m, now);
    }
  }
}
