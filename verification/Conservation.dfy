/** Every instruction keeps the invariant, and what it does to the two vaults' excess, to
    the carried-over dust and to what investors are owed. */
module Conservation {
  import opened Arithmetic
  import opened Accounts
  import opened Settlement
  import opened Market
  import opened Invariant
  import opened RoundInvariant
  import opened Claims

  // ---------- full settlements ----------

  /** The state in which `ins` settles the round in full, if it does. */
  ghost predicate SettlesFully(m: State, ins: Instruction) {
    && ins.SellWaln? && Sell(m, ins.amount, ins.now).Ok? && SoldState(m, ins.amount).Ok?
    && SoldState(m, ins.amount).value.curWaln >= SoldState(m, ins.amount).value.curSize
  }

  ghost function AtSettlement(m: State, ins: Instruction): State
    requires SettlesFully(m, ins)
  {
    SoldState(m, ins.amount).value
  }

  ghost function CapOf(m: State): int {
    UsdcValue(m.curSize, m.curPrice, m.scale)
  }

  /** Locked by the settled round but not paid to its sellers; negative when the round
      paid out part of an unlocked gap. */
  ghost function Surplus(m: State, ins: Instruction): int {
    if SettlesFully(m, ins) then AtSettlement(m, ins).totalLocked - AtSettlement(m, ins).curSpent else 0
  }

  /** The unlocked gap of a round settled in full. */
  ghost function SettledGap(m: State, ins: Instruction): int {
    if SettlesFully(m, ins) then CapOf(AtSettlement(m, ins)) - AtSettlement(m, ins).totalLocked else 0
  }

  ghost function UsdcReceived(m: State, ins: Instruction): int {
    if ins.ReceiveUsdc? && m.usdcVault + ins.amount <= U64_MAX then ins.amount else 0
  }

  ghost function WalnReceived(m: State, ins: Instruction): int {
    if ins.ReceiveWaln? && m.walnVault + ins.amount <= U64_MAX then ins.amount else 0
  }

  // ---------- selling ----------

  /** A booked sale touches the current round's counters and the vaults, and the pool only
      when it had to open a round. */
  lemma SoldIs(m: State, maxAmount: u64) returns (sold: State)
    requires SoldState(m, maxAmount).Ok?
    ensures SoldState(m, maxAmount) == Ok(sold) && UsdcExcess(sold) - UsdcExcess(OpenFor(m).value) == 0
    ensures sold.carryover == m.carryover && sold.rounds == m.rounds && sold.records == m.records
    ensures sold.roundCount == m.roundCount && sold.scale == m.scale && OpenFor(m).Ok?
    ensures var open := OpenFor(m).value;
      && sold.pool == open.pool && sold.curPrice == open.curPrice && sold.curSize == open.curSize
      && sold.curLockPeriod == open.curLockPeriod && sold.totalLocked == open.totalLocked
      && sold.curWaln > open.curWaln && sold.curSpent > open.curSpent
  {
    sold := SoldState(m, maxAmount).value;
  }

  lemma SoldConserves(m: State, maxAmount: u64)
    requires Inv(m) && SoldState(m, maxAmount).Ok?
    ensures var sold := SoldState(m, maxAmount).value;
      && UsdcExcess(sold) == UsdcExcess(m) && sold.carryover == m.carryover && sold.rounds == m.rounds
  {
    OpenKeeps(m);
    var sold := SoldIs(m, maxAmount);
  }

  /** What a sell does: a sale booked in the open round, or the settlement of the round it
      filled followed by the automatic start of the next. */
  lemma SellIs(m: State, maxAmount: u64, now: i64) returns (sold: State, n: State)
    requires Sell(m, maxAmount, now).Ok?
    ensures n == Sell(m, maxAmount, now).value && SoldState(m, maxAmount) == Ok(sold)
    ensures if sold.curWaln < sold.curSize then n == sold
      else SettleRound(sold, now).Ok? && AutoStart(SettleRound(sold, now).value) == Ok(n)
  {
    n := Sell(m, maxAmount, now).value;
    sold := SoldState(m, maxAmount).value;
  }

  /** The automatic start after a settlement: locks only. */
  lemma AutoStartConserves(m: State, n: State)
    requires Inv(NothingLocked(m)) && !m.roundStarted && AutoStart(m) == Ok(n)
    ensures Inv(n) && WalnExcess(n) == WalnExcess(m) && UsdcExcess(n) == UsdcExcess(m)
    ensures n.carryover == m.carryover && n.rounds == m.rounds && n.roundCount == m.roundCount && n.walnVault == m.walnVault
    ensures n.usdcVault == m.usdcVault && n.records == m.records && n.curWaln == 0
  {
    AutoStartKeeps(m);
  }

  lemma SettleConserves(sold: State, now: i64)
    requires Filled(sold) && SettleRound(sold, now).Ok?
    ensures UsdcExcess(SettleRound(sold, now).value) == UsdcExcess(sold) + sold.totalLocked - sold.curSpent
  {
    var s, n := SettleRoundIs(sold, now);
    FullFacts(sold, now);
  }

  lemma SellConserves(m: State, maxAmount: u64, now: i64) returns (n: State)
    requires Inv(m) && Sell(m, maxAmount, now).Ok?
    ensures n == Sell(m, maxAmount, now).value && Inv(n) && WalnExcess(n) == WalnExcess(m)
    ensures UsdcExcess(n) == UsdcExcess(m) + Surplus(m, SellWaln(maxAmount, now))
    ensures !SettlesFully(m, SellWaln(maxAmount, now)) ==>
      n.carryover == m.carryover && n.roundCount == m.roundCount && n.rounds == m.rounds
    ensures SettlesFully(m, SellWaln(maxAmount, now)) ==>
      var sold := AtSettlement(m, SellWaln(maxAmount, now));
      && Filled(sold) && n.roundCount == m.roundCount + 1 && sold.roundCount == m.roundCount && sold.rounds == m.rounds
      && n.carryover == sold.curSize - Sum(BaseAmounts(sold.pool, sold.curPrice, sold.scale))
  {
    var sold;
    sold, n := SellIs(m, maxAmount, now);
    SoldKeeps(m, maxAmount);
    SoldConserves(m, maxAmount);
    if sold.curWaln == sold.curSize {
      var idle := SettleKeeps(sold, now);
      SettleConserves(sold, now);
      AutoStartConserves(SettleRound(sold, now).value, n);
    }
  }

  // ---------- the other instructions ----------

  lemma CloseRoundConserves(m: State, now: i64) returns (n: State)
    requires Inv(m) && CloseRound(m, now).Ok?
    ensures CloseRound(m, now) == Ok(n) && Inv(n) && WalnExcess(n) == WalnExcess(m) && UsdcExcess(n) == UsdcExcess(m)
    ensures n.carryover == m.carryover && n.roundCount == m.roundCount + 1
  {
    n := CloseRoundKeeps(m, now);
    ForcedFacts(m);
    var s, n' := CloseRoundIs(m, now);
  }

  lemma CancelIs(m: State) returns (n: State)
    requires Inv(m) && CancelRound(m).Ok?
    ensures CancelRound(m) == Ok(n) && n.rounds == m.rounds && n.carryover == m.carryover && n.roundCount == m.roundCount
    ensures m.curSpent == 0 && n.usdcVault == m.usdcVault && n.lobby == m.lobby && n.curSpent == 0
  {
    n := CancelRound(m).value;
    assert SalesOk(m);
  }

  lemma CancelConserves(m: State) returns (n: State)
    requires Inv(m) && CancelRound(m).Ok?
    ensures CancelRound(m) == Ok(n) && Inv(n) && WalnExcess(n) == WalnExcess(m) && UsdcExcess(n) == UsdcExcess(m)
    ensures n.carryover == m.carryover && n.roundCount == m.roundCount && n.rounds == m.rounds
  {
    CancelKeeps(m);
    n := CancelIs(m);
  }

  /** Instructions that only set parameters, flags or drop a round record. */
  predicate Administrative(ins: Instruction) {
    ins.ChangePrice? || ins.ChangeSize? || ins.ChangeLockPeriod? || ins.ChangeWithdrawLock? ||
    ins.PauseSells? || ins.Freeze? || ins.DropRecord?
  }

  lemma AdministrativeIs(m: State, ins: Instruction) returns (n: State)
    requires Administrative(ins) && Step(m, ins).Ok? && ConfigOk(m)
    ensures Step(m, ins) == Ok(n) && Quiet(m, n) && n.pool == m.pool && n.nfts == m.nfts && n.totalAat == m.totalAat
    ensures ConfigOk(n) && n.lobby == m.lobby
  {
    n := Step(m, ins).value;
  }

  lemma AdministrativeKeeps(m: State, ins: Instruction) returns (n: State)
    requires Inv(m) && Administrative(ins) && Step(m, ins).Ok?
    ensures Step(m, ins) == Ok(n) && Inv(n) && Quiet(m, n) && WalnExcess(n) == WalnExcess(m)
  {
    n := AdministrativeIs(m, ins);
    QuietKeeps(m, n);
  }

  lemma ReceiveKeeps(m: State, ins: Instruction) returns (n: State)
    requires Inv(m) && (ins.ReceiveUsdc? || ins.ReceiveWaln?) && Step(m, ins).Ok?
    ensures Step(m, ins) == Ok(n) && Inv(n) && n.carryover == m.carryover && n.roundCount == m.roundCount && n.rounds == m.rounds
    ensures WalnExcess(n) == WalnExcess(m) + (if ins.ReceiveWaln? then ins.amount else 0)
    ensures UsdcExcess(n) == UsdcExcess(m) + (if ins.ReceiveUsdc? then ins.amount else 0)
  {
    n := Step(m, ins).value;
    RoundUnaffected(m, n);
    assert PoolOk(n) && AatOk(n) && LobbyOk(n) && ConfigOk(n) && ClaimsOk(n);
  }

  /** Instructions that leave the round, the round accounts and the excesses alone. */
  predicate IsQuiet(ins: Instruction) {
    ins.DepositUsdc? || ins.WithdrawUsdc? || ins.RemoveInvestor? || ins.MintAatNft? || ins.UpdateAatVolume? ||
    ins.ChangeUnlock? || Administrative(ins)
  }

  lemma QuietStep(m: State, ins: Instruction) returns (n: State)
    requires Inv(m) && IsQuiet(ins) && Step(m, ins).Ok?
    ensures Step(m, ins) == Ok(n) && Inv(n) && Quiet(m, n) && WalnExcess(n) == WalnExcess(m)
  {
    match ins
    case DepositUsdc(investor, amount, now) => n := DepositKeeps(m, investor, amount, now);
    case WithdrawUsdc(investor, amount, now) => n := WithdrawKeeps(m, investor, amount, now);
    case RemoveInvestor(investor) => n := RemoveKeeps(m, investor);
    case MintAatNft(investor, volume) => n := MintKeeps(m, investor, volume);
    case UpdateAatVolume(investor, volume) => n := UpdateAatKeeps(m, investor, volume);
    case ChangeUnlock(investor, unlock) => n := SetUnlockKeeps(m, investor, unlock);
    case _ => n := AdministrativeKeeps(m, ins);
  }

  lemma ClaimConserves(m: State, investor: Pubkey, round: u64, now: i64) returns (n: State)
    requires Inv(m) && Claim(m, investor, round, now).Ok?
    ensures Claim(m, investor, round, now) == Ok(n) && Inv(n) && WalnExcess(n) == WalnExcess(m)
    ensures UsdcExcess(n) == UsdcExcess(m) && n.carryover == m.carryover && n.roundCount == m.roundCount
  {
    n := ClaimKeeps(m, investor, round, now);
    var k, n' := ClaimIs(m, investor, round, now);
  }

  /** The effect of one instruction on the invariant and the conserved quantities. */
  ghost predicate Conserved(m: State, ins: Instruction, n: State) {
    && Inv(n)
    && WalnExcess(n) == WalnExcess(m) + WalnReceived(m, ins)
    && UsdcExcess(n) == UsdcExcess(m) + UsdcReceived(m, ins) + Surplus(m, ins)
    && (!SettlesFully(m, ins) ==> n.carryover == m.carryover)
    && m.roundCount <= n.roundCount
  }

  lemma SellStepConserves(m: State, maxAmount: u64, now: i64) returns (n: State)
    requires Inv(m) && Sell(m, maxAmount, now).Ok?
    ensures Sell(m, maxAmount, now) == Ok(n) && Conserved(m, SellWaln(maxAmount, now), n)
  {
    n := SellConserves(m, maxAmount, now);
  }

  /** Instructions other than sells and outside transfers leave the quantities alone. */
  lemma SameConserves(m: State, ins: Instruction, n: State)
    requires !ins.SellWaln? && !ins.ReceiveUsdc? && !ins.ReceiveWaln?
    requires Inv(n) && WalnExcess(n) == WalnExcess(m) && UsdcExcess(n) == UsdcExcess(m)
    requires n.carryover == m.carryover && m.roundCount <= n.roundCount
    ensures Conserved(m, ins, n)
  {
  }

  lemma RoundStepConserves(m: State, ins: Instruction)
    requires Inv(m) && Step(m, ins).Ok? && !IsQuiet(ins)
    ensures Conserved(m, ins, Step(m, ins).value)
  {
    var n;
    match ins
    case SellWaln(amount, now) =>
      n := SellStepConserves(m, amount, now);
    case ClaimWaln(investor, round, now) =>
      n := ClaimConserves(m, investor, round, now);
      SameConserves(m, ins, n);
    case ForceClose(now) =>
      n := CloseRoundConserves(m, now);
      SameConserves(m, ins, n);
    case Cancel =>
      n := CancelConserves(m);
      SameConserves(m, ins, n);
    case _ =>
      n := ReceiveKeeps(m, ins);
  }

  lemma QuietStepConserves(m: State, ins: Instruction)
    requires Inv(m) && Step(m, ins).Ok? && IsQuiet(ins)
    ensures Conserved(m, ins, Step(m, ins).value)
  {
    var n := QuietStep(m, ins);
    SameConserves(m, ins, n);
  }

  /** Every instruction, successful or not, keeps the invariant. Only outside transfers
      change the wALN excess; the USDC excess changes by those and by what a full
      settlement locked beyond what it paid; only a full settlement changes the carryover. */
  lemma StepConserves(m: State, ins: Instruction)
    requires Inv(m)
    ensures Conserved(m, ins, Apply(m, ins))
  {
    if Step(m, ins).Ok? {
      if IsQuiet(ins) {
        QuietStepConserves(m, ins);
      } else {
        RoundStepConserves(m, ins);
      }
    }
  }
}
