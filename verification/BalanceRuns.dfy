/** Each investor's own balance over a run: between settlements it moves only by the
    investor's own payments, so cancelling a round gives the deposit back. */
module BalanceRuns {
  import opened Arithmetic
  import opened Accounts
  import opened SettlementEffects
  import opened Market
  import opened Invariant
  import opened RoundInvariant
  import opened Claims
  import opened Conservation
  import opened Runs
  import opened Ledger
  import opened RoundStarts

  /** Deposit and lock of `key` in a record. */
  function BalanceFor(key: Pubkey): InvestorRecord -> int {
    (r: InvestorRecord) => if r.investor == key then r.usdcDeposited + r.usdcLocked else 0
  }

  function DepositFor(key: Pubkey): InvestorRecord -> int {
    (r: InvestorRecord) => if r.investor == key then r.usdcDeposited else 0
  }

  ghost function HeldBy(m: State, key: Pubkey): int {
    Total(m.pool, BalanceFor(key))
  }

  /** USDC that `key`'s own deposit, withdrawal or removal moves into the vault: the amount
      asked for, or the whole deposit taken out. */
  ghost function FlowOf(key: Pubkey): (State, Instruction) -> int {
    (m: State, ins: Instruction) =>
      if (ins.DepositUsdc? || ins.WithdrawUsdc? || ins.RemoveInvestor?) && ins.investor == key then UsdcMoved(m, ins) else 0
  }

  /** Records of the same investors with the same balances. */
  ghost predicate SameBalances(p: seq<InvestorRecord>, q: seq<InvestorRecord>) {
    |p| == |q| && forall i :: 0 <= i < |p| ==> q[i].investor == p[i].investor && BalanceOf(q[i]) == BalanceOf(p[i])
  }

  lemma SameBalancesHeld(p: seq<InvestorRecord>, q: seq<InvestorRecord>, key: Pubkey)
    requires SameBalances(p, q)
    ensures Total(q, BalanceFor(key)) == Total(p, BalanceFor(key))
  {
    forall i | 0 <= i < |p|
      ensures BalanceFor(key)(p[i]) == BalanceFor(key)(q[i])
    {
      assert BalanceOf(q[i]) == BalanceOf(p[i]);
    }
    TotalAgree(p, q, BalanceFor(key), BalanceFor(key));
  }

  // ---------- the investor's own instructions ----------

  lemma DepositMoves(m: State, investor: Pubkey, amount: u64, now: i64, key: Pubkey)
    requires Inv(m) && Deposit(m, investor, amount, now).Ok?
    ensures var n := Deposit(m, investor, amount, now).value;
      && HeldBy(n, key) == HeldBy(m, key) + (if investor == key then amount else 0)
      && n.usdcVault == m.usdcVault + amount
  {
    var n, k, r := DepositIs(m, investor, amount, now);
    var base := Enrolled(m.pool, investor);
    EnrolledKeeps(m.pool, investor);
    if k == |m.pool| {
      TotalAppend(m.pool, NewRecord(investor), BalanceFor(key));
    }
    TotalUpdate(base, k, r, BalanceFor(key));
  }

  lemma WithdrawMoves(m: State, investor: Pubkey, amount: u64, now: i64, key: Pubkey)
    requires Inv(m) && Withdraw(m, investor, amount, now).Ok?
    ensures var n := Withdraw(m, investor, amount, now).value;
      HeldBy(n, key) == HeldBy(m, key) + (if investor == key then n.usdcVault - m.usdcVault else 0)
  {
    var n := Withdraw(m, investor, amount, now).value;
    var k := IndexOf(Keys(m.pool), investor);
    assert Keys(m.pool)[k] == investor;
    TotalUpdate(m.pool, k, n.pool[k], BalanceFor(key));
  }

  lemma RemoveMoves(m: State, investor: Pubkey, key: Pubkey)
    requires Inv(m) && Remove(m, investor).Ok?
    ensures var n := Remove(m, investor).value;
      HeldBy(n, key) == HeldBy(m, key) + (if investor == key then n.usdcVault - m.usdcVault else 0)
  {
    var k := IndexOf(Keys(m.pool), investor);
    assert Keys(m.pool)[k] == investor;
    TotalSwapRemove(m.pool, k, BalanceFor(key));
  }

  lemma OwnMoves(m: State, ins: Instruction, key: Pubkey)
    requires Inv(m) && (ins.DepositUsdc? || ins.WithdrawUsdc? || ins.RemoveInvestor?) && Step(m, ins).Ok?
    ensures HeldBy(Step(m, ins).value, key) == HeldBy(m, key) + FlowOf(key)(m, ins)
  {
    VaultStep(m, ins);
    match ins
    case DepositUsdc(investor, amount, now) => DepositMoves(m, investor, amount, now, key);
    case WithdrawUsdc(investor, amount, now) => WithdrawMoves(m, investor, amount, now, key);
    case RemoveInvestor(investor) => RemoveMoves(m, investor, key);
  }

  lemma QuietMoves(m: State, ins: Instruction, key: Pubkey)
    requires Inv(m) && IsQuiet(ins) && Step(m, ins).Ok?
    ensures HeldBy(Step(m, ins).value, key) == HeldBy(m, key) + FlowOf(key)(m, ins)
  {
    if ins.DepositUsdc? || ins.WithdrawUsdc? || ins.RemoveInvestor? {
      OwnMoves(m, ins, key);
    } else {
      NobodyMoves(m, ins);
      SameBalancesHeld(m.pool, Step(m, ins).value.pool, key);
    }
  }

  lemma NobodyMoves(m: State, ins: Instruction)
    requires Inv(m) && Step(m, ins).Ok?
    requires ins.MintAatNft? || ins.UpdateAatVolume? || ins.ChangeUnlock? || Administrative(ins)
    ensures SameBalances(m.pool, Step(m, ins).value.pool)
  {
    if Administrative(ins) {
      var n := AdministrativeIs(m, ins);
    }
  }

  // ---------- everything else ----------

  lemma BeginMoves(m: State, key: Pubkey)
    requires Inv(m) && !m.roundStarted && BeginRound(m).Ok?
    ensures HeldBy(BeginRound(m).value, key) == HeldBy(m, key)
  {
    BeginKeeps(m);
    SameBalancesHeld(m.pool, BeginRound(m).value.pool, key);
  }

  lemma OpenMoves(m: State, key: Pubkey)
    requires Inv(m) && OpenFor(m).Ok?
    ensures Total(OpenFor(m).value.pool, BalanceFor(key)) == HeldBy(m, key)
  {
    if !m.roundStarted {
      BeginMoves(m, key);
    }
  }

  lemma SellMoves(m: State, maxAmount: u64, now: i64, key: Pubkey)
    requires Inv(m) && Sell(m, maxAmount, now).Ok? && Sell(m, maxAmount, now).value.roundCount == m.roundCount
    ensures HeldBy(Sell(m, maxAmount, now).value, key) == HeldBy(m, key)
  {
    var n := SellConserves(m, maxAmount, now);
    var sold, n' := SellIs(m, maxAmount, now);
    var sold' := SoldIs(m, maxAmount);
    OpenMoves(m, key);
  }

  lemma CancelMoves(m: State, key: Pubkey)
    requires Inv(m) && CancelRound(m).Ok?
    ensures HeldBy(CancelRound(m).value, key) == HeldBy(m, key)
    ensures Total(CancelRound(m).value.pool, DepositFor(key)) == HeldBy(m, key)
  {
    var n := CancelRound(m).value;
    SameBalancesHeld(m.pool, n.pool, key);
    TotalAgree(n.pool, n.pool, BalanceFor(key), DepositFor(key));
  }

  /** Without a settlement, an instruction changes an investor's balance by that
      investor's own payments only. */
  lemma BalanceStep(m: State, ins: Instruction, key: Pubkey)
    requires Inv(m) && Apply(m, ins).roundCount == m.roundCount
    ensures HeldBy(Apply(m, ins), key) == HeldBy(m, key) + FlowOf(key)(m, ins)
  {
    if Step(m, ins).Ok? {
      if IsQuiet(ins) {
        QuietMoves(m, ins, key);
      } else {
        match ins
        case SellWaln(amount, now) => SellMoves(m, amount, now, key);
        case ClaimWaln(investor, round, now) => var k, n := ClaimIs(m, investor, round, now);
        case ForceClose(now) => var n := CloseRoundConserves(m, now);
        case Cancel => CancelMoves(m, key);
        case _ =>
      }
    }
  }

  lemma {:induction false} BalanceOverRun(m: State, trace: seq<Instruction>, key: Pubkey)
    requires Inv(m) && Run(m, trace).roundCount == m.roundCount
    ensures HeldBy(Run(m, trace), key) == HeldBy(m, key) + Over(m, trace, FlowOf(key))
    decreases |trace|
  {
    if |trace| > 0 {
      StepConserves(m, trace[0]);
      RunKeeps(Apply(m, trace[0]), trace[1..]);
      BalanceStep(m, trace[0], key);
      BalanceOverRun(Apply(m, trace[0]), trace[1..], key);
    }
  }

  lemma CancelledDeposits(m: State, key: Pubkey)
    requires Inv(m) && CancelRound(m).Ok?
    ensures var after := CancelRound(m).value;
      Total(after.pool, DepositFor(key)) == HeldBy(m, key) && after.lobby == Total(after.pool, DepositOf)
  {
    CancelMoves(m, key);
    CancelKeeps(m);
    UnlockedTotals(CancelRound(m).value.pool);
  }

  lemma SettlementLeavesDeposits(sold: State, now: i64, key: Pubkey)
    requires Filled(sold) && SettleRound(sold, now).Ok?
    ensures Total(SettleRound(sold, now).value.pool, DepositFor(key)) == Total(sold.pool, DepositFor(key))
  {
    var s, idle := SettleRoundIs(sold, now);
    FullPool(sold.pool, sold.curPrice, sold.scale, sold.carryover, now);
    TotalAgree(sold.pool, s.pool, DepositFor(key), DepositFor(key));
  }

  /** Cancelling gives back what the start locked, over any run in between. */
  lemma CancelAfterStart(idle: State, n: State, trace: seq<Instruction>, key: Pubkey)
    requires Inv(idle) && !idle.roundStarted && BeginRound(idle) == Ok(n)
    requires Run(n, trace).roundCount == n.roundCount && CancelRound(Run(n, trace)).Ok?
    ensures var after := CancelRound(Run(n, trace)).value;
      && Total(after.pool, DepositFor(key)) == Total(idle.pool, DepositFor(key)) + Over(n, trace, FlowOf(key))
      && after.lobby == Total(after.pool, DepositOf)
  {
    BeginKeeps(idle);
    BeginMoves(idle, key);
    RunKeeps(n, trace);
    BalanceOverRun(n, trace, key);
    CancelledDeposits(Run(n, trace), key);
    TotalAgree(idle.pool, idle.pool, BalanceFor(key), DepositFor(key));
  }

  lemma AutoStartFromDeposits(m: State, maxAmount: u64, now: i64, key: Pubkey) returns (idle: State)
    requires Inv(m) && SettlesFully(m, SellWaln(maxAmount, now)) && Apply(m, SellWaln(maxAmount, now)).roundStarted
    ensures Inv(idle) && !idle.roundStarted && BeginRound(idle) == Ok(Apply(m, SellWaln(maxAmount, now)))
    ensures OpenFor(m).Ok? && Total(idle.pool, DepositFor(key)) == Total(OpenFor(m).value.pool, DepositFor(key))
  {
    var sold;
    sold, idle := AutoStarted(m, maxAmount, now);
    SettlementLeavesDeposits(sold, now, key);
  }

  /** Start, then cancel: after a sale that settled a round and started the next, over any
      run without another settlement, cancelling leaves each investor the deposit from
      before that sale (or, if the sale opened the settled round itself, what that start
      left of it) plus the investor's own payments, and a lobby of just the deposits. */
  lemma CancelRestores(m: State, maxAmount: u64, now: i64, n: State, trace: seq<Instruction>, key: Pubkey)
    requires Inv(m) && SettlesFully(m, SellWaln(maxAmount, now)) && Apply(m, SellWaln(maxAmount, now)) == n
    requires n.roundStarted && Run(n, trace).roundCount == n.roundCount && CancelRound(Run(n, trace)).Ok?
    ensures OpenFor(m).Ok? && (m.roundStarted ==> OpenFor(m).value == m)
    ensures var after := CancelRound(Run(n, trace)).value;
      && Total(after.pool, DepositFor(key)) == Total(OpenFor(m).value.pool, DepositFor(key)) + Over(n, trace, FlowOf(key))
      && after.lobby == Total(after.pool, DepositOf)
  {
    var idle := AutoStartFromDeposits(m, maxAmount, now, key);
    CancelAfterStart(idle, n, trace, key);
  }
}
