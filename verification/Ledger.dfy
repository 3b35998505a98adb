/** Both vaults as ledgers: what every instruction moves in and out, by the amounts that were
    asked for, adds up to the balances. */
module Ledger {
  import opened Arithmetic
  import opened Accounts
  import opened Market
  import opened Invariant
  import opened Claims
  import opened Conservation
  import opened Runs
  import opened RoundRuns
  import opened LobbyEffects
  import opened SaleEffects

  /** What the investor has in the lobby, outside of the current round. */
  ghost function DepositBy(m: State, investor: Pubkey): int {
    var k := IndexOf(Keys(m.pool), investor);
    if k < |m.pool| then m.pool[k].usdcDeposited else 0
  }

  /** USDC into the vault: deposits and transfers as asked for, less withdrawals, refunds and
      what sellers are paid. A failed instruction moves nothing. */
  ghost function UsdcMoved(m: State, ins: Instruction): int {
    if Step(m, ins).Err? then 0 else
    match ins
    case DepositUsdc(_, amount, _) => amount
    case WithdrawUsdc(investor, amount, _) => -(if amount == U64_MAX then DepositBy(m, investor) else amount)
    case RemoveInvestor(investor) => -DepositBy(m, investor)
    case SellWaln(amount, _) => -PaidFor(m, amount)
    case ReceiveUsdc(amount) => amount
    case _ => 0
  }

  /** wALN into the vault: sales and transfers, less claims. */
  ghost function WalnMoved(m: State, ins: Instruction): int {
    if Step(m, ins).Err? then 0 else
    match ins
    case SellWaln(amount, _) => TakenBy(m, amount)
    case ClaimWaln(investor, round, _) => -Owed(m, round, investor)
    case ReceiveWaln(amount) => amount
    case _ => 0
  }

  ghost predicate Moves(m: State, ins: Instruction, n: State) {
    n.usdcVault == m.usdcVault + UsdcMoved(m, ins) && n.walnVault == m.walnVault + WalnMoved(m, ins)
  }

  lemma DepositByAt(m: State, investor: Pubkey, k: nat)
    requires Inv(m) && Slot(m.pool, investor, k)
    ensures DepositBy(m, investor) == if k < |m.pool| then m.pool[k].usdcDeposited else 0
  {
    SlotIs(m.pool, investor, k);
  }

  lemma LobbyMoves(m: State, ins: Instruction)
    requires Inv(m) && Step(m, ins).Ok? && (ins.DepositUsdc? || ins.WithdrawUsdc? || ins.RemoveInvestor?)
    ensures Moves(m, ins, Step(m, ins).value)
  {
    match ins
    case DepositUsdc(investor, amount, now) =>
      var k := DepositEffect(m, investor, amount, now);
    case WithdrawUsdc(investor, amount, now) =>
      var k := WithdrawEffect(m, investor, amount, now);
      DepositByAt(m, investor, k);
    case RemoveInvestor(investor) =>
      var k := RemoveEffect(m, investor);
      DepositByAt(m, investor, k);
  }

  lemma SellMovesTokens(m: State, amount: u64, now: i64)
    requires Inv(m) && Sell(m, amount, now).Ok?
    ensures Moves(m, SellWaln(amount, now), Sell(m, amount, now).value)
  {
    SellerPaid(m, amount, now);
  }

  lemma ClaimMovesTokens(m: State, investor: Pubkey, round: u64, now: i64)
    requires Inv(m) && Claim(m, investor, round, now).Ok?
    ensures Moves(m, ClaimWaln(investor, round, now), Claim(m, investor, round, now).value)
  {
    ClaimPays(m, investor, round, now);
    ClaimKeepsUsdc(m, investor, round, now);
  }

  lemma ClaimKeepsUsdc(m: State, investor: Pubkey, round: u64, now: i64)
    requires Claim(m, investor, round, now).Ok?
    ensures Claim(m, investor, round, now).value.usdcVault == m.usdcVault
  {
  }

  lemma RoundMoves(m: State, ins: Instruction)
    requires Inv(m) && Step(m, ins).Ok? && (ins.SellWaln? || ins.ClaimWaln? || ins.ForceClose? || ins.Cancel?)
    ensures Moves(m, ins, Step(m, ins).value)
  {
    match ins
    case SellWaln(amount, now) => SellMovesTokens(m, amount, now);
    case ClaimWaln(investor, round, now) => ClaimMovesTokens(m, investor, round, now);
    case ForceClose(now) => CloseMoves(m, now);
    case Cancel => var n := CancelConserves(m);
  }

  lemma CloseMoves(m: State, now: i64)
    requires Inv(m) && CloseRound(m, now).Ok?
    ensures CloseRound(m, now).value.usdcVault == m.usdcVault && CloseRound(m, now).value.walnVault == m.walnVault
  {
  }

  lemma OtherMoves(m: State, ins: Instruction)
    requires Inv(m) && Step(m, ins).Ok?
    requires ins.MintAatNft? || ins.UpdateAatVolume? || ins.ChangeUnlock? || ins.ReceiveUsdc? || ins.ReceiveWaln?
    ensures Moves(m, ins, Step(m, ins).value)
  {
  }

  lemma SettingsMoveNothing(m: State, ins: Instruction)
    requires Inv(m) && Step(m, ins).Ok? && Administrative(ins)
    ensures Moves(m, ins, Step(m, ins).value)
  {
  }

  /** One instruction, successful or not, changes the vaults by just that. */
  lemma VaultStep(m: State, ins: Instruction)
    requires Inv(m)
    ensures Moves(m, ins, Apply(m, ins))
  {
    if Step(m, ins).Ok? {
      if ins.DepositUsdc? || ins.WithdrawUsdc? || ins.RemoveInvestor? {
        LobbyMoves(m, ins);
      } else if ins.SellWaln? || ins.ClaimWaln? || ins.ForceClose? || ins.Cancel? {
        RoundMoves(m, ins);
      } else if Administrative(ins) {
        SettingsMoveNothing(m, ins);
      } else {
        OtherMoves(m, ins);
      }
    }
  }

  lemma {:induction false} VaultsOverRun(m: State, trace: seq<Instruction>)
    requires Inv(m)
    ensures Run(m, trace).usdcVault == m.usdcVault + Over(m, trace, UsdcMoved)
    ensures Run(m, trace).walnVault == m.walnVault + Over(m, trace, WalnMoved)
    decreases |trace|
  {
    if |trace| > 0 {
      StepConserves(m, trace[0]);
      VaultStep(m, trace[0]);
      VaultsOverRun(Apply(m, trace[0]), trace[1..]);
    }
  }

  /** Over any run from initialization each vault holds exactly what was moved in less what
      was moved out. */
  lemma Ledgers(start: State, trace: seq<Instruction>, m: State)
    requires Reached(start, trace, m)
    ensures m.usdcVault == Over(start, trace, UsdcMoved) && m.walnVault == Over(start, trace, WalnMoved)
  {
    InitialState(start);
    VaultsOverRun(start, trace);
    StartsEmpty(start, trace, m);
  }

  lemma StartsEmpty(start: State, trace: seq<Instruction>, m: State)
    requires Reached(start, trace, m)
    ensures start.usdcVault == 0 && start.walnVault == 0
  {
  }

  /** Over any run while a round lasts, what it has sold and paid grows by exactly the sums of
      what its sells took and what their sellers got. */
  lemma {:induction false} SalesAddUp(m: State, trace: seq<Instruction>)
    requires Inv(m) && SameRound(m, trace)
    ensures Run(m, trace).curWaln == m.curWaln + Over(m, trace, SoldIn)
    ensures Run(m, trace).curSpent == m.curSpent + Over(m, trace, PaidIn)
    decreases |trace|
  {
    if |trace| > 0 {
      StepConserves(m, trace[0]);
      SalesStep(m, trace[0]);
      SalesAddUp(Apply(m, trace[0]), trace[1..]);
    }
  }

  ghost function SoldIn(m: State, ins: Instruction): int {
    if ins.SellWaln? && Step(m, ins).Ok? then TakenBy(m, ins.amount) else 0
  }

  ghost function PaidIn(m: State, ins: Instruction): int {
    if ins.SellWaln? && Step(m, ins).Ok? then PaidFor(m, ins.amount) else 0
  }

  lemma SalesStep(m: State, ins: Instruction)
    requires Inv(m) && m.roundStarted && Apply(m, ins).roundStarted && Apply(m, ins).roundCount == m.roundCount
    ensures Apply(m, ins).curWaln == m.curWaln + SoldIn(m, ins) && Apply(m, ins).curSpent == m.curSpent + PaidIn(m, ins)
  {
    if Step(m, ins).Ok? {
      if IsQuiet(ins) {
        var n := QuietStep(m, ins);
      } else {
        match ins
        case SellWaln(amount, now) =>
          var n := SellConserves(m, amount, now);
          var sold, n' := SellIs(m, amount, now);
          var sold' := BookedMoves(m, amount);
        case ClaimWaln(investor, round, now) => var k := ClaimEffect(m, investor, round, now);
        case ForceClose(now) => var n := CloseRoundConserves(m, now);
        case _ =>
      }
    }
  }
}
