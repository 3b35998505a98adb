/** Claims over whole runs: every allocation of a settled round is paid at most once, and
    what was paid and what is still owed always add up to what was allocated. */
module ClaimRuns {
  import opened Arithmetic
  import opened Accounts
  import opened Settlement
  import opened Market
  import opened Invariant
  import opened RoundInvariant
  import opened Claims
  import opened Conservation
  import opened Runs

  /** `ins` pays `investor` the allocation of `round`. */
  ghost predicate PaysOut(m: State, ins: Instruction, round: nat, investor: Pubkey) {
    ins.ClaimWaln? && ins.round == round && ins.investor == investor && Claim(m, ins.investor, ins.round, ins.now).Ok?
  }

  /** The tokens such a claim moves out of the vault. */
  ghost function PaymentTo(round: nat, investor: Pubkey): (State, Instruction) -> int {
    (m: State, ins: Instruction) => if PaysOut(m, ins, round, investor) then m.walnVault - Apply(m, ins).walnVault else 0
  }

  ghost function ClaimsBy(round: nat, investor: Pubkey): (State, Instruction) -> int {
    (m: State, ins: Instruction) => if PaysOut(m, ins, round, investor) then 1 else 0
  }

  /** Two states agree on the accounts of the rounds settled before `m`. */
  ghost predicate SameAccounts(m: State, n: State) {
    forall r :: 0 <= r < m.roundCount ==> (r in m.rounds <==> r in n.rounds) && (r in m.rounds ==> n.rounds[r] == m.rounds[r])
  }

  lemma ConcludedAccounts(m: State, s: Settled, n: State)
    requires Concluded(m, s, n)
    ensures SameAccounts(m, n)
  {
  }

  lemma SellLeavesAccounts(m: State, maxAmount: u64, now: i64) returns (n: State)
    requires Inv(m) && Sell(m, maxAmount, now).Ok?
    ensures Sell(m, maxAmount, now) == Ok(n) && SameAccounts(m, n)
  {
    var sold;
    sold, n := SellIs(m, maxAmount, now);
    SoldKeeps(m, maxAmount);
    var sold' := SoldIs(m, maxAmount);
    if sold.curWaln == sold.curSize {
      var s, idle := SettleRoundIs(sold, now);
      var kept := SettleKeeps(sold, now);
      AutoStartConserves(SettleRound(sold, now).value, n);
      ConcludedAccounts(sold, s, idle);
      assert n.rounds == idle.rounds;
    }
  }

  lemma CloseLeavesAccounts(m: State, now: i64) returns (n: State)
    requires Inv(m) && CloseRound(m, now).Ok?
    ensures CloseRound(m, now) == Ok(n) && SameAccounts(m, n)
  {
    var s;
    s, n := CloseRoundIs(m, now);
    ConcludedAccounts(m, s, n);
  }

  /** No instruction but a claim touches the accounts of settled rounds. */
  lemma OthersLeaveAccounts(m: State, ins: Instruction) returns (n: State)
    requires Inv(m) && !ins.ClaimWaln? && Step(m, ins).Ok?
    ensures Step(m, ins) == Ok(n) && SameAccounts(m, n)
  {
    if IsQuiet(ins) {
      n := QuietStep(m, ins);
    } else {
      match ins
      case SellWaln(amount, now) => n := SellLeavesAccounts(m, amount, now);
      case ForceClose(now) => n := CloseLeavesAccounts(m, now);
      case Cancel => n := CancelConserves(m);
      case _ => n := ReceiveKeeps(m, ins);
    }
  }

  /** Only the investor's own successful claim changes what a settled round owes, and it
      pays all of it. */
  lemma OwedStep(m: State, ins: Instruction, round: nat, investor: Pubkey)
    requires Inv(m) && round < m.roundCount
    ensures Owed(Apply(m, ins), round, investor) == (if PaysOut(m, ins, round, investor) then 0 else Owed(m, round, investor))
    ensures PaysOut(m, ins, round, investor) ==> 0 < Owed(m, round, investor) == m.walnVault - Apply(m, ins).walnVault
  {
    if Step(m, ins).Ok? {
      if ins.ClaimWaln? {
        ClaimPays(m, ins.investor, ins.round, ins.now);
      } else {
        var n := OthersLeaveAccounts(m, ins);
        assert round in m.rounds <==> round in n.rounds;
      }
    }
  }

  /** Over any run, the payments for a settled round plus what is still owed is what was
      owed, and at most one claim succeeds: exactly one if the debt was cleared. */
  lemma {:induction false} ClaimedOnce(m: State, trace: seq<Instruction>, round: nat, investor: Pubkey)
    requires Inv(m) && round < m.roundCount
    ensures Owed(m, round, investor) == Over(m, trace, PaymentTo(round, investor)) + Owed(Run(m, trace), round, investor)
    ensures Over(m, trace, ClaimsBy(round, investor)) ==
      if Owed(m, round, investor) > 0 && Owed(Run(m, trace), round, investor) == 0 then 1 else 0
    ensures Owed(Run(m, trace), round, investor) in {0, Owed(m, round, investor)}
    ensures Owed(m, round, investor) >= 0
    decreases |trace|
  {
    if round in m.rounds {
      TotalCoversEach(m.rounds[round].investors, WalnFor(investor));
    }
    if |trace| > 0 {
      StepConserves(m, trace[0]);
      OwedStep(m, trace[0], round, investor);
      ClaimedOnce(Apply(m, trace[0]), trace[1..], round, investor);
    }
  }
}
