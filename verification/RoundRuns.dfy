/** One round over a run: what happens between its start and its end does not disturb it,
    it can always be completed, and cancelling it gives everyone their deposit back. */
module RoundRuns {
  import opened Arithmetic
  import opened Accounts
  import opened Gap
  import opened Settlement
  import opened SettlementEffects
  import opened Market
  import opened Invariant
  import opened RoundInvariant
  import opened Claims
  import opened Conservation
  import opened Runs

  // ---------- no stuck round ----------

  /** A sell of at least the remaining capacity of a running round passes every amount
      guard, and the capacity is worth a positive u64 amount of USDC. What was sold is
      nothing or at least the minimum, and never the whole size. */
  lemma NoStuckRound(m: State, maxAmount: u64)
    requires Inv(m) && m.roundStarted && maxAmount >= m.curSize - m.curWaln
    ensures SaleAmount(m, maxAmount) == Ok(m.curSize - m.curWaln)
    ensures 0 < UsdcValue(m.curSize - m.curWaln, m.curPrice, m.scale) <= U64_MAX
    ensures (m.curWaln == 0 || m.curWaln >= MIN_SELL_WALN) && m.curWaln < m.curSize
  {
    PaidBelowCap(m);
  }

  /** In every open round a sell of the remaining capacity succeeds exactly when sells are
      not stopped, the wALN vault can take the wALN, the USDC vault can pay for it, the
      unlock time and the round counter have room, and the log entry of the old dust's
      recipient holds; and it settles the round. */
  lemma RoundCompletes(m: State, maxAmount: u64, now: i64)
    requires Inv(m) && m.roundStarted && maxAmount >= m.curSize - m.curWaln
    ensures Sell(m, maxAmount, now).Ok? <==>
      && !m.frozen && !m.sellPaused && LastSalePayable(m)
      && InI64(now + m.curLockPeriod) && m.roundCount < U64_MAX
      && DustLoggable(m.pool, m.curPrice, m.scale, m.carryover, now)
    ensures Sell(m, maxAmount, now).Ok? ==> Sell(m, maxAmount, now).value.roundCount == m.roundCount + 1
  {
    if Sell(m, maxAmount, now).Ok? {
      SellTakes(m, maxAmount, now);
      SaleWasPayable(m, maxAmount);
    }
    if !m.frozen && !m.sellPaused && LastSalePayable(m) {
      LastSaleSettles(m, maxAmount, now);
    }
  }

  /** The vaults can move the tokens of a sale of the whole remaining capacity. */
  ghost predicate LastSalePayable(m: State)
    requires m.curWaln <= m.curSize
  {
    && m.walnVault + (m.curSize - m.curWaln) <= U64_MAX
    && UsdcValue(m.curSize - m.curWaln, m.curPrice, m.scale) <= m.usdcVault
  }

  /** While every start locked its whole cap, the USDC vault can pay for what is left of the round. */
  lemma VaultCoversRound(start: State, trace: seq<Instruction>, m: State)
    requires Reached(start, trace, m) && Over(start, trace, SettledGap) == 0 && OpenGap(m) == 0 && m.roundStarted
    ensures m.curWaln <= m.curSize && UsdcValue(m.curSize - m.curWaln, m.curPrice, m.scale) <= m.usdcVault
  {
    ReachedInv(start, trace, m);
    Solvent(start, trace, m);
    PaidBelowCap(m);
    LockedWithinLobby(m);
  }

  lemma LastSaleTaken(m: State)
    requires Inv(m) && m.roundStarted
    ensures TakeSale(m, m.curSize - m.curWaln).Ok? <==> LastSalePayable(m)
  {
    PaidBelowCap(m);
  }

  lemma LastSale(m: State, maxAmount: u64) returns (sold: State)
    requires Inv(m) && m.roundStarted && maxAmount >= m.curSize - m.curWaln && LastSalePayable(m)
    ensures SoldState(m, maxAmount) == Ok(sold) && Filled(sold)
    ensures sold.pool == m.pool && sold.curLockPeriod == m.curLockPeriod && sold.roundCount == m.roundCount
    ensures sold.carryover == m.carryover && sold.curPrice == m.curPrice && sold.scale == m.scale
  {
    NoStuckRound(m, maxAmount);
    LastSaleTaken(m);
    SoldKeeps(m, maxAmount);
    sold := SoldIs(m, maxAmount);
  }

  lemma SaleWasPayable(m: State, maxAmount: u64)
    requires Inv(m) && m.roundStarted && maxAmount >= m.curSize - m.curWaln
    requires SaleAmount(m, maxAmount).Ok? && TakeSale(m, SaleAmount(m, maxAmount).value).Ok?
    ensures LastSalePayable(m)
  {
    NoStuckRound(m, maxAmount);
    LastSaleTaken(m);
  }

  lemma LastSaleSettles(m: State, maxAmount: u64, now: i64)
    requires Inv(m) && m.roundStarted && maxAmount >= m.curSize - m.curWaln
    requires !m.frozen && !m.sellPaused && LastSalePayable(m)
    ensures Sell(m, maxAmount, now).Ok? <==>
      && InI64(now + m.curLockPeriod) && m.roundCount < U64_MAX
      && DustLoggable(m.pool, m.curPrice, m.scale, m.carryover, now)
    ensures Sell(m, maxAmount, now).Ok? ==> Sell(m, maxAmount, now).value.roundCount == m.roundCount + 1
  {
    var sold := LastSale(m, maxAmount);
    SettleSucceeds(sold, now);
    SellSettles(m, maxAmount, now, sold);
  }

  lemma SellTakes(m: State, maxAmount: u64, now: i64)
    requires m.roundStarted && Sell(m, maxAmount, now).Ok?
    ensures !m.frozen && !m.sellPaused && SaleAmount(m, maxAmount).Ok? && TakeSale(m, SaleAmount(m, maxAmount).value).Ok?
  {
  }

  lemma SellSettles(m: State, maxAmount: u64, now: i64, sold: State)
    requires m.roundStarted && !m.frozen && !m.sellPaused && maxAmount > 0
    requires SoldState(m, maxAmount) == Ok(sold) && Filled(sold)
    ensures Sell(m, maxAmount, now).Ok? <==> SettleRound(sold, now).Ok?
    ensures Sell(m, maxAmount, now).Ok? ==> Sell(m, maxAmount, now).value.roundCount == sold.roundCount + 1
  {
    if SettleRound(sold, now).Ok? {
      var idle := SettleKeeps(sold, now);
      AutoStartKeeps(SettleRound(sold, now).value);
    }
  }

  // ---------- isolation ----------

  /** The round that is running in `m` is still running after every step of the run. */
  ghost predicate SameRound(m: State, trace: seq<Instruction>)
    decreases |trace|
  {
    m.roundStarted && (|trace| == 0 || (
      Apply(m, trace[0]).roundCount == m.roundCount && SameRound(Apply(m, trace[0]), trace[1..])))
  }

  /** The terms of a round: price, size, lock period, and everybody's lock and volume. */
  ghost predicate SameTerms(m: State, n: State) {
    && n.scale == m.scale && n.curPrice == m.curPrice && n.curSize == m.curSize && n.curLockPeriod == m.curLockPeriod
    && n.totalLocked == m.totalLocked && n.roundCount == m.roundCount && SameLocks(m.pool, n.pool)
  }

  /** Nothing that was sold or paid is ever taken back. */
  ghost predicate SalesGrow(m: State, n: State) {
    n.curWaln >= m.curWaln && n.curSpent >= m.curSpent
  }

  lemma SellKeepsTerms(m: State, maxAmount: u64, now: i64)
    requires Inv(m) && m.roundStarted && Sell(m, maxAmount, now).Ok?
    requires Sell(m, maxAmount, now).value.roundCount == m.roundCount
    ensures SameTerms(m, Sell(m, maxAmount, now).value) && SalesGrow(m, Sell(m, maxAmount, now).value)
  {
    var n := SellConserves(m, maxAmount, now);
    var sold, n' := SellIs(m, maxAmount, now);
    var sold' := SoldIs(m, maxAmount);
  }

  lemma StepKeepsTerms(m: State, ins: Instruction)
    requires Inv(m) && m.roundStarted
    requires Apply(m, ins).roundStarted && Apply(m, ins).roundCount == m.roundCount
    ensures SameTerms(m, Apply(m, ins)) && SalesGrow(m, Apply(m, ins))
  {
    if Step(m, ins).Ok? {
      if IsQuiet(ins) {
        var n := QuietStep(m, ins);
      } else {
        match ins
        case SellWaln(amount, now) => SellKeepsTerms(m, amount, now);
        case ClaimWaln(investor, round, now) => var k, n := ClaimIs(m, investor, round, now);
        case ForceClose(now) => var n := CloseRoundConserves(m, now);
        case _ =>
      }
    }
  }

  /** Whatever happens while a round runs, its terms stay those it started with, and its
      sales only grow. */
  lemma {:induction false} TermsIsolated(m: State, trace: seq<Instruction>)
    requires Inv(m) && SameRound(m, trace)
    ensures SameTerms(m, Run(m, trace)) && SalesGrow(m, Run(m, trace))
    ensures Run(m, trace).roundStarted && Inv(Run(m, trace))
    decreases |trace|
  {
    if |trace| > 0 {
      StepConserves(m, trace[0]);
      StepKeepsTerms(m, trace[0]);
      TermsIsolated(Apply(m, trace[0]), trace[1..]);
    }
  }

  /** What `key` has locked in the current round. */
  ghost function LockedBy(m: State, key: Pubkey): int {
    Total(m.pool, LockFor(key))
  }

  lemma LockForAt(pool: seq<InvestorRecord>, i: nat)
    requires i < |pool| && Distinct(Keys(pool))
    ensures Total(pool, LockFor(pool[i].investor)) == pool[i].usdcLocked
  {
    var key := pool[i].investor;
    var column := Column(pool, LockFor(key));
    SumToUpdate(column, i, 0, |pool|);
    var rest := column[i := 0];
    forall j | 0 <= j < |pool|
      ensures rest[j] == 0
    {
      ColumnAt(pool, LockFor(key), j);
      if j != i {
        assert Keys(pool)[j] != Keys(pool)[i];
      }
    }
    SumToZero(rest, |pool|);
    ColumnAt(pool, LockFor(key), i);
  }

  lemma LockForNobody(pool: seq<InvestorRecord>, key: Pubkey)
    requires !Participates(pool, key)
    ensures Total(pool, LockFor(key)) == 0
  {
    forall j | 0 <= j < |pool|
      ensures Column(pool, LockFor(key))[j] == 0
    {
      ColumnAt(pool, LockFor(key), j);
    }
    SumToZero(Column(pool, LockFor(key)), |pool|);
  }

  /** The wALN that a lock buys at `price`, rounded down. */
  ghost function WalnValue(usdc: int, price: int, scale: int): int
    requires price > 0
  {
    scale * usdc / price
  }

  /** The allocations of a settled pool by investor: the lock's value, plus all the old
      dust for one participant. */
  lemma ListedByKey(allocs: seq<InvestorAlloc>, pool: seq<InvestorRecord>, price: u64, scale: Scale, dust: nat, w: nat, key: Pubkey)
    requires price > 0 && Distinct(Keys(pool)) && w < |pool| && pool[w].usdcLocked > 0
    requires var bases := BaseAmounts(pool, price, scale); Lists(allocs, pool, bases[w := bases[w] + dust])
    ensures Total(allocs, WalnFor(key)) ==
      WalnValue(Total(pool, LockFor(key)), price, scale) + (if key == pool[w].investor then dust else 0)
  {
    if Participates(pool, key) {
      var i :| 0 <= i < |pool| && pool[i].usdcLocked > 0 && pool[i].investor == key;
      ParticipantListed(allocs, pool, BaseAmounts(pool, price, scale), dust, w, i);
      LockForAt(pool, i);
      BaseAt(pool, price, scale, i);
    } else {
      LockForNobody(pool, key);
      ProductQuotient(scale, 0, price);
    }
  }

  lemma ParticipantListed(allocs: seq<InvestorAlloc>, pool: seq<InvestorRecord>, bases: seq<int>, dust: nat, w: nat, i: nat)
    requires |bases| == |pool| && Distinct(Keys(pool)) && w < |pool| && i < |pool| && pool[i].usdcLocked > 0
    requires Lists(allocs, pool, bases[w := bases[w] + dust])
    ensures Total(allocs, WalnFor(pool[i].investor)) == bases[i] + (if pool[i].investor == pool[w].investor then dust else 0)
  {
    if i != w {
      assert Keys(pool)[i] != Keys(pool)[w];
    }
  }

  /** What a settlement owes `key` for a round that ended in state `sold`. */
  ghost function Due(sold: State, key: Pubkey, winner: Pubkey, dust: int): int
    requires sold.curPrice > 0
  {
    WalnValue(LockedBy(sold, key), sold.curPrice, sold.scale) + (if key == winner then dust else 0)
  }

  lemma SettledList(pool: seq<InvestorRecord>, price: u64, scale: Scale, dust: u64, now: i64, s: Settled) returns (w: nat)
    requires price > 0 && Distinct(Keys(pool)) && Participants(pool) > 0 && SettleFull(pool, price, scale, dust, now) == Ok(s)
    ensures Picks(pool, now, w) && s.summary.aatVolume == Total(pool, LockedVolumeOf)
    ensures var bases := BaseAmounts(pool, price, scale);
      Lists(s.summary.allocs, pool, bases[w := bases[w] + dust])
  {
    FullPool(pool, price, scale, dust, now);
    w := FullAllocations(pool, price, scale, dust, now);
  }

  /** The accounts a full settlement leaves behind for the round. */
  lemma SettledAccounts(sold: State, now: i64, n: State) returns (winner: Pubkey)
    requires Filled(sold) && SettleRound(sold, now) == Ok(n)
    ensures Wins(sold.pool, now, winner) && LockedBy(sold, winner) > 0 && sold.curPrice > 0
    ensures forall key :: Owed(n, sold.roundCount, key) == Due(sold, key, winner, sold.carryover)
    ensures sold.roundCount in n.records && n.records[sold.roundCount].totalAatVolumeAtTrigger == Total(sold.pool, LockedVolumeOf)
  {
    var s, idle := SettleRoundIs(sold, now);
    var w := SettledList(sold.pool, sold.curPrice, sold.scale, sold.carryover, now, s);
    winner := sold.pool[w].investor;
    SettledRecord(sold, s, now, n);
    DueListed(sold, s.summary.allocs, w);
  }

  lemma DueListed(sold: State, allocs: seq<InvestorAlloc>, w: nat)
    requires Distinct(Keys(sold.pool)) && sold.curPrice > 0 && w < |sold.pool| && sold.pool[w].usdcLocked > 0
    requires var bases := BaseAmounts(sold.pool, sold.curPrice, sold.scale);
      Lists(allocs, sold.pool, bases[w := bases[w] + sold.carryover])
    ensures LockedBy(sold, sold.pool[w].investor) > 0
    ensures forall key :: Total(allocs, WalnFor(key)) == Due(sold, key, sold.pool[w].investor, sold.carryover)
  {
    LockForAt(sold.pool, w);
    forall key
      ensures Total(allocs, WalnFor(key)) == Due(sold, key, sold.pool[w].investor, sold.carryover)
    {
      ListedByKey(allocs, sold.pool, sold.curPrice, sold.scale, sold.carryover, w, key);
    }
  }

  lemma SettledRecord(sold: State, s: Settled, now: i64, n: State)
    requires ClaimsOk(sold) && sold.curPrice > 0 && SettleFull(sold.pool, sold.curPrice, sold.scale, sold.carryover, now) == Ok(s)
    requires SettleRound(sold, now) == Ok(n)
    ensures forall key :: Owed(n, sold.roundCount, key) == Total(s.summary.allocs, WalnFor(key))
    ensures sold.roundCount in n.records && n.records[sold.roundCount].totalAatVolumeAtTrigger == s.summary.aatVolume
  {
  }

  /** The sale that fills a round, running or opened by it, followed by the settlement and
      the next start. */
  lemma CompletingSell(m: State, maxAmount: u64, now: i64) returns (sold: State, settled: State, n: State)
    requires Inv(m) && SettlesFully(m, SellWaln(maxAmount, now))
    ensures SoldState(m, maxAmount) == Ok(sold) && Filled(sold) && SettleRound(sold, now) == Ok(settled)
    ensures OpenFor(m).Ok? && sold.pool == OpenFor(m).value.pool && sold.curPrice == OpenFor(m).value.curPrice
    ensures sold.totalLocked == OpenFor(m).value.totalLocked
    ensures sold.scale == m.scale && sold.carryover == m.carryover && sold.roundCount == m.roundCount
    ensures Apply(m, SellWaln(maxAmount, now)) == n && AutoStart(settled) == Ok(n)
    ensures n.rounds == settled.rounds && n.records == settled.records && n.roundCount == m.roundCount + 1
  {
    SoldKeeps(m, maxAmount);
    sold := SoldIs(m, maxAmount);
    var sold';
    sold', n := SellIs(m, maxAmount, now);
    settled := SettleRound(sold, now).value;
    var idle := SettleKeeps(sold, now);
    AutoStartConserves(settled, n);
  }

  /** What a completing sale leaves for the investors, by their locks in the round it filled. */
  lemma SettlementAllots(m: State, maxAmount: u64, now: i64) returns (winner: Pubkey)
    requires Inv(m) && SettlesFully(m, SellWaln(maxAmount, now))
    ensures OpenFor(m).Ok? && LockedBy(OpenFor(m).value, winner) > 0 && OpenFor(m).value.curPrice > 0
    ensures Wins(OpenFor(m).value.pool, now, winner)
    ensures var open, after := OpenFor(m).value, Apply(m, SellWaln(maxAmount, now));
      && after.roundCount == m.roundCount + 1
      && (forall key :: Owed(after, m.roundCount, key) == Due(open, key, winner, m.carryover))
      && m.roundCount in after.records
      && after.records[m.roundCount].totalAatVolumeAtTrigger == Total(open.pool, LockedVolumeOf)
  {
    OpenKeeps(m);
    var sold, settled, after := CompletingSell(m, maxAmount, now);
    winner := SettledAccounts(sold, now, settled);
    var open := OpenFor(m).value;
    forall key
      ensures Owed(after, m.roundCount, key) == Due(open, key, winner, m.carryover)
    {
      assert Owed(settled, m.roundCount, key) == Due(sold, key, winner, sold.carryover);
    }
  }

  /** Round isolation: from a running round through any run up to its full settlement, each
      investor is allocated the value of the lock held at the beginning at the beginning's
      price, the participant that the timestamp picks in the pool at the end getting all the
      old dust on top, and the recorded AAT volume is that of the locks at the beginning. */
  lemma RoundIsolation(m: State, trace: seq<Instruction>, maxAmount: u64, now: i64) returns (winner: Pubkey)
    requires Inv(m) && SameRound(m, trace) && SettlesFully(Run(m, trace), SellWaln(maxAmount, now))
    ensures Wins(Run(m, trace).pool, now, winner) && LockedBy(m, winner) > 0 && m.curPrice > 0
    ensures var before := Run(m, trace);
      var after := Apply(before, SellWaln(maxAmount, now));
      && after.roundCount == m.roundCount + 1
      && (forall key :: Owed(after, m.roundCount, key) == Due(m, key, winner, before.carryover))
      && m.roundCount in after.records
      && after.records[m.roundCount].totalAatVolumeAtTrigger == Total(m.pool, LockedVolumeOf)
  {
    TermsIsolated(m, trace);
    var before := Run(m, trace);
    winner := SettlementAllots(before, maxAmount, now);
    SameDue(m, before, winner);
  }

  lemma SameDue(m: State, n: State, winner: Pubkey)
    requires SameTerms(m, n) && n.curPrice > 0
    ensures forall key :: LockedBy(m, key) == LockedBy(n, key)
    ensures forall key :: Due(m, key, winner, n.carryover) == Due(n, key, winner, n.carryover)
  {
    forall key
      ensures LockedBy(m, key) == LockedBy(n, key) && Due(m, key, winner, n.carryover) == Due(n, key, winner, n.carryover)
    {
      assert Total(m.pool, LockFor(key)) == Total(n.pool, LockFor(key));
    }
  }

  // ---------- overpaid rounds ----------

  /** A round that paid its sellers more than it had locked. */
  ghost predicate Overpaid(m: State) {
    m.roundStarted && m.curSpent > m.totalLocked
  }

  lemma OverpaidCannotEnd(m: State)
    requires Inv(m) && Overpaid(m)
    ensures (forall now :: CloseRound(m, now).Err?) && CancelRound(m).Err?
  {
    forall now: i64
      ensures CloseRound(m, now).Err?
    {
      CloseRoundSucceeds(m, now);
    }
    CancelSucceeds(m);
    PaidBelowCap(m);
  }

  /** Only a sale that fills it ends an overpaid round. */
  lemma OverpaidStep(m: State, ins: Instruction)
    requires Inv(m) && Overpaid(m) && !SettlesFully(m, ins)
    ensures Overpaid(Apply(m, ins)) && Apply(m, ins).roundCount == m.roundCount
  {
    OverpaidCannotEnd(m);
    if Step(m, ins).Ok? {
      if IsQuiet(ins) {
        var n := QuietStep(m, ins);
      } else {
        match ins
        case SellWaln(amount, now) =>
          var n := SellConserves(m, amount, now);
          var sold, n' := SellIs(m, amount, now);
          var sold' := SoldIs(m, amount);
        case ClaimWaln(investor, round, now) => var k, n := ClaimIs(m, investor, round, now);
        case _ =>
      }
    }
  }

  /** Over any run an overpaid round stays, and can neither be closed by force nor be
      cancelled, until a sale fills it. */
  lemma {:induction false} OverpaidStays(m: State, trace: seq<Instruction>)
    requires Inv(m) && Overpaid(m)
    requires forall i :: 0 <= i < |trace| ==> !SettlesFully(Run(m, trace[..i]), trace[i])
    ensures var n := Run(m, trace);
      && Overpaid(n) && n.roundCount == m.roundCount
      && (forall now :: CloseRound(n, now).Err?) && CancelRound(n).Err?
    decreases |trace|
  {
    RunKeeps(m, trace);
    if |trace| > 0 {
      var n := |trace| - 1;
      forall i | 0 <= i < n
        ensures !SettlesFully(Run(m, trace[..n][..i]), trace[..n][i])
      {
        assert trace[..n][..i] == trace[..i];
      }
      OverpaidStays(m, trace[..n]);
      RunKeeps(m, trace[..n]);
      RunSplit(m, trace, n);
      assert trace[n..] == [trace[n]];
      OverpaidStep(Run(m, trace[..n]), trace[n]);
    }
    OverpaidCannotEnd(Run(m, trace));
  }
}
