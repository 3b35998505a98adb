/** What a sell takes and pays, and when it succeeds, in terms of the accounts' fields. */
module SaleEffects {
  import opened Arithmetic
  import opened Accounts
  import opened StartRound
  import opened Market
  import opened Invariant
  import opened RoundInvariant
  import opened Conservation

  /** The price of the round a sell goes into, and what that round has left. */
  function PriceFor(m: State): int {
    if m.roundStarted then m.curPrice else m.floorPrice
  }

  function LeftIn(m: State): int {
    if m.roundStarted then m.curSize - m.curWaln else m.roundSize
  }

  /** What a sell of at most `maxAmount` takes, and what it pays for that. */
  function TakenBy(m: State, maxAmount: int): int {
    if maxAmount < LeftIn(m) then maxAmount else LeftIn(m)
  }

  function PaidFor(m: State, maxAmount: int): int {
    TakenBy(m, maxAmount) * PriceFor(m) / m.scale
  }

  // ---------- opening ----------

  /** `open` is `m` with the next round begun, as far as a sell can tell. */
  ghost predicate OpenedFrom(m: State, open: State) {
    && !m.roundStarted && open.roundStarted && BeginRound(m) == Ok(open)
    && open.curPrice == m.floorPrice && open.curSize == m.roundSize && m.curWaln == 0 && open.curWaln == 0
    && open.walnVault == m.walnVault && open.usdcVault == m.usdcVault && open.scale == m.scale
    && open.frozen == m.frozen && open.sellPaused == m.sellPaused
  }

  lemma OpenedBy(m: State) returns (open: State)
    requires Inv(m) && !m.roundStarted && BeginRound(m).Ok?
    ensures Inv(open) && OpenedFrom(m, open)
  {
    BeginKeeps(m);
    open := BeginRound(m).value;
  }

  lemma SameSaleAmount(m: State, open: State, maxAmount: u64)
    requires OpenedFrom(m, open)
    ensures SaleAmount(open, maxAmount) == SaleAmount(m, maxAmount)
  {
  }

  /** A sell into an idle market is the same sell into the round that it opens. */
  lemma SameSell(m: State, open: State, maxAmount: u64, now: i64)
    requires OpenedFrom(m, open)
    ensures Sell(open, maxAmount, now) == Sell(m, maxAmount, now)
  {
    SameSaleAmount(m, open, maxAmount);
    SameSold(m, open, maxAmount);
  }

  lemma SameSold(m: State, open: State, maxAmount: u64)
    requires OpenedFrom(m, open) && SaleAmount(open, maxAmount) == SaleAmount(m, maxAmount)
    ensures SoldState(open, maxAmount) == SoldState(m, maxAmount)
  {
  }

  lemma SellNeedsStart(m: State, maxAmount: u64, now: i64)
    requires !m.roundStarted && Sell(m, maxAmount, now).Ok?
    ensures BeginRound(m).Ok?
  {
  }

  // ---------- what moves ----------

  lemma BookedMoves(m: State, maxAmount: u64) returns (sold: State)
    requires Inv(m) && m.roundStarted && SoldState(m, maxAmount).Ok?
    ensures var a, out := TakenBy(m, maxAmount), PaidFor(m, maxAmount);
      && SoldState(m, maxAmount) == Ok(sold) && a > 0 && out > 0
      && (a < LeftIn(m) ==> (LeftIn(m) - a) * PriceFor(m) / m.scale > 0 && (m.curWaln > 0 || a >= 1_000_000_000))
      && sold.walnVault == m.walnVault + a && sold.usdcVault == m.usdcVault - out
      && sold.curWaln == m.curWaln + a && sold.curSpent == m.curSpent + out
      && sold == m.(walnVault := sold.walnVault, usdcVault := sold.usdcVault, curWaln := sold.curWaln, curSpent := sold.curSpent)
  {
    sold := SoldState(m, maxAmount).value;
  }

  lemma SettlingMovesNothing(sold: State, now: i64, n: State)
    requires Filled(sold) && SettleRound(sold, now).Ok? && AutoStart(SettleRound(sold, now).value) == Ok(n)
    ensures n.walnVault == sold.walnVault && n.usdcVault == sold.usdcVault
  {
    var idle := SettleKeeps(sold, now);
    var s, idle' := SettleRoundIs(sold, now);
    AutoStartConserves(SettleRound(sold, now).value, n);
  }

  /** The amount asked for, or all that the round has left, came in, and exactly
      floor(amount * price / scale) was paid, at the price of the round it went into. A part
      leaves something payable, and a first part has the minimum. */
  ghost predicate SellerGets(m: State, maxAmount: int, n: State) {
    var a := n.walnVault - m.walnVault;
    && a == TakenBy(m, maxAmount) > 0 && m.usdcVault - n.usdcVault == a * PriceFor(m) / m.scale > 0
    && (a < LeftIn(m) ==>
      && (LeftIn(m) - a) * PriceFor(m) / m.scale > 0
      && (m.curWaln > 0 || a >= 1_000_000_000))
  }

  lemma RunningSellerPaid(m: State, maxAmount: u64, now: i64)
    requires Inv(m) && m.roundStarted && Sell(m, maxAmount, now).Ok?
    ensures SellerGets(m, maxAmount, Sell(m, maxAmount, now).value)
  {
    var sold, n := SellIs(m, maxAmount, now);
    SoldKeeps(m, maxAmount);
    if sold.curWaln == sold.curSize {
      SettlingMovesNothing(sold, now, n);
    }
    BookedSellerGets(m, maxAmount);
    SellerGetsSame(m, maxAmount, sold, n);
  }

  lemma BookedSellerGets(m: State, maxAmount: u64)
    requires Inv(m) && m.roundStarted && SoldState(m, maxAmount).Ok?
    ensures SellerGets(m, maxAmount, SoldState(m, maxAmount).value)
  {
    var sold := BookedMoves(m, maxAmount);
  }

  lemma SellerGetsSame(m: State, maxAmount: int, sold: State, n: State)
    requires SellerGets(m, maxAmount, sold) && n.walnVault == sold.walnVault && n.usdcVault == sold.usdcVault
    ensures SellerGets(m, maxAmount, n)
  {
  }

  lemma SellerGetsOpened(m: State, open: State, maxAmount: int, n: State)
    requires OpenedFrom(m, open) && SellerGets(open, maxAmount, n)
    ensures SellerGets(m, maxAmount, n)
  {
  }

  /** What every successful sell takes and pays. */
  lemma SellerPaid(m: State, maxAmount: u64, now: i64)
    requires Inv(m) && Sell(m, maxAmount, now).Ok?
    ensures SellerGets(m, maxAmount, Sell(m, maxAmount, now).value)
  {
    if m.roundStarted {
      RunningSellerPaid(m, maxAmount, now);
    } else {
      SellNeedsStart(m, maxAmount, now);
      var open := OpenedBy(m);
      SameSell(m, open, maxAmount, now);
      RunningSellerPaid(open, maxAmount, now);
      SellerGetsOpened(m, open, maxAmount, Sell(m, maxAmount, now).value);
    }
  }

  /** A sell of less than the round has left is booked in the round and changes nothing else. */
  lemma PartBooked(m: State, maxAmount: u64, now: i64)
    requires Inv(m) && m.roundStarted && Sell(m, maxAmount, now).Ok? && maxAmount < LeftIn(m)
    ensures var n := Apply(m, SellWaln(maxAmount, now));
      && n.curWaln == m.curWaln + maxAmount && n.curSpent == m.curSpent + maxAmount * m.curPrice / m.scale
      && n == m.(walnVault := n.walnVault, usdcVault := n.usdcVault, curWaln := n.curWaln, curSpent := n.curSpent)
  {
    var sold, n := SellIs(m, maxAmount, now);
    var sold' := BookedMoves(m, maxAmount);
  }

  // ---------- when it succeeds ----------

  /** A sell of a part of what a running round has left succeeds exactly when sells are not
      stopped, the part is worth something and leaves something payable, a first part has the
      minimum, and the vaults can move the tokens. */
  lemma PartSucceeds(m: State, maxAmount: u64, now: i64)
    requires Inv(m) && m.roundStarted && 0 < maxAmount < LeftIn(m)
    ensures Sell(m, maxAmount, now).Ok? <==>
      && !m.frozen && !m.sellPaused
      && 0 < maxAmount * m.curPrice / m.scale <= m.usdcVault && m.walnVault + maxAmount <= U64_MAX
      && (m.curSize - m.curWaln - maxAmount) * m.curPrice / m.scale > 0
      && (m.curWaln > 0 || maxAmount >= 1_000_000_000)
  {
    ValueSuperadditive(m.curWaln, maxAmount, m.curPrice, m.scale);
    ValueSuperadditive(m.curWaln + maxAmount, m.curSize - m.curWaln - maxAmount, m.curPrice, m.scale);
    PartTaken(m, maxAmount);
  }

  lemma PartTaken(m: State, maxAmount: u64)
    requires Inv(m) && m.roundStarted && 0 < maxAmount < LeftIn(m)
    requires m.curSpent + UsdcValue(maxAmount, m.curPrice, m.scale) <= UsdcValue(m.curSize, m.curPrice, m.scale)
    ensures SoldState(m, maxAmount).Ok? <==>
      && 0 < maxAmount * m.curPrice / m.scale <= m.usdcVault && m.walnVault + maxAmount <= U64_MAX
      && (m.curSize - m.curWaln - maxAmount) * m.curPrice / m.scale > 0
      && (m.curWaln > 0 || maxAmount >= 1_000_000_000)
    ensures SoldState(m, maxAmount).Ok? ==> SoldState(m, maxAmount).value.curWaln < m.curSize == SoldState(m, maxAmount).value.curSize
  {
  }

  /** A sell into an idle market succeeds exactly when a round can be started and the sell
      succeeds in that round. */
  lemma OpeningSucceeds(m: State, maxAmount: u64, now: i64)
    requires Inv(m) && !m.roundStarted && maxAmount > 0
    ensures Sell(m, maxAmount, now).Ok? <==>
      RoundStart(m.pool, m.roundSize, m.floorPrice, m.scale).Ok? && Sell(BeginRound(m).value, maxAmount, now).Ok?
  {
    if Sell(m, maxAmount, now).Ok? {
      SellNeedsStart(m, maxAmount, now);
    }
    if BeginRound(m).Ok? {
      var open := OpenedBy(m);
      SameSell(m, open, maxAmount, now);
    }
  }
}
