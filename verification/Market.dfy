/** The whole program as a state and the steps its instructions take on it. An error
    stands for a rolled-back transaction. */
module Market {
  import opened Arithmetic
  import opened Accounts
  import opened StartRound
  import opened Settlement

  /** All accounts of the program: the contract state, the investor pool, the AAT NFTs,
      the per-round accounts and the two token vaults. */
  datatype State = State(
    scale: Scale,
    floorPrice: u64,
    roundSize: u64,
    lockPeriod: i64,
    withdrawLock: i64,
    sellPaused: bool,
    frozen: bool,
    roundStarted: bool,
    roundCount: u64,
    curPrice: u64,
    curSize: u64,
    curLockPeriod: i64,
    curWaln: u64,
    curSpent: u64,
    lobby: u64,
    totalLocked: u64,
    totalAat: u64,
    carryover: u64,
    pool: seq<InvestorRecord>,
    nfts: map<Pubkey, u64>,
    rounds: map<nat, RoundLockedWaln>,
    records: map<nat, RoundRecord>,
    usdcVault: u64,
    walnVault: u64)

  predicate InI64(x: int) {
    I64_MIN <= x <= I64_MAX
  }

  // ---------- configuration ----------

  function RequireViable(size: u64, price: u64, scale: Scale): Check {
    if UsdcValue(size, price, scale) == 0 || size < MIN_SELL_WALN then Fail(InvalidParameter) else Pass
  }

  function Initialize(price: u64, size: u64, lockPeriod: i64, scale: Scale): (r: Result<State>) {
    if price == 0 || size == 0 then Err(InvalidParameter) else
    :- RequireViable(size, price, scale);
    :- Need(lockPeriod >= 0, InvalidParameter);
    Ok(State(
      scale, price, size, lockPeriod, 0, false, false,
      false, 0, price, size, lockPeriod, 0, 0,
      0, 0, 0, 0,
      [], map[], map[], map[], 0, 0))
  }

  function SetFloorPrice(m: State, price: u64): (r: Result<State>) {
    if price == 0 then Err(InvalidParameter) else
    :- RequireViable(m.roundSize, price, m.scale);
    Ok(m.(floorPrice := price))
  }

  function SetRoundSize(m: State, size: u64): (r: Result<State>) {
    if size == 0 then Err(InvalidParameter) else
    :- RequireViable(size, m.floorPrice, m.scale);
    Ok(m.(roundSize := size))
  }

  function SetLockPeriod(m: State, seconds: i64): (r: Result<State>) {
    if seconds < 0 then Err(InvalidParameter) else
    Ok(m.(lockPeriod := seconds))
  }

  function SetWithdrawLock(m: State, seconds: i64): (r: Result<State>) {
    if seconds < 0 then Err(InvalidParameter) else
    Ok(m.(withdrawLock := seconds))
  }

  // ---------- AAT volumes ----------

  function MintAat(m: State, investor: Pubkey, volume: u64): (r: Result<State>) {
    if volume == 0 then Err(InvalidParameter) else
    :- Need(!m.frozen, ContractFrozen);
    :- Need(m.totalAat + volume <= U64_MAX, ArithmeticOverflow);
    :- Need(m.totalAat + volume <= MAX_TOTAL_AAT_VOLUME, WalnAllocationLimitExceeded);
    :- Need(investor !in m.nfts, AccountInUse);
    Ok(m.(totalAat := m.totalAat + volume, nfts := m.nfts[investor := volume]))
  }

  function WithVolume(pool: seq<InvestorRecord>, investor: Pubkey, volume: u64): (p: seq<InvestorRecord>)
    ensures |p| == |pool|
  {
    var k := IndexOf(Keys(pool), investor);
    if k == |pool| then pool else pool[k := pool[k].(aatVolume := volume)]
  }

  function UpdateAat(m: State, investor: Pubkey, volume: u64): (r: Result<State>) {
    if m.roundStarted then Err(FundsLocked) else
    :- Need(investor in m.nfts, InvalidAatNft);
    :- Need(m.totalAat >= m.nfts[investor], ArithmeticOverflow);
    var total := m.totalAat - m.nfts[investor] + volume;
    :- Need(total <= U64_MAX, ArithmeticOverflow);
    :- Need(total <= MAX_TOTAL_AAT_VOLUME, WalnAllocationLimitExceeded);
    Ok(m.(totalAat := total, nfts := m.nfts[investor := volume], pool := WithVolume(m.pool, investor, volume)))
  }

  // ---------- the lobby ----------

  function NewRecord(investor: Pubkey): InvestorRecord {
    InvestorRecord(investor, 0, 0, 0, 0, 0, 0)
  }

  /** The pool with a record for the investor, appended when there was none. */
  function Enrolled(pool: seq<InvestorRecord>, investor: Pubkey): (p: seq<InvestorRecord>)
    ensures IndexOf(Keys(pool), investor) < |p|
  {
    if IndexOf(Keys(pool), investor) == |pool| then pool + [NewRecord(investor)] else pool
  }

  /** The record after a deposit: volume taken from the NFT, unlock time only ever moved on. */
  function Credited(record: InvestorRecord, volume: u64, amount: u64, lock: i64, now: i64): (r: Result<InvestorRecord>) {
    if record.usdcDeposited + amount > U64_MAX then Err(ArithmeticOverflow) else
    :- Need(lock <= 0 || InI64(now + lock), ArithmeticOverflow);
    Ok(record.(
      aatVolume := volume,
      usdcDeposited := record.usdcDeposited + amount,
      usdcUnlockTs := if lock > 0 && now + lock > record.usdcUnlockTs then now + lock else record.usdcUnlockTs))
  }

  /** Whether the investor may deposit: an NFT with a volume, and a slot in the pool. */
  function Admits(m: State, investor: Pubkey, amount: u64): (c: Check)
    ensures c.Pass? ==> investor in m.nfts
  {
    if m.frozen then Fail(ContractFrozen)
    else if amount == 0 then Fail(ZeroAmount)
    else if investor !in m.nfts then Fail(InvalidAatNft)
    else if m.nfts[investor] == 0 then Fail(ZeroAatAllocation)
    else if |m.pool| >= MAX_INVESTORS && IndexOf(Keys(m.pool), investor) == |m.pool| then Fail(InvestorPoolFull)
    else Pass
  }

  function Deposit(m: State, investor: Pubkey, amount: u64, now: i64): (r: Result<State>) {
    var admission := Admits(m, investor, amount);
    :- admission;
    :- Need(m.usdcVault + amount <= U64_MAX, TokenTransferFailed);
    var pool, k := Enrolled(m.pool, investor), IndexOf(Keys(m.pool), investor);
    var credited :- Credited(pool[k], m.nfts[investor], amount, m.withdrawLock, now);
    :- Need(m.lobby + amount <= U64_MAX, ArithmeticOverflow);
    Ok(m.(pool := pool[k := credited], lobby := m.lobby + amount, usdcVault := m.usdcVault + amount))
  }

  /** The largest u64 stands for the whole deposit. */
  function WithdrawAmount(record: InvestorRecord, amount: u64): u64 {
    if amount == U64_MAX then record.usdcDeposited else amount
  }

  function Withdraw(m: State, investor: Pubkey, amount: u64, now: i64): (r: Result<State>) {
    if m.frozen then Err(ContractFrozen) else
    var k := IndexOf(Keys(m.pool), investor);
    :- Need(k < |m.pool|, InvalidInvestor);
    var record := m.pool[k];
    :- Need(now >= record.usdcUnlockTs, UsdcLocked);
    var out := WithdrawAmount(record, amount);
    :- Need(out > 0, ZeroAmount);
    :- Need(out <= record.usdcDeposited, InsufficientFunds);
    :- Need(out <= m.usdcVault, TokenTransferFailed);
    :- Need(out <= m.lobby, ArithmeticOverflow);
    Ok(m.(
      pool := m.pool[k := record.(usdcDeposited := record.usdcDeposited - out)],
      lobby := m.lobby - out,
      usdcVault := m.usdcVault - out))
  }

  function Remove(m: State, investor: Pubkey): (r: Result<State>) {
    var k := IndexOf(Keys(m.pool), investor);
    :- Need(k < |m.pool|, InvalidInvestor);
    var record := m.pool[k];
    :- Need(record.aatVolume == 0 && record.usdcLocked == 0, InvestorNotInactive);
    :- Need(record.usdcDeposited <= m.usdcVault, TokenTransferFailed);
    :- Need(record.usdcDeposited <= m.lobby, ArithmeticOverflow);
    Ok(m.(
      pool := SwapRemove(m.pool, k),
      lobby := m.lobby - record.usdcDeposited,
      usdcVault := m.usdcVault - record.usdcDeposited))
  }

  function SetUnlock(m: State, investor: Pubkey, unlock: i64): (r: Result<State>) {
    var k := IndexOf(Keys(m.pool), investor);
    :- Need(k < |m.pool|, InvalidInvestor);
    Ok(m.(pool := m.pool[k := m.pool[k].(usdcUnlockTs := unlock)]))
  }

  // ---------- rounds ----------

  /** A round on the locked pool, at the configured price, size and lock period. */
  function Begun(m: State, s: Started): State {
    m.(
      pool := s.pool,
      roundStarted := true,
      curPrice := m.floorPrice,
      curSize := m.roundSize,
      curLockPeriod := m.lockPeriod,
      curSpent := 0,
      totalLocked := s.locked)
  }

  function BeginRound(m: State): (r: Result<State>) {
    var s :- RoundStart(m.pool, m.roundSize, m.floorPrice, m.scale);
    Ok(Begun(m, s))
  }

  function EffectivePrice(m: State): u64 {
    if m.roundStarted then m.curPrice else m.floorPrice
  }

  function EffectiveSize(m: State): u64 {
    if m.roundStarted then m.curSize else m.roundSize
  }

  function EffectiveSold(m: State): u64 {
    if m.roundStarted then m.curWaln else 0
  }

  /** The amount a sell takes: clamped to the round, leaving nothing unpayable behind,
      and of the minimum size when it is the first of the round. */
  function SaleAmount(m: State, maxAmount: u64): (r: Result<u64>) {
    var size, sold := EffectiveSize(m), EffectiveSold(m);
    :- Need(sold <= size, ArithmeticOverflow);
    var remaining := size - sold;
    var amount := if maxAmount < remaining then maxAmount else remaining;
    :- Need(amount > 0, ZeroAmount);
    :- Need(amount == remaining || UsdcValue(remaining - amount, EffectivePrice(m), m.scale) > 0, SellLeavesUnpayableDust);
    :- Need(sold > 0 || amount >= MIN_SELL_WALN || amount == remaining, SellAmountTooSmall);
    Ok(amount)
  }

  /** Moves the tokens of a sale and books it in the open round. */
  function TakeSale(m: State, amount: u64): (r: Result<State>) {
    var out := UsdcValue(amount, m.curPrice, m.scale);
    :- Need(out <= U64_MAX, ArithmeticOverflow);
    :- Need(out > 0, ZeroAmount);
    :- Need(m.walnVault + amount <= U64_MAX, TokenTransferFailed);
    :- Need(out <= m.usdcVault, TokenTransferFailed);
    :- Need(m.curSpent + out <= U64_MAX, ArithmeticOverflow);
    :- Need(m.curWaln + amount <= U64_MAX, ArithmeticOverflow);
    Ok(m.(
      walnVault := m.walnVault + amount,
      usdcVault := m.usdcVault - out,
      curSpent := m.curSpent + out,
      curWaln := m.curWaln + amount))
  }

  /** The accounts a settlement creates for the current round. */
  function Record(m: State, s: Summary, unlock: i64, now: i64): State {
    m.(
      rounds := if |s.allocs| == 0 then m.rounds
        else m.rounds[m.roundCount := RoundLockedWaln(unlock, |s.allocs|, s.allocs)],
      records := m.records[m.roundCount := RoundRecord(now, s.walnPurchased, s.usdcSpent, s.aatVolume, s.participants)])
  }

  /** The bookkeeping both settlements end with. */
  function Close(m: State, s: Summary, unlock: i64, now: i64, carryover: u64): State
    requires m.roundCount < U64_MAX && s.usdcSpent <= m.lobby
  {
    Record(m, s, unlock, now).(
      roundStarted := false,
      roundCount := m.roundCount + 1,
      curWaln := 0,
      curSpent := 0,
      lobby := m.lobby - s.usdcSpent,
      carryover := carryover)
  }

  function NothingLocked(m: State): State {
    m.(totalLocked := 0)
  }

  /** Closes the round after the checks on the counters it updates. */
  function Finalize(m: State, s: Summary, unlock: i64, now: i64, carryover: int): (r: Result<State>) {
    if m.roundCount == U64_MAX then Err(ArithmeticOverflow) else
    :- Need(s.usdcSpent <= m.lobby, ArithmeticOverflow);
    :- Need(0 <= carryover <= U64_MAX, ArithmeticOverflow);
    Ok(Close(m, s, unlock, now, carryover))
  }

  /** What a full settlement does to the pool, and what it has to record. */
  function FullPayouts(m: State, now: i64): (r: Result<(State, Summary)>)
    ensures r.Ok? ==> InI64(now + m.curLockPeriod)
  {
    if !InI64(now + m.curLockPeriod) || m.curPrice == 0 then Err(ArithmeticOverflow) else
    var s :- SettleFull(m.pool, m.curPrice, m.scale, m.carryover, now);
    Ok((m.(pool := s.pool), s.summary))
  }

  /** Full settlement of the round that was just filled. */
  function SettleRound(m: State, now: i64): (r: Result<State>) {
    var spent :- FullPayouts(m, now);
    Finalize(spent.0, spent.1, now + m.curLockPeriod, now, m.curWaln + m.carryover - spent.1.walnPurchased)
  }

  /** Starts the next round, or leaves the market idle when nobody is eligible. */
  function AutoStart(m: State): (r: Result<State>) {
    var r := BeginRound(m);
    if r == Err(NoEligibleInvestors) || r == Err(InvalidParameter) then Ok(NothingLocked(m)) else r
  }

  /** The state a sell books its sale in: the round in progress, or the next one. */
  function OpenFor(m: State): (r: Result<State>) {
    if m.roundStarted then Ok(m) else BeginRound(m)
  }

  /** A sell up to its sale: the amount it takes, the round it takes it in, and the booking. */
  function SoldState(m: State, maxAmount: u64): (r: Result<State>) {
    var amount :- SaleAmount(m, maxAmount);
    var open :- OpenFor(m);
    TakeSale(open, amount)
  }

  function Sell(m: State, maxAmount: u64, now: i64): (r: Result<State>) {
    if m.frozen then Err(ContractFrozen) else
    :- Need(!m.sellPaused, SellPaused);
    :- Need(maxAmount > 0, ZeroAmount);
    var sold :- SoldState(m, maxAmount);
    if sold.curWaln < sold.curSize then Ok(sold)
    else
      var settled :- SettleRound(sold, now);
      AutoStart(settled)
  }

  /** What a forced settlement does to the pool, and what it has to record. */
  function ForcedPayouts(m: State, now: i64): (r: Result<(State, Summary)>)
    ensures r.Ok? ==> InI64(now + m.curLockPeriod)
  {
    if !InI64(now + m.curLockPeriod) || m.curPrice == 0 then Err(ArithmeticOverflow) else
    var s :- SettleForced(m.pool, m.curPrice, m.scale, m.curWaln, m.curSpent);
    :- Need(s.summary.walnPurchased <= m.curWaln, ArithmeticOverflow);
    Ok((m.(pool := s.pool), s.summary))
  }

  /** Forced settlement of a partly filled round. */
  function SettleByForce(m: State, now: i64): (r: Result<State>) {
    var paid :- ForcedPayouts(m, now);
    Finalize(paid.0, paid.1, now + m.curLockPeriod, now, m.carryover + (m.curWaln - paid.1.walnPurchased))
  }

  function CloseRound(m: State, now: i64): (r: Result<State>) {
    if !m.roundStarted || m.curWaln == 0 then Err(InvalidParameter) else
    var closed :- SettleByForce(m, now);
    Ok(NothingLocked(closed))
  }

  predicate Unlockable(pool: seq<InvestorRecord>) {
    forall i :: 0 <= i < |pool| ==> pool[i].usdcDeposited + pool[i].usdcLocked <= U64_MAX
  }

  function UnlockAll(pool: seq<InvestorRecord>): (p: seq<InvestorRecord>)
    requires Unlockable(pool)
  {
    seq(|pool|, i requires 0 <= i < |pool| =>
      pool[i].(usdcDeposited := pool[i].usdcDeposited + pool[i].usdcLocked, usdcLocked := 0))
  }

  function CancelRound(m: State): (r: Result<State>) {
    if !m.roundStarted || m.curWaln > 0 then Err(InvalidParameter) else
    :- Need(Unlockable(m.pool), ArithmeticOverflow);
    Ok(m.(pool := UnlockAll(m.pool), roundStarted := false, curWaln := 0, curSpent := 0, totalLocked := 0))
  }

  function CloseRoundRecord(m: State, round: u64): (r: Result<State>) {
    if round !in m.records then Err(AccountMissing) else
    Ok(m.(records := map k | k in m.records && k != round :: m.records[k]))
  }

  // ---------- claims ----------

  function AllocKeys(allocs: seq<InvestorAlloc>): (keys: seq<Pubkey>) {
    seq(|allocs|, i requires 0 <= i < |allocs| => allocs[i].investor)
  }

  /** The account after paying entry `k`, whether or not it is then closed. */
  function Reduced(account: RoundLockedWaln, k: nat): RoundLockedWaln
    requires k < |account.investors| && account.remainingToClaim > 0
  {
    account.(
      remainingToClaim := account.remainingToClaim - 1,
      investors := account.investors[k := account.investors[k].(walnAmount := 0)])
  }

  /** The round accounts after entry `k` was paid: the account is gone with its last unpaid entry. */
  function Paid(rounds: map<nat, RoundLockedWaln>, round: nat, k: nat): (r: map<nat, RoundLockedWaln>)
    requires round in rounds && k < |rounds[round].investors| && rounds[round].remainingToClaim > 0
  {
    if rounds[round].remainingToClaim == 1 then map r | r in rounds && r != round :: rounds[r]
    else rounds[round := Reduced(rounds[round], k)]
  }

  function Claim(m: State, investor: Pubkey, round: u64, now: i64): (r: Result<State>) {
    if round !in m.rounds then Err(AccountMissing) else
    :- Need(!m.frozen, ContractFrozen);
    var account := m.rounds[round];
    :- Need(now >= account.unlock, NotYetUnlocked);
    var k := IndexOf(AllocKeys(account.investors), investor);
    :- Need(k < |account.investors|, InvalidInvestor);
    var amount := account.investors[k].walnAmount;
    :- Need(amount > 0, AlreadyClaimed);
    :- Need(account.remainingToClaim > 0, ArithmeticOverflow);
    :- Need(amount <= m.walnVault, TokenTransferFailed);
    Ok(m.(rounds := Paid(m.rounds, round, k), walnVault := m.walnVault - amount))
  }

  // ---------- instructions ----------

  /** The program's instructions, and the token transfers anyone can make into its vaults. */
  datatype Instruction =
    | DepositUsdc(investor: Pubkey, amount: u64, now: i64)
    | WithdrawUsdc(investor: Pubkey, amount: u64, now: i64)
    | SellWaln(amount: u64, now: i64)
    | ClaimWaln(investor: Pubkey, round: u64, now: i64)
    | ForceClose(now: i64)
    | Cancel
    | RemoveInvestor(investor: Pubkey)
    | MintAatNft(investor: Pubkey, volume: u64)
    | UpdateAatVolume(investor: Pubkey, volume: u64)
    | ChangePrice(price: u64)
    | ChangeSize(size: u64)
    | ChangeLockPeriod(seconds: i64)
    | ChangeWithdrawLock(seconds: i64)
    | ChangeUnlock(investor: Pubkey, unlock: i64)
    | PauseSells(paused: bool)
    | Freeze(frozen: bool)
    | DropRecord(round: u64)
    | ReceiveUsdc(amount: u64)
    | ReceiveWaln(amount: u64)

  function Step(m: State, ins: Instruction): (r: Result<State>) {
    match ins
    case DepositUsdc(investor, amount, now) => Deposit(m, investor, amount, now)
    case WithdrawUsdc(investor, amount, now) => Withdraw(m, investor, amount, now)
    case SellWaln(amount, now) => Sell(m, amount, now)
    case ClaimWaln(investor, round, now) => Claim(m, investor, round, now)
    case ForceClose(now) => CloseRound(m, now)
    case Cancel => CancelRound(m)
    case RemoveInvestor(investor) => Remove(m, investor)
    case MintAatNft(investor, volume) => MintAat(m, investor, volume)
    case UpdateAatVolume(investor, volume) => UpdateAat(m, investor, volume)
    case ChangePrice(price) => SetFloorPrice(m, price)
    case ChangeSize(size) => SetRoundSize(m, size)
    case ChangeLockPeriod(seconds) => SetLockPeriod(m, seconds)
    case ChangeWithdrawLock(seconds) => SetWithdrawLock(m, seconds)
    case ChangeUnlock(investor, unlock) => SetUnlock(m, investor, unlock)
    case PauseSells(paused) => Ok(m.(sellPaused := paused))
    case Freeze(frozen) => Ok(m.(frozen := frozen))
    case DropRecord(round) => CloseRoundRecord(m, round)
    case ReceiveUsdc(amount) =>
      if m.usdcVault + amount <= U64_MAX then Ok(m.(usdcVault := m.usdcVault + amount)) else Err(TokenTransferFailed)
    case ReceiveWaln(amount) =>
      if m.walnVault + amount <= U64_MAX then Ok(m.(walnVault := m.walnVault + amount)) else Err(TokenTransferFailed)
  }

  /** The state after an instruction; a failed one leaves it as it was. */
  function Apply(m: State, ins: Instruction): State {
    match Step(m, ins)
    case Ok(n) => n
    case Err(_) => m
  }

  /** The state after a sequence of instructions. */
  function Run(m: State, trace: seq<Instruction>): State
    decreases |trace|
  {
    if |trace| == 0 then m else Run(Apply(m, trace[0]), trace[1..])
  }
}
