# Floor-price market: model and proofs

The program is a round-based floor-price market on Solana. Investors pool USDC in a lobby. A round
locks each eligible investor's share of a USDC cap, pro rata to the investor's AAT volume; sellers
then fill the round with wALN at the price the round started with. A round ends by full settlement,
by a forced close, or by cancellation, and investors later claim their wALN, once each.

The project models the program's accounts and instructions in Dafny and proves what holds of every
round, every settlement and every run. `dafny verify dfyconfig.toml` checks all of it.

## Layout

| files | content |
|---|---|
| `Arithmetic`, `Accounts` | sums, floor division, machine integers; stored records, errors, totals over the pool |
| `StartRound`, `Elimination`, `Gap`, `Eligibility` | the round start: its loops over the investor array, what the elimination computes and how long it takes, when the rounding gap is absorbed, and who ends up locking how much in terms of the records alone |
| `Settlement`, `ForcedSettlement`, `Allotment`, `SettlementEffects`, `DustRotation` | the two settlement engines with their loops, the stored allocation list, what they pay, and whom the timestamp picks for the old dust |
| `Market` | all accounts as one value, every instruction as a step on it, runs of instructions |
| `Invariant`, `RoundInvariant`, `Claims`, `Conservation` | the invariant, its preservation by every instruction, and the conserved quantities |
| `LobbyEffects`, `SaleEffects`, `SettledRounds`, `Refusals` | what each instruction changes, when it succeeds and why it is refused, stated over the fields of the accounts; what is on record for a round after each settlement, and the investors' lifetime counters |
| `Runs`, `Ledger`, `ClaimRuns`, `ClaimTimes`, `RoundRuns`, `RoundStarts`, `BalanceRuns` | theorems over runs: exact vault balances, solvency, dust, claims and when they open, round isolation, how rounds start and end, cancellation |
| `SmallRounds`, `DustyRounds` | runs into a round that cannot be closed by force, and into one that no sale fills |
| `Program` | the program as a class whose handlers update the accounts in place, each proved to be its step, and executed as a transaction |

A handler that fails rolls everything back, so its specification says nothing about the accounts
after an error; `FloorProgram.Execute` restores them. The one place where the program goes on after
an error is the automatic start, and there the accounts are proved untouched. For the same reason a
handler may check before it writes where the source interleaves the two; the order of the checks, and
so the error reported, is the source's.

Checked u64, u128 and i64 operations are modelled with their limits: a step whose operation does not
fit is the overflow error, and where the source's check cannot fail that is proved.

## Findings

* The rounding gap is always absorbed for three or more participants once the cap is at least twice
  their number (`GapHasRoom`), and no smaller factor does: a cap of one unit less can leave n - 1
  units unlocked (`GapBoundIsSharp`). Two participants can leave one unit (`TwoInvestorGap` says
  exactly when). So the comment at `sell_waln.rs:371-376`, that locks always sum to the full cap, is
  not true of every round; `StartGap` is what the code guarantees.
* The elimination loop also drops investors whose share rounds to 0, so with a cap below the total
  volume it can end with less than the greatest covered set (`SmallCapLosesInvestor`);
  `EliminationFindsGreatest` says exactly when it does not, and `StartPasses` who takes part then.
* A forced close of a partly filled round fails exactly when more was paid out than the round had
  locked, or the clock or the counter overflow (`CloseRoundSucceeds`). That is reachable for very
  small caps (`ForcedCloseCanFail`), never with at most two participants or a cap of twice their
  number (`SmallGapCloses`). Such a round cannot be cancelled either, and no run gets it out of that
  state but a sale that fills it (`OverpaidStays`). Depositors may withdraw until the vault cannot
  pay for that sale, and then not for the last deposit either (`VaultCanFallShort`).
* The checks after the payment loop of the forced close (`close_round.rs:264-265`), the `min` with
  the deposit in the round start, the carryover subtraction of the full settlement and the decrement
  of the claim counter never fail or apply.
* The event of a full settlement converts the USDC value of an allocation to u64
  (`sell_waln.rs:478-486`). Nothing else can make the settlement of a filled round fail but the clock
  and the round counter, and this does exactly when the participant who gets the old dust is then
  allocated more than a u64 is worth (`SettleSucceeds`). A run that carries dust from a low price to a
  high one gets there (`FillingCanFail`).
* The repository's README describes a claimed flag per allocation and a `set_paused` instruction;
  the code zeroes the claimed amount and counts the unpaid entries, and calls the setter
  `set_sell_paused`. The model follows the code.

## Model

| member | source | states |
|---|---|---|
| StartRound.SelectEligible | programs/floor-program/src/instructions/start_round.rs:21-62 | The loop over the mutable `eligible` array ends with exactly the mask of the recursive elimination started from the initial candidates, and with that mask's total volume, or raises the same error; it is entered as often as that recursion, on which the pass bounds are proved |
| StartRound.DropUncovered | programs/floor-program/src/instructions/start_round.rs:43-57 | One pass turns the mask into its survivors, all measured against the total fixed before the pass; it overflows exactly when a product of a member leaves u128, and reports a change exactly when somebody left |
| StartRound.SumEligible | programs/floor-program/src/instructions/start_round.rs:32-39 | The total volume of the masked investors, or an overflow exactly when that total exceeds u64 |
| StartRound.LockShares | programs/floor-program/src/instructions/start_round.rs:64-93 | Moves each eligible share from deposit to lock and leaves the rest of the array alone; fails exactly when the sum of the locks exceeds u64 |
| StartRound.AbsorbGap | programs/floor-program/src/instructions/start_round.rs:95-117 | The gap goes, whole, to the first eligible record that can pay it, or to nobody; no other record changes, and none at all on failure |
| StartRound.ExecuteRoundStart | programs/floor-program/src/instructions/start_round.rs:6-120 | The in-place start is the specified start; an error other than an overflow leaves the array as it was; unused slots are never touched |
| Elimination.EliminateKeepsCovered | programs/floor-program/src/instructions/start_round.rs:31-62 | A set whose members all cover their share of its own total, and have a visible share, never loses a member to the loop |
| Elimination.EliminateEnds | programs/floor-program/src/instructions/start_round.rs:31-62 | Without overflow the loop ends with a covered set, and reports no eligible investors exactly when that set is empty |
| Elimination.GreatestCoveredExists | programs/floor-program/src/instructions/start_round.rs:31-62 | Among the candidates there always is one covered set that contains all others |
| Elimination.EliminationFindsGreatest | programs/floor-program/src/instructions/start_round.rs:43-62 | The loop ends with the greatest covered set if and only if none of that set's members starts with a share that rounds to 0 |
| Elimination.LargeCapFindsGreatest | programs/floor-program/src/instructions/start_round.rs:21-62 | With a cap of at least the candidates' total volume the result is the greatest covered set, and the start is refused exactly when no non-empty covered set exists |
| Elimination.SmallCapLosesInvestor | programs/floor-program/src/instructions/start_round.rs:53-56 | With a small cap the premise is needed: a concrete covered pair of which one investor is dropped for a share that rounds to 0 |
| Elimination.PassesAtMostCandidates | programs/floor-program/src/instructions/start_round.rs:31-62 | Whatever the cap, the loop is entered at most once more than there are candidates |
| Elimination.DroppedHoldsMajority | programs/floor-program/src/instructions/start_round.rs:21-28 | A candidate with half the cap who cannot cover the share holds more than half of the volume |
| Elimination.PassHalvesVolume | programs/floor-program/src/instructions/start_round.rs:43-57 | With visible shares a pass that drops somebody drops exactly one investor and more than half of the volume |
| Elimination.RoundStartPasses | programs/floor-program/src/instructions/start_round.rs:31-62 | With a cap of at least the candidates' volume the loop is entered at most log2(volume) + 2 times |
| Elimination.OrderIndependence | programs/floor-program/src/instructions/start_round.rs:30-93 | Reordering the pool changes neither the error, nor who is eligible, nor anyone's lock before the gap |
| Gap.LocksAreShares | programs/floor-program/src/instructions/start_round.rs:71-81 | After the elimination the `min` with the deposit never applies and no eligible share is 0 |
| Gap.GapBelowCount | programs/floor-program/src/instructions/start_round.rs:64-95 | The floor shares never exceed the cap and miss less than one unit per eligible investor |
| Gap.GapHasRoom | programs/floor-program/src/instructions/start_round.rs:95-117 | From three eligible investors and a cap of twice their number on, some eligible investor can pay the whole gap |
| Gap.GapBoundIsSharp | programs/floor-program/src/instructions/start_round.rs:95-117 | The bound is sharp for every n from 3 on: n equal investors leave n - 1 units of a cap of 2n - 1 unlocked |
| Gap.TwoInvestorGap | programs/floor-program/src/instructions/start_round.rs:95-117 | Two participants leave at most one unit, and leave it exactly when the cap is odd and both deposits are half of it, rounded down |
| Gap.StartGap | programs/floor-program/src/instructions/start_round.rs:64-117 | Every start locks the whole cap except for two participants or a cap below twice their number; the cap fits u64 |
| Gap.LockedIffRoom | programs/floor-program/src/instructions/start_round.rs:95-117 | The whole cap is locked exactly when some eligible investor has room for the gap, otherwise just the floor shares |
| Gap.StartExplained | programs/floor-program/src/instructions/start_round.rs:64-119 | Any successful start is the floor shares of the mask the elimination ends with, plus at most one gap payment; if not all of the cap is locked, no eligible deposit had room |
| Gap.StartConserves | programs/floor-program/src/instructions/start_round.rs:83-119 | A start moves deposits into locks and changes nothing else; the lock total and the volume it returns are those of the new pool |
| Gap.RoundStartNeverOverflows | programs/floor-program/src/instructions/start_round.rs:12-117 | On a pool within the AAT limit and with deposits within u64 no checked operation fails: the start succeeds, or the cap is 0, or nobody is eligible |
| Gap.StartPermuted | programs/floor-program/src/instructions/start_round.rs:95-117 | Reordering the pool keeps the outcome of a start, its volume and the amount it locks; only who pays the gap may differ |
| Eligibility.StartFindsGreatest | programs/floor-program/src/instructions/start_round.rs:21-93 | A start is refused for want of investors or succeeds; those who hold a lock afterwards are the greatest set of investors with a deposit, a volume and half the cap who can each pay their share of it, if and only if nobody in that set has a share that, among all such investors, rounds to 0 |
| Eligibility.LargeCapStart | programs/floor-program/src/instructions/start_round.rs:21-93 | With a cap of at least the volume of the investors with a deposit, a volume and half the cap, the holders of the locks are that greatest set, and the start is refused exactly when no such set has a member |
| Eligibility.GreatestAffordableExists | programs/floor-program/src/instructions/start_round.rs:21-62 | Of all sets of investors with a deposit, a volume and half the cap who can each pay their share, one contains the others |
| Eligibility.StartPasses | programs/floor-program/src/instructions/start_round.rs:21-62 | With any cap, the holders are those whom passes from all the candidates on leave, each pass keeping exactly the members with a positive share within their deposit |
| Eligibility.PassesDetermine | programs/floor-program/src/instructions/start_round.rs:43-62 | Such passes can end with one set only |
| Eligibility.StartLocks | programs/floor-program/src/instructions/start_round.rs:64-119 | Each holder locks floor(cap · own volume / volume of the holders); what is missing to the cap goes whole to the first of them whose deposit still covers it, and to nobody if there is none; no other field of any record changes |
| Settlement.SpendAll | programs/floor-program/src/instructions/sell_waln.rs:320-368 | The loop spends every lock and collects the base allocations in pool order, failing exactly when one of its running totals leaves its width |
| Settlement.HandOutDust | programs/floor-program/src/instructions/sell_waln.rs:370-400 | All old dust goes to the entry at position (timestamp as u64) modulo the number of entries, in the list and in the record of its investor |
| Settlement.ExecuteSettleFull | programs/floor-program/src/instructions/sell_waln.rs:312-404 | Full settlement in place is the specified settlement: same pool, same stored list, same totals, same errors |
| SettlementEffects.BasesWithinSize | programs/floor-program/src/instructions/sell_waln.rs:339-347 | The base allocations sum to more than 0 and at most the round size, so the carryover subtraction never underflows |
| SettlementEffects.DustOfRound | programs/floor-program/src/instructions/sell_waln.rs:576-583 | price · new dust <= (scale - 1) + gap · scale + participants · (price - 1) |
| SettlementEffects.FullSucceeds | programs/floor-program/src/instructions/sell_waln.rs:320-486 | Full settlement of an open round, its totals and size with the old dust within u64, succeeds if and only if there is no old dust or the allocation of the participant the timestamp picks, dust included, is worth at most a u64 of USDC, which is what its log entry holds; the error is the overflow |
| SettlementEffects.FullAllocations | programs/floor-program/src/instructions/sell_waln.rs:366-404 | The stored list gives each participant the base allocation, and all the old dust on top to the participant that exactly (timestamp as u64) modulo (number of participants) others precede in the pool; keys strictly ascending, amounts positive, sums exact |
| SettlementEffects.PicksOne | programs/floor-program/src/instructions/sell_waln.rs:376-380 | Every timestamp picks one participant, by that count, and no other |
| DustRotation.DustRotates | programs/floor-program/src/instructions/sell_waln.rs:376-380 | Over as many consecutive timestamps as there are participants, with no wrap at 2^64 between them, each participant is picked exactly once |
| SettlementEffects.FullPool | programs/floor-program/src/instructions/sell_waln.rs:349-361 | Full settlement spends exactly the locks: keys, volumes and deposits stay, all locks become 0, the amount spent is the total lock |
| Allotment.Stored | programs/floor-program/src/instructions/sell_waln.rs:403-404 | Dropping zero entries and sorting keeps every investor's total, makes the keys strictly ascending, and counts the entries left to claim |
| Allotment.AllocationsFor | programs/floor-program/src/instructions/sell_waln.rs:366-366 | With distinct keys a participant finds exactly the own amount in the list |
| ForcedSettlement.UsdcPrefix | programs/floor-program/src/instructions/close_round.rs:41-64 | After any prefix of the pool the shares sum to the floors plus the units handed out, which is the smaller of the remainder and the room so far |
| ForcedSettlement.UsdcSharesExact | programs/floor-program/src/instructions/close_round.rs:41-64 | For any locks and any positive amount up to their total: every share is within its lock, the shares sum to exactly the amount, and the remainder is used up within one pass |
| ForcedSettlement.WalnSharesExact | programs/floor-program/src/instructions/close_round.rs:206-221 | The pro-rata wALN shares, the last participant taking the rest, are non-negative and sum to exactly the wALN sold |
| ForcedSettlement.SumLocks | programs/floor-program/src/instructions/close_round.rs:119-144 | The first loop computes the totals of the full wALN values, the locks and the participants, failing exactly when one leaves its width |
| ForcedSettlement.SumBaseShares | programs/floor-program/src/instructions/close_round.rs:152-172 | The second loop computes the sum of the floor shares; none of its checked operations can fail |
| ForcedSettlement.PayAll | programs/floor-program/src/instructions/close_round.rs:186-262 | The third loop pays, refunds and lists every participant as the closed-form shares say, failing exactly when a prefix leaves the machine integers |
| ForcedSettlement.ExecuteSettleForced | programs/floor-program/src/instructions/close_round.rs:119-268 | Forced settlement in place is the specified settlement, and the two checks after the loop are proved never to fail |
| SettlementEffects.ForcedSucceeds | programs/floor-program/src/instructions/close_round.rs:145-265 | On a pool within the limits a forced settlement fails exactly when more was paid out than locked, and then with the overflow error |
| SettlementEffects.ForcedPool | programs/floor-program/src/instructions/close_round.rs:230-252 | Each investor gets lock minus share back, the balances drop by exactly the amount paid to sellers, and nothing else changes |
| SettlementEffects.ForcedAllocations | programs/floor-program/src/instructions/close_round.rs:206-268 | The stored list hands out exactly the wALN sold, so a forced close adds no dust |
| SettledRounds.FullCounters | programs/floor-program/src/instructions/sell_waln.rs:349-399 | A full settlement raises each investor's lifetime counters by the whole lock and by exactly what the stored list allocates to the investor, the dust winner's included |
| SettledRounds.ForcedCounters | programs/floor-program/src/instructions/close_round.rs:239-246 | A forced settlement raises them by the investor's share of the payouts and by what the stored list allocates |
| SettledRounds.FullRecorded | programs/floor-program/src/instructions/sell_waln.rs:450-563 | After a full settlement the record shows the time, the wALN bought including the old dust, the total lock as spent, the volume of the locks and the number of participants; claims open after the lock period |
| SettledRounds.FullCounted | programs/floor-program/src/instructions/sell_waln.rs:349-399 | After a full settlement every deposit is what it was, the paid counter grew by the lock, and the purchase counter by exactly what the investor can now claim |
| SettledRounds.ForcedRecorded | programs/floor-program/src/instructions/close_round.rs:186-397 | After a forced close the record shows exactly the wALN sold and the USDC paid; each investor can claim the own wALN share and got back the lock less the own share of the payouts |
| SettledRounds.FullEnds | programs/floor-program/src/instructions/sell_waln.rs:450-583 | A full settlement takes the total lock off the lobby, adds the two accounts of the round, moves the round counter on, resets the counters of the round, and changes nothing but these, the pool and the carryover |
| SettledRounds.ForcedEnds | programs/floor-program/src/instructions/close_round.rs:270-423 | A forced close does the same with the amount paid to the sellers, and keeps the carryover |
| LobbyEffects.DepositEffect | programs/floor-program/src/instructions/deposit_usdc.rs:107-158 | The amount is added to the vault, the lobby and the record of the investor, who is appended to the pool if new; the record takes the volume of the NFT, and its unlock time stays or becomes now plus the withdraw lock, whichever is later; nothing else changes |
| LobbyEffects.DepositSucceeds | programs/floor-program/src/instructions/deposit_usdc.rs:65-158 | A deposit succeeds if and only if the market is not frozen, the amount is positive, the NFT has a volume, the pool has the investor or a free slot, and the vault, the lobby and the unlock time have room: the record never overflows |
| LobbyEffects.WithdrawEffect | programs/floor-program/src/instructions/withdraw_usdc.rs:78-110 | The vault, the lobby and the deposit of the investor drop by exactly the amount asked for, or by the whole deposit when the largest u64 was asked for; every other record and account stays |
| LobbyEffects.RemoveEffect | programs/floor-program/src/instructions/admin.rs:246-327 | Exactly the record of the investor leaves the pool, its deposit leaves the vault and the lobby, and nobody in the pool has the key any more |
| LobbyEffects.RemoveSucceeds | programs/floor-program/src/instructions/admin.rs:246-327 | A removal succeeds if and only if the investor has a record without volume and lock whose deposit the vault can refund |
| LobbyEffects.MintSucceeds | programs/floor-program/src/instructions/mint_aat_nft.rs:56-69 | An NFT is minted if and only if its volume is positive, the market is not frozen, the new total is within the limit, and the investor has none |
| LobbyEffects.UpdateAatEffect | programs/floor-program/src/instructions/update_aat_volume.rs:53-111 | The NFT and, if there is one, the record of the investor get the volume asked for, the total the difference, and nothing else changes |
| LobbyEffects.UpdateAatSucceeds | programs/floor-program/src/instructions/update_aat_volume.rs:53-79 | A volume change succeeds if and only if no round is running, the NFT exists, and the new total is within the limit |
| LobbyEffects.UnlockTimeEffect | programs/floor-program/src/instructions/admin.rs:87-104 | The unlock time of the investor becomes the one given and nothing else changes; it fails exactly when the investor has no record |
| LobbyEffects.CancelEffect | programs/floor-program/src/instructions/admin.rs:173-198 | A cancel returns every lock to its deposit, resets the round, and changes nothing else, in particular no unlock time and no lifetime counter |
| LobbyEffects.InitializeEffect | programs/floor-program/src/instructions/initialize.rs:73-129 | Initialization succeeds if and only if the price and the cap are positive, the size is at least the minimum, and the lock period is not negative; the program is then configured as asked, idle, and empty |
| SaleEffects.SellerPaid | programs/floor-program/src/instructions/sell_waln.rs:115-277 | Every successful sell, whether it opens a round, goes on with one or fills it, takes exactly the amount asked for or all that the round has left, if that is less, and pays exactly floor(amount · price / scale) at the price of the round it goes into |
| SaleEffects.PartBooked | programs/floor-program/src/instructions/sell_waln.rs:178-277 | A sell of less than the round has left adds that amount and its value to the counters of the round, moves the tokens, and changes nothing else |
| SaleEffects.PartSucceeds | programs/floor-program/src/instructions/sell_waln.rs:94-277 | It succeeds if and only if sells are not stopped, the value is positive and in the vault, the wALN vault has room, what is left of the round is still worth something, and a first part has the minimum: no counter ever overflows |
| SaleEffects.OpeningSucceeds | programs/floor-program/src/instructions/sell_waln.rs:157-169 | A sell into an idle market succeeds if and only if a round can be started and the sell succeeds in the round started |
| Refusals.DepositRefused | programs/floor-program/src/instructions/deposit_usdc.rs:65-158 | The error that a refused deposit reports names a condition that it fails, and no other error is ever reported |
| Refusals.WithdrawalRefused | programs/floor-program/src/instructions/withdraw_usdc.rs:51-110 | The same for a withdrawal, which never overflows |
| Refusals.RemovalRefused | programs/floor-program/src/instructions/admin.rs:246-327 | The same for a removal, which never overflows |
| Refusals.MintRefused | programs/floor-program/src/instructions/mint_aat_nft.rs:56-69 | The same for minting |
| Refusals.UpdateRefused | programs/floor-program/src/instructions/update_aat_volume.rs:53-79 | The same for a volume change |
| Refusals.ClaimRefused | programs/floor-program/src/instructions/claim_waln.rs:68-105 | The same for a claim: an unknown investor and a paid entry are told apart, and no transfer or counter ever fails |
| Refusals.PartRefused | programs/floor-program/src/instructions/sell_waln.rs:94-277 | The same for a sell of less than the round has left |
| Invariant.InitializeEstablishes | programs/floor-program/src/instructions/initialize.rs:73-129 | The state of a successful initialization satisfies the invariant |
| Invariant.DepositKeeps | programs/floor-program/src/instructions/deposit_usdc.rs:65-161 | A deposit keeps the invariant and the wALN excess, whether it appends a record or finds one |
| Invariant.WithdrawKeeps | programs/floor-program/src/instructions/withdraw_usdc.rs:51-113 | A withdrawal keeps the invariant and the wALN excess, also in the middle of a round |
| Invariant.RemoveKeeps | programs/floor-program/src/instructions/admin.rs:246-327 | Removing by swap keeps the invariant: keys stay distinct, totals follow the refund, the locks of a running round are untouched |
| Invariant.MintKeeps | programs/floor-program/src/instructions/mint_aat_nft.rs:56-69 | Minting keeps the AAT total equal to the sum of all NFTs and within the limit |
| Invariant.UpdateAatKeeps | programs/floor-program/src/instructions/update_aat_volume.rs:53-111 | A volume change keeps the total, the NFT and the pool record in step |
| Invariant.PoolVolumeBounded | programs/floor-program/src/instructions/update_aat_volume.rs:66-79 | The volumes of distinct investors of a pool never sum to more than all NFTs together |
| RoundInvariant.BeginKeeps | programs/floor-program/src/instructions/sell_waln.rs:157-169 | Opening a round between rounds keeps the invariant and starts with no sales |
| RoundInvariant.BeginNeverOverflows | programs/floor-program/src/instructions/start_round.rs:12-117 | In every invariant state a round start succeeds or reports that nobody is eligible |
| RoundInvariant.PaidBelowCap | programs/floor-program/src/instructions/sell_waln.rs:270-277 | While a round is open it paid at most the value of the wALN sold, which is below the cap, and what is left can still be paid within the cap |
| RoundInvariant.SettleKeeps | programs/floor-program/src/instructions/sell_waln.rs:320-583 | Full settlement leaves an idle market that satisfies the invariant; the wALN excess stays and the new carryover is the round size less the base allocations |
| RoundInvariant.SettleSucceeds | programs/floor-program/src/instructions/sell_waln.rs:278-583 | Full settlement of any reachable filled round succeeds if and only if the unlock time and the round counter have room and the log entry of the dust's recipient holds |
| RoundInvariant.SellKeeps | programs/floor-program/src/instructions/sell_waln.rs:90-615 | A sell keeps the invariant in each of its cases: opening, booking, settling, starting the next round or skipping that |
| RoundInvariant.CloseRoundKeeps | programs/floor-program/src/instructions/close_round.rs:67-423 | A forced close keeps the invariant, the wALN excess and the carryover, and ends the round |
| RoundInvariant.CloseRoundSucceeds | programs/floor-program/src/instructions/close_round.rs:76-150 | In every invariant state a forced close succeeds if and only if the round is partly filled, no more was paid than locked, and the unlock time and the round counter have room |
| RoundInvariant.SmallGapCloses | programs/floor-program/src/instructions/close_round.rs:146-150 | With at most two participants, or a cap of at least twice their number, a partly filled round can be closed by force if and only if the unlock time and the round counter have room |
| RoundInvariant.CancelKeeps | programs/floor-program/src/instructions/admin.rs:173-198 | Cancelling keeps the invariant and leaves nothing locked |
| RoundInvariant.CancelSucceeds | programs/floor-program/src/instructions/admin.rs:173-198 | A round can be cancelled exactly while it is started and unsold; the refund addition never overflows |
| SmallRounds.ForcedCloseCanFail | programs/floor-program/src/instructions/close_round.rs:147-150 | A run from initialization to a partly filled round that can neither be closed by force nor be cancelled: three equal investors lock 3 units of a cap of 5, of which a sale is paid 4 |
| SmallRounds.VaultCanFallShort | programs/floor-program/src/instructions/withdraw_usdc.rs:76-104 | A run on from there to a round that no sale, no forced close and no cancellation ends, while an investor past the unlock time cannot withdraw the own deposit: the premise of the solvency results on whole caps is needed |
| Claims.BinarySearch | programs/floor-program/src/instructions/claim_waln.rs:89-92 | On a strictly ascending list the search returns the position of the key, and finds it exactly when it is listed |
| Claims.EntryAmount | programs/floor-program/src/instructions/claim_waln.rs:89-99 | The entry found for a key holds everything the list owes it; a key that is not found is owed nothing |
| Claims.ClaimPays | programs/floor-program/src/instructions/claim_waln.rs:94-105 | A claim pays exactly what the investor was owed and clears it, owes everyone else what they were owed, and removes the account exactly with the last unpaid entry |
| Claims.ClaimKeeps | programs/floor-program/src/instructions/claim_waln.rs:65-165 | A claim keeps the invariant: the counter still counts the unpaid entries, the wALN excess stays |
| Claims.ClaimSucceeds | programs/floor-program/src/instructions/claim_waln.rs:68-149 | A claim succeeds if and only if the market is not frozen, something is owed and the lock period is over: the vault always covers it and the counter never underflows |
| Claims.ClaimEffect | programs/floor-program/src/instructions/claim_waln.rs:94-105 | A claim zeroes the entry of the investor and counts it off, or removes the account with its last unpaid entry; the unlock time, the other entries and the other accounts stay |
| Claims.AccountOpenIffOwed | programs/floor-program/src/instructions/claim_waln.rs:101-105 | A round account exists if and only if somebody is owed something from it |
| ClaimRuns.OwedStep | programs/floor-program/src/instructions/claim_waln.rs:94-99 | Only the investor's own successful claim changes what a settled round owes, and pays all of it |
| ClaimRuns.ClaimedOnce | programs/floor-program/src/instructions/claim_waln.rs:94-99 | Over any run the payments to an investor for a settled round plus what is still owed is what was owed, and the number of successful claims is one if the debt was cleared and zero otherwise |
| ClaimTimes.UnlockStays | programs/floor-program/src/instructions/claim_waln.rs:75-105 | Over any run a round account that is still there has the unlock time it had |
| ClaimTimes.StaysClaimable | programs/floor-program/src/instructions/claim_waln.rs:68-99 | After any run without a claim of the investor for the round, what was owed is still owed, and can be claimed if and only if the market is not frozen and the unlock time that the account had at the beginning is reached |
| ClaimTimes.ClaimableAfterSettlement | programs/floor-program/src/instructions/sell_waln.rs:450-476 | What a full settlement allots can, after any such run, be claimed exactly from the time of the settlement plus the lock period of the round on, unless the market is frozen |
| ClaimTimes.ClaimableAfterClose | programs/floor-program/src/instructions/close_round.rs:270-340 | The same for what a forced close allots |
| Conservation.StepConserves | programs/floor-program/src/lib.rs:25-139 | Every instruction, failed or not, keeps the invariant; only outside transfers change the wALN excess, only those and the shortfall of a full settlement change the USDC excess, only a full settlement changes the carryover |
| Conservation.SellConserves | programs/floor-program/src/instructions/sell_waln.rs:90-615 | What a sell does to both excesses and to the carryover, in each of its cases |
| Runs.RecordsAddUp | programs/floor-program/src/instructions/deposit_usdc.rs:140-158 | Over any run the lobby and lock totals are those of the records, nothing is locked or in progress between rounds, the AAT total is that of all NFTs and within the limit, and keys are distinct |
| Runs.WalnConserved | programs/floor-program/src/instructions/sell_waln.rs:576-583 | Over any run the wALN vault holds exactly the unclaimed allocations, the carryover, the unsettled sales and what outsiders sent |
| Runs.UsdcConserved | programs/floor-program/src/instructions/sell_waln.rs:565-575 | Over any run the USDC vault holds exactly the balances less the current payments, plus what outsiders sent and what full settlements locked beyond what they paid |
| Ledger.VaultStep | programs/floor-program/src/lib.rs:25-139 | Every instruction moves exactly its amounts: deposits and outside transfers as asked for, withdrawals as asked for or the whole deposit, refunds the whole deposit, sells the amount taken and floor(amount · price / scale), claims what is owed; a failed one moves nothing |
| Ledger.Ledgers | programs/floor-program/src/lib.rs:25-139 | Over any run from initialization each vault holds exactly the sum of these movements |
| Ledger.SalesAddUp | programs/floor-program/src/instructions/sell_waln.rs:262-277 | Over any run while a round lasts, what it has sold and paid grows by exactly the sums of what its sells took and what their sellers got |
| Runs.Solvent | programs/floor-program/src/instructions/withdraw_usdc.rs:76-110 | Over any run the vault plus the gaps of the fully settled rounds covers all balances less the current payments, and plus the open gap covers all deposits |
| Runs.WithdrawalSucceeds | programs/floor-program/src/instructions/withdraw_usdc.rs:51-113 | In every state of the program a withdrawal succeeds if and only if the market is not frozen, the investor exists, is past the unlock time and asks for a positive amount within the deposit (or, with the largest u64, for a positive deposit), and the vault holds it |
| Runs.WithdrawalsPayable | programs/floor-program/src/instructions/withdraw_usdc.rs:51-113 | When every start locked its whole cap, the vault covers all deposits, so the last of these conditions always holds |
| Runs.DustAfterSettlement | programs/floor-program/src/instructions/sell_waln.rs:576-583 | After a full settlement the carryover obeys the bound of that one round, whatever it was before |
| Runs.DustNeverAccumulates | programs/floor-program/src/instructions/sell_waln.rs:340-400 | At the end of any run the carryover is the initial one or within the bound of one single round of the run |
| RoundRuns.NoStuckRound | programs/floor-program/src/instructions/sell_waln.rs:124-155 | In every open round a sell of the remaining capacity passes all amount guards and is worth a positive amount; what was sold is 0 or at least the minimum, and below the size |
| RoundRuns.RoundCompletes | programs/floor-program/src/instructions/sell_waln.rs:90-615 | In every open round a sell of the remaining capacity succeeds if and only if sells are not stopped, the wALN vault can take the wALN, the USDC vault can pay for it, the unlock time and the round counter have room, and the log entry of the old dust's recipient holds; it then settles the round |
| RoundRuns.VaultCoversRound | programs/floor-program/src/instructions/sell_waln.rs:178-189 | After any run whose starts locked their whole caps the USDC vault can pay for what is left of the open round |
| DustyRounds.FillingCanFail | programs/floor-program/src/instructions/sell_waln.rs:478-486 | A run from initialization to a half-sold round in which sells are open, the vaults, the clock and the counter have room, and yet no sale of the rest succeeds, because of the log entry alone; a forced close still does |
| RoundRuns.OverpaidStays | programs/floor-program/src/instructions/close_round.rs:146-150 | Over any run, a round that paid more than it locked stays so, and can neither be closed by force nor be cancelled, until a sale fills it |
| RoundRuns.TermsIsolated | programs/floor-program/src/instructions/sell_waln.rs:262-269 | While a round runs, no instruction changes its price, size, lock period, lock total, or anyone's lock and its volume |
| RoundRuns.RoundIsolation | programs/floor-program/src/instructions/sell_waln.rs:324-367 | From a running round through any run up to its full settlement: each investor is allocated floor(own lock at the beginning · scale / price at the beginning), the participant the timestamp picks also gets the old dust, and the recorded AAT volume is that of the locks at the beginning |
| RoundRuns.SettlementAllots | programs/floor-program/src/instructions/sell_waln.rs:324-404 | What a filling sale leaves, whether the round was running or the sale opened it: each investor is owed the value of the lock at the price of that round, and the participant the timestamp picks all the old dust |
| RoundStarts.RoundsStartInSells | programs/floor-program/src/instructions/sell_waln.rs:585-614 | Whenever an instruction leaves a new round running, it is a sell, and the round is exactly the start of an idle market: the one before the sell, or the one its settlement left |
| RoundStarts.NextRound | programs/floor-program/src/instructions/sell_waln.rs:585-614 | After a filling sale the next round is running if and only if a start on the settled pool, at the configured size and price, succeeds, and is then exactly that start; otherwise nobody was eligible, and the market is as the settlement left it, with nothing locked |
| RoundStarts.NextRoundIfAffordable | programs/floor-program/src/instructions/sell_waln.rs:585-614 | With a configured cap of at least the candidates' volume: if and only if some investors of the settled pool with a deposit, a volume and half the cap can each pay their share of it |
| RoundStarts.BeginTouches | programs/floor-program/src/instructions/sell_waln.rs:262-269 | A start changes nothing but the pool and the terms and counters of the round |
| RoundStarts.RoundAccounted | programs/floor-program/src/instructions/sell_waln.rs:157-404 | From the instruction that starts a round, be it the opening sale or the automatic start, over any run while it lasts, to its full settlement: the recorded AAT volume and spending are the volume and lock total that the start computed, and each investor is allocated floor(lock taken by the start · scale / price at the start), and the old dust if the timestamp picks the investor |
| RoundStarts.FilledAtOnce | programs/floor-program/src/instructions/sell_waln.rs:157-404 | The same for a sale that opens a round and fills it at once |
| RoundStarts.OnlyAutoStartedCancels | programs/floor-program/src/instructions/admin.rs:173-181 | A cancel only ever succeeds in a round that was started automatically and has not sold anything |
| BalanceRuns.BalanceStep | programs/floor-program/src/instructions/deposit_usdc.rs:140-158 | Without a settlement an instruction changes an investor's balance by that investor's own deposits, withdrawals and refunds only |
| BalanceRuns.BalanceOverRun | programs/floor-program/src/instructions/withdraw_usdc.rs:82-110 | The same over any run without a settlement |
| BalanceRuns.CancelRestores | programs/floor-program/src/instructions/admin.rs:173-198 | After a sale that settled a round and started the next, over any run without another settlement, a cancel leaves every investor the deposit from before that sale (if the sale opened the settled round itself, what that start left of it) plus the investor's own payments, and a lobby of just the deposits |
| Program.Initialize | programs/floor-program/src/instructions/initialize.rs:73-129 | Initialization refuses exactly the parameters the specification refuses, else returns a program whose accounts satisfy the invariant |
| Program.FloorProgram.constructor | programs/floor-program/src/instructions/initialize.rs:96-128 | The accounts of a new program, which satisfy the invariant |
| Program.FloorProgram.DepositUsdc | programs/floor-program/src/instructions/deposit_usdc.rs:65-161 | The deposit on the accounts in place is the deposit step on their value, with the same errors |
| Program.FloorProgram.WithdrawUsdc | programs/floor-program/src/instructions/withdraw_usdc.rs:51-113 | The withdrawal in place is the withdrawal step |
| Program.FloorProgram.RemoveInvestor | programs/floor-program/src/instructions/admin.rs:246-327 | Refund and swap-remove in place are the removal step |
| Program.FloorProgram.UpdateAatVolume | programs/floor-program/src/instructions/update_aat_volume.rs:53-111 | Total, NFT and record rewritten in place are the update step |
| Program.FloorProgram.MintAatNft | programs/floor-program/src/instructions/mint_aat_nft.rs:56-69 | The cap check and the new NFT are the mint step |
| Program.FloorProgram.RequireViable | programs/floor-program/src/instructions/start_round.rs:122-136 | Parameters are viable exactly when the cap is positive and the size at least the minimum |
| Program.FloorProgram.SaleAmount | programs/floor-program/src/instructions/sell_waln.rs:124-155 | The amount a sell takes, or the guard it fails, from the open round or from the configuration |
| Program.FloorProgram.BeginRound | programs/floor-program/src/instructions/sell_waln.rs:262-269 | Round start in place is the start step; the two errors the automatic start swallows are raised before any account is written |
| Program.FloorProgram.TakeSale | programs/floor-program/src/instructions/sell_waln.rs:178-277 | The payout and the counters in place are the sale step |
| Program.FloorProgram.SettleRound | programs/floor-program/src/instructions/sell_waln.rs:278-583 | Full settlement in place is the settlement step |
| Program.FloorProgram.AutoStart | programs/floor-program/src/instructions/sell_waln.rs:585-614 | The next round is started, or the market left idle with nothing locked for exactly the two swallowed errors |
| Program.FloorProgram.SellWaln | programs/floor-program/src/instructions/sell_waln.rs:90-617 | The sell handler on the accounts is the sell step |
| Program.FloorProgram.ForceClose | programs/floor-program/src/instructions/close_round.rs:67-423 | The forced close on the accounts is its step |
| Program.FloorProgram.CancelRound | programs/floor-program/src/instructions/admin.rs:173-198 | The loop over the records unlocks each of them in place; the handler is the cancel step |
| Program.FloorProgram.ClaimWaln | programs/floor-program/src/instructions/claim_waln.rs:65-165 | The claim on the accounts, found by binary search, is the claim step; its counter decrement never fails |
| Program.FloorProgram.Execute | programs/floor-program/src/lib.rs:25-139 | Each instruction as a transaction: the accounts take the step, or are exactly what they were when it fails; either way the invariant and the conserved quantities are kept |

## Left out

- Account plumbing: derived addresses, account constraints and remaining accounts, rent, creation, resizing and closing of accounts, lamports, the treasury. Creating an account is assumed to succeed.
- Authority: who signs an instruction, the admin checks, and the transfer of authority.
- Token calls: a transfer moves its exact amount out of or into a vault and fails only when the vault cannot pay or would exceed u64; payers are assumed to hold what they send. Transfer hooks and mint checks are not modelled.
- NFT metadata: minting, parsing and rewriting of the metadata string are replaced by a map from investor to volume; that the depositor's token account holds the NFT is assumed.
- Event logs and serialization, except for the one conversion in the settlement log that can fail.
- Decimals: the scale is any number from 1 to 10^19 instead of a power of ten, so that scale times a u64 fits u128.
- Lifetime counters: `usdc_committed` and `waln_purchased_total` are unbounded, so their overflow is not modelled.
- Keys: a public key is a natural number, ordered as its bytes are; no bound on it is needed.
- Standard library: `sort_unstable_by` is modelled by insertion into a sorted list and `retain` by filtering, as functions; only the search, `binary_search_by_key`, is modelled as a loop.
- Clients, scripts, the interface description and the test suites of the repository.
