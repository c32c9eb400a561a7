# Parlays: a verified model of the betting core

This project models the core of a small social betting application in Dafny.

- Users create **props**: a statement about a person, with an expected tally count (`ev`) and an end time.
- Users offer **options** on a prop: an over/under line with American odds.
- Users record **tallies**: occurrences that count towards a prop.
- Users place **parlays**: a stake of coins on several legs at once.

The model covers:

- the odds pricer, and how adding or deleting a tally re-prices a prop's lines;
- placing, settling and cashing out a parlay against a store of tables;
- registration and coin top-ups;
- the client-side logic:
  - the betslip kept in local storage and its add/remove button;
  - the two dialogs that create props and lines;
  - the parlay card's figures (combined odds, progress bars, countdown, cash-out estimate, privacy);
  - the periodic settlement check;
  - the avatar's initials.

Arithmetic is exact: JavaScript numbers become `real` or `int`, and `Math.round` is `Numeric.Round` (halves go up). The database is a class `Store.Database` whose fields are the tables. A server action is a method that modifies it, specified by a function from the tables before to the tables after. React state becomes a class whose methods are the event handlers and effects.

Modules, one per source area:

| module | source |
|---|---|
| `Wrappers`, `Numeric`, `Text` | shared helpers (`Option`/`Result`, rounding, `parseInt`/`parseFloat`/`toFixed`, `split`, case mapping) |
| `Store` | the tables |
| `Odds` | the odds pricer |
| `Valuation` | decimal odds, win state, payout and cash-out formulas |
| `Repricing` | adding and deleting tallies |
| `Settlement` | resolving parlays |
| `CashOut` | cashing out |
| `Ledger` | placing parlays, deleting props, top-ups |
| `Accounts` | registration |
| `OptionDialog` | the line dialog |
| `PropDialog` | the prop dialog |
| `PropsList` | the prop list |
| `ParlayCard`, `ProgressBar`, `Countdown` | the parlay card |
| `Betslip` | the betslip |
| `ParlayResolver` | the settlement check |
| `Avatar` | initials |

## Model

| member | source | states |
|---|---|---|
| `Numeric.Round` | app/actions/parlays/resolve-parlays.ts:118 | `Math.round`: the result is the integer within half of its argument, halves rounded up |
| `Numeric.Clamp` | app/actions/parlays/cash-out-parlay.ts:92 | `max(lo, min(hi, x))` lies in `[lo, hi]` and is `x` when `x` is already there |
| `Text.FormatOddsSign` | app/components/parlays/parlay-card.tsx:78-80 | formatted odds start with '+' exactly for positive odds and with '-' exactly for negative ones |
| `Text.SanitiseOdds` | app/components/prop-options/create-prop-option-dialog.tsx:204 | the filter keeps only digits, '+' and '-', and leaves a string of those unchanged |
| `Text.SanitiseIdempotent` | app/components/prop-options/create-prop-option-dialog.tsx:203-213 | filtering a field twice is filtering it once |
| `Text.ReplaceFirstPlus` | app/components/prop-options/create-prop-option-dialog.tsx:107 | removing the first '+' leaves a '+'-free string unchanged and keeps the odds alphabet |
| `Text.ParseInt` | app/components/prop-options/create-prop-option-dialog.tsx:107-108 | `parseInt` on the odds alphabet: the empty string is NaN |
| `Text.ParseIntShowNat` | app/components/prop-options/create-prop-option-dialog.tsx:107-108 | `parseInt` reads a written natural number back as that number |
| `Text.ParseIntNegShowNat` | app/components/prop-options/create-prop-option-dialog.tsx:107-108 | `parseInt` reads "-" followed by a positive number back as its negation |
| `Text.ParseFormattedOdds` | app/components/prop-options/create-prop-option-dialog.tsx:237-238 | formatted odds, with the '+' stripped and `parseInt` applied, give back the odds: format and parse are inverse |
| `Text.ShowHalfEndsWithHalf` | app/components/prop-options/create-prop-option-dialog.tsx:218-221 | a half-integer written with `toFixed(1)` ends in ".5" exactly when it is not whole |
| `Text.ParseShowHalf` | app/components/prop-options/create-prop-option-dialog.tsx:148-149 | `parseFloat` of a half-integer written by `toFixed(1)` is that half-integer |
| `Text.ParseShowNegativeHalf` | app/components/prop-options/create-prop-option-dialog.tsx:148-149 | the same round trip for negative half-integers |
| `Text.Upper` | components/user/avatar.tsx:11-14 | `toUpperCase` maps each character and keeps the length |
| `Text.Lower` | app/actions/coins/create-coins.ts:11 | `toLowerCase` maps each character and keeps the length |
| `Text.SplitSpaces` | components/user/avatar.tsx:10 | `split(' ')` gives at least one piece and no piece contains a space |
| `Text.SplitJoin` | components/user/avatar.tsx:10 | joining the pieces of `split(' ')` with spaces gives back the name |
| `Text.SplitWithSpace` | components/user/avatar.tsx:9-10 | a name containing a space splits into at least two pieces |
| `Odds.Shift` | app/actions/tallies/add-tally.ts:127-129 | the probability shift lies in `[0, 0.4]`, and is positive for any line off `ev` |
| `Odds.OverProbability` | app/actions/tallies/add-tally.ts:120-140 | the over's probability lies in `[0.1, 0.9]`; it is above one half exactly when the line is below `ev`, and one half exactly at `ev` |
| `Odds.UnderProbability` | app/actions/tallies/add-tally.ts:120-140 | the under's probability is the complement of the over's |
| `Odds.ProbToOdds` | app/actions/tallies/add-tally.ts:143-157 | a favourite gets odds of -100 or less and an underdog 94 or more; on `[0.1, 0.9]` the odds stay within [-900, 846] |
| `Odds.FavouriteBounds` | app/actions/tallies/add-tally.ts:144-146 | the unrounded favourite price lies in [-900, -100] |
| `Odds.UnderdogBounds` | app/actions/tallies/add-tally.ts:147-155 | the underdog price after the 6% house edge lies in [94, 846] |
| `Odds.HouseEdgeBounds` | app/actions/tallies/add-tally.ts:151-153 | the 6% cut maps a rounded price in [100, 900] into [94, 846] |
| `Odds.RoundTo5` | app/actions/tallies/add-tally.ts:162-164 | the result is a multiple of 5 within 2 of its input |
| `Odds.RoundTo5Within` | app/actions/tallies/add-tally.ts:162-164 | rounding to 5 stays within bounds that are themselves multiples of 5 |
| `Odds.RoundTo5Monotone` | app/actions/tallies/add-tally.ts:162-164 | rounding to 5 preserves order |
| `Odds.UnderdogRoundTo5` | app/actions/tallies/add-tally.ts:162-164 | an underdog price in [94, 846] rounds into [95, 845] |
| `Odds.PriceAtEv` | app/actions/tallies/add-tally.ts:122-125 | a line exactly at `ev` is priced -100 on both sides |
| `Odds.SideOddsInRange` | app/actions/tallies/add-tally.ts:143-164 | each side's final odds are in range and multiples of 5, negative exactly for a favourite |
| `Odds.PriceLine` | app/actions/tallies/add-tally.ts:119-167 | both quotes are in the pricer's range; the over is the favourite (negative) exactly when the line is at most `ev`, the under exactly when it is at least `ev` |
| `Odds.PriceMirror` | app/actions/tallies/add-tally.ts:119-140 | lines the same distance above and below `ev` get swapped quotes |
| `Odds.PriceMonotone` | app/actions/tallies/add-tally.ts:119-167 | raising the line never lowers the over's odds and never raises the under's |
| `Odds.OverProbabilityAntitone` | app/actions/tallies/add-tally.ts:127-139 | the over's probability does not increase with the line |
| `Odds.ProbToOddsAntitone` | app/actions/tallies/add-tally.ts:143-157 | a higher probability never gets longer odds |
| `Odds.ImpliedProbability` | app/components/prop-options/create-prop-option-dialog.tsx:111-118 | the implied probability of any odds lies in [0, 1) |
| `Odds.ImpliedProbabilityVersusHalf` | app/components/prop-options/create-prop-option-dialog.tsx:111-123 | the implied probability is above one half exactly for odds below -100 (or in 1..99), and one half exactly at +100 and -100 |
| `Odds.LineFromProbabilitySide` | app/components/prop-options/create-prop-option-dialog.tsx:123-145 | the derived line is `abs(implied - 0.5) / 0.8 * ev` from `ev`, on the side the branches choose for over and under |
| `Odds.LineFromPricedProbability` | app/components/prop-options/create-prop-option-dialog.tsx:104-150 | reading the line back from the pricer's probability for either side gives the original line, when the shift is below its cap |
| `Odds.ImpliedOfFavourite` | app/components/prop-options/create-prop-option-dialog.tsx:111-118 | exact favourite odds convert back to their probability |
| `Odds.PricedLineReadsBack` | app/components/prop-options/create-prop-option-dialog.tsx:104-150 | at `ev` 10 the line 12.5 is priced +220 for the over, and +220 reads back as 12.5 |
| `Store.Credit` | app/actions/parlays/resolve-parlays.ts:123-136 | the balance upsert: an existing balance grows by the amount, a missing one starts at it, and every other balance is kept |
| `Store.CreditTwice` | app/actions/parlays/resolve-parlays.ts:123-136 | crediting twice is crediting the sum once |
| `Store.ActiveTallyCount` | app/actions/tallies/add-tally.ts:44-54 | the count of active tallies of a prop is at most the number of tallies |
| `Store.WindowTallyCount` | app/actions/parlays/resolve-parlays.ts:63-74 | the tallies counted within a time window are never more than all active tallies of the prop |
| `Store.ActiveTallyCountAppend` | app/actions/tallies/add-tally.ts:34-41 | a new active tally adds one to its own prop's count and none to any other |
| `Store.ActiveTallyCountDeactivate` | app/actions/tallies/delete-tally.ts:27-34 | soft-deleting an active tally removes exactly one from its prop's count |
| `Store.ActiveLegsOf` | app/actions/parlays/resolve-parlays.ts:26-28 | the active legs of a parlay are exactly the legs in the table that are active and belong to it |
| `Store.ActiveLegsOfAppend` | app/actions/parlays/create-parlay.ts:82-94 | inserting another parlay's legs leaves a parlay's active legs unchanged |
| `Valuation.Decimal` | app/actions/parlays/resolve-parlays.ts:105-113 | the decimal multiplier of any nonzero odds is above 1 |
| `Valuation.DecimalIsInverseOfImplied` | app/actions/parlays/cash-out-parlay.ts:62-67 | the decimal multiplier is the reciprocal of the odds' implied probability |
| `Valuation.Decimals` | app/actions/parlays/cash-out-parlay.ts:100-104 | one multiplier per leg, from that leg's locked-in odds |
| `Valuation.DecimalOf` | app/actions/parlays/cash-out-parlay.ts:100-104 | the product of the legs' multipliers is at least 1, and above 1 when there is a leg |
| `Valuation.DecimalOfOddsOnly` | app/components/parlays/parlay-card.tsx:71-76 | the combined multiplier depends only on the locked-in odds, not on sides, lines or counts |
| `Valuation.SettledMatchesLive` | app/actions/parlays/resolve-parlays.ts:79-91 | settlement's leg outcome (a push loses) equals the card's live winning state for the same count |
| `Valuation.HalfLineDecides` | app/actions/parlays/resolve-parlays.ts:79-91 | on a line ending in .5 no count is a push: exactly one of over and under wins |
| `Valuation.LegProbability` | app/actions/parlays/cash-out-parlay.ts:52-93 | with no tallies a leg's probability is the odds' implied probability; with tallies it lies in [0.8, 0.95] when the leg is winning and in [0.05, 0.3] when not |
| `Valuation.ProbabilityOf` | app/actions/parlays/cash-out-parlay.ts:50-96 | the product of the leg probabilities lies in [0, 1] |
| `Valuation.TotalProbability` | app/actions/parlays/cash-out-parlay.ts:50-96 | the leg loop computes exactly that product |
| `Valuation.MultiplyAll` | app/actions/parlays/resolve-parlays.ts:101-116 | the multiplying loop computes the left-to-right product of its factors |
| `Valuation.TotalOdds` | app/actions/parlays/resolve-parlays.ts:101-116 | the settlement loop computes the product of the legs' multipliers |
| `Valuation.SettlementPayout` | app/actions/parlays/resolve-parlays.ts:118 | a winning payout is never less than the stake, and is exactly the stake with no legs |
| `Valuation.PotentialPayout` | app/components/parlays/parlay-card.tsx:82 | the profit the card shows is never negative for a non-negative stake |
| `Valuation.PayoutIsStakePlusProfit` | app/components/parlays/parlay-card.tsx:82 | the settlement payout is the stake plus the profit the card shows |
| `Valuation.CashOutAmount` | app/actions/parlays/cash-out-parlay.ts:98-112 | the credited amount is at least 10% of the stake; for a stake it lies between the stake and the settlement payout |
| `Valuation.CashOutFrom` | app/actions/parlays/cash-out-parlay.ts:106-112 | the same bounds stated for any multiplier of at least 1 and probability in [0, 1] |
| `Valuation.TenthFloor` | app/actions/parlays/cash-out-parlay.ts:111-112 | the offer is the estimate or a tenth of the stake, whichever is larger |
| `Valuation.CashOutBoundsOn` | app/actions/parlays/cash-out-parlay.ts:106-112 | the stake plus the discounted profit rounds to between the stake and the rounded full return |
| `Valuation.EstimatedCashOut` | app/components/parlays/parlay-card.tsx:137-139 | the card's estimate is at least 10% of the stake; for a stake it lies between the stake and the settlement payout |
| `Valuation.EstimateFrom` | app/components/parlays/parlay-card.tsx:137-139 | the same bounds for any non-negative profit and probability in [0, 1] |
| `Valuation.EstimateDiffersFromCredit` | app/components/parlays/parlay-card.tsx:137-139 | the card's estimate and the amount credited differ: 1 coin on -200 at line 0.5 with 20 tallies shows 2 and credits 1 |
| `Repricing.TimeProgress` | app/actions/tallies/add-tally.ts:67-70 | time progress lies in [0, 1]: 0 before the prop starts, 1 after it ends, the elapsed fraction in between |
| `Repricing.BlendBetween` | app/actions/tallies/add-tally.ts:72-82 | the blended value lies between the stored `ev` and the projected count, equals `ev * (1 - 0.7 tp) + 0.7 count`, and is non-negative |
| `Repricing.Blend` | app/actions/tallies/add-tally.ts:72-82 | the blend is `ev * (1 - 0.7 tp) + 0.7 count`, and at the end of the window (tp = 1) it is 30% stored value and 70% count |
| `Repricing.AddedEv` | app/actions/tallies/add-tally.ts:73-82 | with no time elapsed the value is the stored `ev`; it is never negative |
| `Repricing.DeletedEv` | app/actions/tallies/delete-tally.ts:66-75 | with no time elapsed or no tally left the value is the stored `ev`; it is never negative |
| `Repricing.AddedAndDeletedEv` | app/actions/tallies/delete-tally.ts:66-75 | the two formulas agree while a tally remains; with none left the add formula would lower `ev` and the delete formula keeps it |
| `Repricing.RepriceOne` | app/actions/tallies/add-tally.ts:85-97 | a repriced option keeps its prop, line and state and carries the pricer's odds for its line |
| `Repricing.RepricedOn` | app/actions/tallies/add-tally.ts:84-98 | repricing part of the options keeps the set of option ids |
| `Repricing.Repriced` | app/actions/tallies/add-tally.ts:84-98 | repricing all of a prop's options keeps the set of option ids |
| `Repricing.RepricedQuotes` | app/actions/tallies/add-tally.ts:84-98 | each active option of the prop gets in-range odds favouring the correct side; every other option is untouched |
| `Repricing.RepriceOptions` | app/actions/tallies/add-tally.ts:84-98 | the loop over the prop's active options leaves the store as before, except that the options table is `Repriced` |
| `Repricing.AddTally` | app/actions/tallies/add-tally.ts:7-116 | without a user, prop or user row nothing is written and the error is returned; otherwise one tally is appended and the options are repriced |
| `Repricing.AddTallyError` | app/actions/tallies/add-tally.ts:10-30 | no error exactly for a signed-in user that exists and a prop that exists; without a user the first error is "User not authenticated" |
| `Repricing.AddTallyEffect` | app/actions/tallies/add-tally.ts:33-98 | the old tallies are kept and one active tally of the user on the prop is appended; the option ids and every other table are unchanged |
| `Repricing.AddTallyCounts` | app/actions/tallies/add-tally.ts:33-41 | after an add the prop's count is one higher, other props' counts are unchanged, and the store stays consistent |
| `Repricing.DeleteTally` | app/actions/tallies/delete-tally.ts:7-107 | an unknown or inactive tally is refused with no writes; otherwise exactly that tally is deactivated and the options are repriced |
| `Repricing.DeleteTallyError` | app/actions/tallies/delete-tally.ts:10-50 | no error exactly for a signed-in user, an existing active tally and its existing prop; an unknown tally id is "Tally not found or already deleted" |
| `Repricing.DeleteTallyEffect` | app/actions/tallies/delete-tally.ts:18-98 | exactly that tally becomes inactive and is marked as modified by the user; the other tallies, the option ids and every other table are unchanged |
| `Repricing.DeleteTallyOnce` | app/actions/tallies/delete-tally.ts:18-34 | a delete lowers the prop's count by one and changes only that tally; deleting it again is refused |
| `Repricing.ActiveTallyCountIgnoresAuthor` | app/actions/tallies/delete-tally.ts:27-34 | the tally count reads only each tally's prop and active flag |
| `Settlement.ActiveLegsResolvable` | app/actions/parlays/resolve-parlays.ts:26-37 | in a consistent store every active leg reaches an option, a prop and nonzero odds |
| `Settlement.AllExpiredMeansEach` | app/actions/parlays/resolve-parlays.ts:42-45 | the recursive expiry test is `every leg: now > its prop's end` |
| `Settlement.ExpiredMeans` | app/actions/parlays/resolve-parlays.ts:42-45 | in a consistent store a parlay counts as expired exactly when the current time is after every active leg's prop end |
| `Settlement.AllWinMeansEach` | app/actions/parlays/resolve-parlays.ts:52-97 | the recursive win test is `every leg wins` |
| `Settlement.SettledStates` | app/actions/parlays/resolve-parlays.ts:99-116 | one valuation state per leg, with that leg's locked-in odds |
| `Settlement.Payout` | app/actions/parlays/resolve-parlays.ts:99-118 | a won parlay pays at least its stake, and exactly its stake with no active legs |
| `Settlement.SettleOne` | app/actions/parlays/resolve-parlays.ts:40-151 | one iteration keeps the set of parlays, and a lost or skipped parlay pays nothing |
| `Settlement.Settle` | app/actions/parlays/resolve-parlays.ts:40-152 | the loop changes only balances and parlay rows, and adds or removes no parlay |
| `Settlement.DecideLegs` | app/actions/parlays/resolve-parlays.ts:52-97 | the leg loop, with its early exit, decides exactly whether every leg wins |
| `Settlement.SettleExtend` | app/actions/parlays/resolve-parlays.ts:40-152 | settling one more parlay is one more loop step on the store the earlier steps left |
| `Settlement.SettleParlay` | app/actions/parlays/resolve-parlays.ts:41-151 | one pass of the loop body skips, or decides, pays and deactivates, as `SettleOne` states |
| `Settlement.SettleListed` | app/actions/parlays/resolve-parlays.ts:40-152 | the loop ends with the store and counters that `Settle` describes |
| `Settlement.ResolveParlays` | app/actions/parlays/resolve-parlays.ts:7-168 | without a user nothing changes; otherwise the store and the reported count, payout and message are those of `Settle` |
| `Settlement.ResolutionMessage` | app/actions/parlays/resolve-parlays.ts:164-167 | the message is "No parlays to resolve" exactly when nothing was resolved; otherwise it starts with "Resolved " and ends with " coins" |
| `Settlement.SettleOneParlays` | app/actions/parlays/resolve-parlays.ts:144-151 | a step deactivates exactly the expired parlay and credits the user only when it won |
| `Settlement.SettleOutcome` | app/actions/parlays/resolve-parlays.ts:40-151 | with no parlay listed twice, a listed parlay that had expired ends inactive and every other parlay row is unchanged |
| `Settlement.SettleNoneExpired` | app/actions/parlays/resolve-parlays.ts:47-49 | when no listed parlay has expired, the run changes nothing and reports 0 resolved and 0 paid |
| `Settlement.SettleBalances` | app/actions/parlays/resolve-parlays.ts:123-139 | the balances end as the start credited once with the total payout, or unchanged when nothing was won |
| `Settlement.BalanceStep` | app/actions/parlays/resolve-parlays.ts:123-139 | each pass keeps the balance equal to the start credited with the running total |
| `Settlement.ResolveIsIdempotent` | app/actions/parlays/resolve-parlays.ts:21-25 | a second run at the same time over the parlays still active resolves nothing, pays nothing and writes nothing |
| `Settlement.NoLegsPaysStake` | app/actions/parlays/resolve-parlays.ts:42-45 | a parlay without active legs is expired and won at once, and pays back exactly its stake |
| `CashOut.CashOutStates` | app/actions/parlays/cash-out-parlay.ts:52-56 | each leg is valued with its locked-in odds, side, line and the prop's active tally count (no time window) |
| `CashOut.CashOutError` | app/actions/parlays/cash-out-parlay.ts:9-47 | a refusal happens exactly without a user or without an active parlay of theirs, with the source's two messages |
| `CashOut.CashOutValue` | app/actions/parlays/cash-out-parlay.ts:49-112 | the amount credited is at least the stake |
| `CashOut.ClosedConsistent` | app/actions/parlays/cash-out-parlay.ts:114-137 | crediting a balance and closing a parlay keep the store consistent |
| `CashOut.ValueNow` | app/actions/parlays/cash-out-parlay.ts:49-112 | the valuation reads the store and returns the cash-out value |
| `CashOut.CashOut` | app/actions/parlays/cash-out-parlay.ts:7-148 | a refusal happens exactly when the checks fail, and then nothing changes; a success credits the owner with the cash-out value (at least the stake), closes that parlay, changes no other parlay and leaves users, props, options, tallies and legs as they were |
| `CashOut.CashOutMessage` | app/actions/parlays/cash-out-parlay.ts:147 | the message reads back, between its fixed prefix and suffix, as the amount credited |
| `Text.Show` | app/actions/parlays/cash-out-parlay.ts:147 | an integer written in decimal reads back as itself with `parseInt` |
| `CashOut.CashOutParlay` | app/actions/parlays/cash-out-parlay.ts:7-148 | the action's result and store are those of `CashOut`: refusal with no writes, or credit and close |
| `CashOut.CashOutOnce` | app/actions/parlays/cash-out-parlay.ts:19-47 | right after a cash-out the parlay is inactive, and the same request is refused |
| `CashOut.CashOutBetweenStakeAndPayout` | app/actions/parlays/cash-out-parlay.ts:98-112 | the cash-out value lies between the stake and what the parlay would pay if it won |
| `CashOut.CashOutTouchesOnlyOwner` | app/actions/parlays/cash-out-parlay.ts:114-137 | only the owner's balance (credited by the value) and the cashed-out parlay change |
| `Ledger.ActiveFound` | app/actions/parlays/create-parlay.ts:50-57 | the query finds exactly the requested ids that are active options |
| `Ledger.ActiveFoundComplete` | app/actions/parlays/create-parlay.ts:59-61 | the availability check passes exactly when the requested options are distinct and all active |
| `Ledger.OptionIds` | app/actions/parlays/create-parlay.ts:51 | one option id per betslip item, in order |
| `Ledger.NewLegs` | app/actions/parlays/create-parlay.ts:82-90 | one active leg per item, on its option and side at its odds |
| `Ledger.ParlayName` | app/actions/parlays/create-parlay.ts:73 | an absent or empty title stores no name; any other title is stored as given |
| `Ledger.CreateParlay` | app/actions/parlays/create-parlay.ts:20-114 | the guards in source order refuse with no writes; otherwise the parlay, its legs and the debit are written |
| `Ledger.CreateParlayError` | app/actions/parlays/create-parlay.ts:23-61 | no error exactly for a signed-in user with a positive stake, a non-empty slip, a balance that covers the stake and distinct active options; without a user the first error is "User not authenticated" |
| `Ledger.Place` | app/actions/parlays/create-parlay.ts:67-104 | the transaction leaves the store that `CreateParlayEffect` describes |
| `Ledger.CreateParlayEffect` | app/actions/parlays/create-parlay.ts:67-104 | one new active parlay of the user with the stake; the old parlays and legs are kept and one leg per item of the new parlay is appended; only the user's balance changes, by the stake |
| `Ledger.CreateParlayPlaces` | app/actions/parlays/create-parlay.ts:67-104 | a placed parlay is active and owned by the user; the stake is debited, leaving a balance of 0 or more; the legs are the requested ones |
| `Ledger.CreatedConsistent` | app/actions/parlays/create-parlay.ts:67-104 | placing a parlay that passed the checks keeps the store consistent |
| `Ledger.OptionsClosed` | app/actions/props/delete-prop.ts:30-37 | exactly the options of the prop are deactivated |
| `Ledger.ParlaysClosed` | app/actions/props/delete-prop.ts:39-52 | exactly the parlays with a leg on the prop are deactivated |
| `Ledger.DeleteProp` | app/actions/props/delete-prop.ts:7-56 | refused without a session or for a missing prop, with no writes; otherwise the three deactivations |
| `Ledger.DeletePropEffect` | app/actions/props/delete-prop.ts:18-56 | the prop is inactive and marked as modified by the user, every option of the prop is inactive, no row is added or removed, stakes and owners are kept, and balances, tallies and legs are unchanged |
| `Ledger.DeletePropCascade` | app/actions/props/delete-prop.ts:18-56 | afterwards no option of the prop and no parlay with a leg on it is active, and nothing is refunded |
| `Ledger.DeletePropKeepsOthers` | app/actions/props/delete-prop.ts:39-52 | parlays without a leg on the prop, and other props, keep their state |
| `Ledger.CreateCoins` | app/actions/coins/create-coins.ts:5-36 | an unknown lower-cased username is an error with no writes; otherwise that user's balance is credited and returned |
| `Ledger.CreateCoinsTarget` | app/actions/coins/create-coins.ts:8-14 | since usernames are unique, the user a top-up credits is determined by the name |
| `Accounts.FirstIssue` | app/actions/auth.ts:8-19 | the schema passes exactly when the name has at least 2 characters, the username 3 to 30 characters of `[a-zA-Z0-9_]`, the address is valid and the password has at least 3 characters |
| `Accounts.RegisterUser` | app/actions/auth.ts:23-74 | the first schema issue, a used address or a used username refuses with no writes; otherwise the user is inserted with the hashed password |
| `Accounts.RegisterError` | app/actions/auth.ts:23-41 | registration is refused exactly on a schema issue, a used address or a used username; a schema issue comes first, then "Email already in use" |
| `Accounts.RegisterTwiceRefused` | app/actions/auth.ts:27-41 | after a registration, a request with the same address is refused with "Email already in use", and one with a new address and the same username with "Username already taken" |
| `OptionDialog.OddsFromLine` | app/components/prop-options/create-prop-option-dialog.tsx:45-102 | a non-numeric line gives two empty fields; any other gives two non-empty odds texts of the odds alphabet |
| `OptionDialog.OddsFromLineQuotes` | app/components/prop-options/create-prop-option-dialog.tsx:45-102 | the dialog shows exactly the server pricer's quote for the number the line reads as |
| `OptionDialog.ShowHalfShape` | app/components/prop-options/create-prop-option-dialog.tsx:148-149 | `toFixed(1)` puts the decimal point second to last |
| `OptionDialog.LineFromOdds` | app/components/prop-options/create-prop-option-dialog.tsx:104-150 | the derived line is empty exactly when the odds do not parse |
| `OptionDialog.LineFromOddsValue` | app/components/prop-options/create-prop-option-dialog.tsx:104-150 | the derived line reads back as the rounded half-line for those odds |
| `Odds.LineFromProbability` | app/components/prop-options/create-prop-option-dialog.tsx:122-145 | an even probability gives back `ev` as the line, and a zero `ev` gives the line 0 on either side |
| `Odds.HalfLineFromOdds` | app/components/prop-options/create-prop-option-dialog.tsx:147-148 | even odds (+100 or -100) give `ev` rounded to the nearest half |
| `OptionDialog.ComplementAsWritten` | app/components/prop-options/create-prop-option-dialog.tsx:152-161 | as written: empty exactly when the odds do not parse, otherwise odds text |
| `OptionDialog.Complement` | app/components/prop-options/create-prop-option-dialog.tsx:152-161 | corrected: empty exactly when the odds do not parse, otherwise odds text |
| `OptionDialog.ComplementQuotes` | app/components/prop-options/create-prop-option-dialog.tsx:171-195 | after editing one side, the corrected other side is the pricer's quote for the line shown |
| `OptionDialog.ComplementAsWrittenQuotes` | app/components/prop-options/create-prop-option-dialog.tsx:152-161 | as written, the result is the under quote of the line the odds give when read as over odds |
| `OptionDialog.ComplementOfOver` | app/components/prop-options/create-prop-option-dialog.tsx:171-182 | for the over field the as-written complement is correct |
| `OptionDialog.MismatchLines` | app/components/prop-options/create-prop-option-dialog.tsx:186-187 | at `ev` 10, odds of -150 give the line 11.5 as an under and 9.0 as an over |
| `OptionDialog.MismatchPrices` | app/components/prop-options/create-prop-option-dialog.tsx:186-187 | at `ev` 10 the under of 9.0 is +130 and the over of 11.5 is +155 |
| `OptionDialog.UnderEditMismatch` | app/components/prop-options/create-prop-option-dialog.tsx:184-195 | typing -150 as under odds shows line 11.5 with over "+130", where the pricer quotes "+155" for 11.5 |
| `OptionDialog.FormatLine` | app/components/prop-options/create-prop-option-dialog.tsx:261-269 | non-numeric text is left unchanged |
| `OptionDialog.FormatLineRounds` | app/components/prop-options/create-prop-option-dialog.tsx:261-269 | a numeric line reads back as its nearest multiple of 0.5 |
| `OptionDialog.NearestHalf` | app/components/prop-options/create-prop-option-dialog.tsx:267 | the nearest multiple of 0.5 is at most 0.25 away |
| `OptionDialog.FormatLineIdempotent` | app/components/prop-options/create-prop-option-dialog.tsx:261-269 | formatting twice is formatting once |
| `OptionDialog.FormatLineOfHalf` | app/components/prop-options/create-prop-option-dialog.tsx:261-269 | a line the dialog wrote is left as it is |
| `OptionDialog.SubmitCheck` | app/components/prop-options/create-prop-option-dialog.tsx:218-239 | passes exactly for a ".5" line and two parseable odds fields, with the source's messages in order; the request carries the parsed values |
| `OptionDialog.DerivedLineSubmits` | app/components/prop-options/create-prop-option-dialog.tsx:218 | a derived line passes the ".5" check exactly when its half-line count is odd |
| `OptionDialog.OptionForm.constructor` | app/components/prop-options/create-prop-option-dialog.tsx:36-43 | the dialog opens with empty line and odds fields and nothing marked edited |
| `OptionDialog.OptionForm.ChangeLine` | app/components/prop-options/create-prop-option-dialog.tsx:197-201 | the line is stored as typed and marked edited; nothing else changes |
| `OptionDialog.OptionForm.ChangeOverOdds` | app/components/prop-options/create-prop-option-dialog.tsx:203-207 | the over field holds the filtered text and is marked edited |
| `OptionDialog.OptionForm.ChangeUnderOdds` | app/components/prop-options/create-prop-option-dialog.tsx:209-213 | the under field holds the filtered text and is marked edited |
| `OptionDialog.OptionForm.BlurLine` | app/components/prop-options/create-prop-option-dialog.tsx:306 | leaving the line field formats it and triggers nothing |
| `OptionDialog.OptionForm.LineEffect` | app/components/prop-options/create-prop-option-dialog.tsx:163-169 | an edited non-empty line re-prices both odds fields and clears its flag; otherwise nothing changes |
| `OptionDialog.OptionForm.OverEffect` | app/components/prop-options/create-prop-option-dialog.tsx:171-182 | edited over odds set the line and the under odds |
| `OptionDialog.OptionForm.UnderEffect` | app/components/prop-options/create-prop-option-dialog.tsx:184-195 | edited under odds set the line and the over odds for that line (corrected) |
| `OptionDialog.OptionForm.UnderEffectAsWritten` | app/components/prop-options/create-prop-option-dialog.tsx:184-195 | edited under odds set the line read on the under side, and the over field gets the complement computed as if the odds were over odds (as written) |
| `OptionDialog.OptionForm.Submit` | app/components/prop-options/create-prop-option-dialog.tsx:215-259 | the result is the check's; the fields are cleared only after a successful creation |
| `PropDialog.AvailableUsers` | app/components/props/create-prop-dialog.tsx:44-46 | a user is offered exactly when they are not yet in the list |
| `PropDialog.MenuUsers` | app/components/props/create-prop-dialog.tsx:189-195 | the menu offers available users only, and all of them unless the first is named "All" |
| `PropDialog.FindUser` | app/components/props/create-prop-dialog.tsx:51-52 | a found user is in the list with that id; none is found exactly when no user has it |
| `PropDialog.WithoutUser` | app/components/props/create-prop-dialog.tsx:62-64 | an entry survives exactly when it is not that user's, and the user is no longer listed |
| `PropDialog.WithoutUserKeepsOrder` | app/components/props/create-prop-dialog.tsx:62-64 | the survivors are the entries at strictly increasing positions of the old list, one for one, and every entry of another user is among them |
| `PropDialog.DisplayName` | app/components/props/create-prop-dialog.tsx:56 | the shown name is never empty; a present, non-empty name is shown as it is, and anything else than "Unknown user" is the stored name |
| `PropDialog.WithEV` | app/components/props/create-prop-dialog.tsx:66-70 | only that user's value changes; ids, names and order are kept |
| `PropDialog.WithoutUserDistinct` | app/components/props/create-prop-dialog.tsx:62-64 | removing a user keeps the list free of duplicates |
| `PropDialog.AddThenRemoveUser` | app/components/props/create-prop-dialog.tsx:48-64 | adding a new user and then removing them gives back the list |
| `PropDialog.SubmitCheck` | app/components/props/create-prop-dialog.tsx:75-96 | passes exactly with a description, a user and an end date, with the messages in source order; the request carries each user's id and value |
| `PropDialog.CreatePropDialog.constructor` | app/components/props/create-prop-dialog.tsx:37-41 | the dialog starts closed, with no description, selection, users or end date |
| `PropDialog.CreatePropDialog.SelectUser` | app/components/props/create-prop-dialog.tsx:181-184 | choosing a menu entry sets the selection and keeps the list |
| `PropDialog.CreatePropDialog.AddUser` | app/components/props/create-prop-dialog.tsx:48-60 | no selection or an unknown id changes nothing; otherwise the user joins the end with value 0 and the selection clears; no user is listed twice |
| `PropDialog.CreatePropDialog.RemoveUser` | app/components/props/create-prop-dialog.tsx:62-64 | the list loses that user's entry and stays duplicate-free |
| `PropDialog.CreatePropDialog.UpdateEV` | app/components/props/create-prop-dialog.tsx:66-70 | the list gets that user's new value |
| `PropDialog.CreatePropDialog.Submit` | app/components/props/create-prop-dialog.tsx:72-106 | a failed check toasts its message and sends nothing; a sent request on success resets the form and closes the dialog, and on failure keeps it |
| `PropsList.WithOptionAdded` | app/components/props/props-list-client.tsx:90-96 | each matching prop gets the line appended; every other prop is unchanged |
| `PropsList.PropsListState.constructor` | app/components/props/props-list-client.tsx:62 | the list starts as the props the page passed in |
| `PropsList.OptionAddedOnce` | app/components/props/props-list-client.tsx:90-96 | appending a line keeps every card's identity and end, and adds exactly one line per matching card |
| `PropsList.PropsListState.HandlePropOptionAdded` | app/components/props/props-list-client.tsx:76-97 | the list becomes the old list with the full line record appended to the matching props |
| `PropsList.DurationText` | app/components/props/props-list-client.tsx:152-156 | a closed prop shows "0d 0h 0m" |
| `PropsList.Truncate` | app/components/props/props-list-client.tsx:153-155 | the date library's truncated difference is integer division for a non-negative difference |
| `PropsList.TruncRem` | app/components/props/props-list-client.tsx:154-155 | the matching remainder is the integer remainder for a non-negative difference |
| `PropsList.DurationMatchesCountdown` | app/components/props/props-list-client.tsx:153-155 | before the end, the badge's days, hours and minutes are the countdown's for the same moment |
| `PropsList.IsExpired` | app/components/props/props-list-client.tsx:152-155 | a closed prop has no days, hours or minutes left |
| `PropsList.DurationUnits` | app/components/props/props-list-client.tsx:153-155 | hours below 24 and minutes below 60; all zero from the end on; before the end, the days are the whole days left |
| `PropsList.ShowsAddLine` | app/components/props/props-list-client.tsx:255-262 | the add-line control is shown exactly while time is left before the end |
| `ProgressBar.Progress` | app/components/parlays/parlay-progress-bar.tsx:16-30 | a line of 0 or less shows an empty, non-winning bar; otherwise an over wins above the line and an under below it, and the bar stays within [0, 100] |
| `ProgressBar.BarAgreesWithCard` | app/components/parlays/parlay-progress-bar.tsx:19-29 | on a positive line the bar's winning flag is the card's live winning state of the same leg |
| `ProgressBar.ProgressMonotone` | app/components/parlays/parlay-progress-bar.tsx:20-29 | more tallies never shrink an over's bar and never grow an under's |
| `ProgressBar.ProgressExtremes` | app/components/parlays/parlay-progress-bar.tsx:20-29 | a winning under still shows some bar, and an over at line + 1 or more shows a full bar |
| `ProgressBar.BarColour` | app/components/parlays/parlay-progress-bar.tsx:60-66 | green exactly when winning; yellow exactly when not winning and above 80% |
| `Countdown.Decompose` | app/components/parlays/countdown-timer.tsx:28-31 | hours, minutes and seconds are below their next unit, and together they give the difference rounded down to the second |
| `Countdown.CountdownTextUnits` | app/components/parlays/countdown-timer.tsx:33-41 | the text ends in seconds exactly when less than a day remains, and in minutes otherwise |
| `Countdown.CountdownText` | app/components/parlays/countdown-timer.tsx:33-41 | the text starts with a digit, so it never reads "Expired"; it ends in seconds exactly when no day is left and in minutes otherwise |
| `Countdown.CountdownTimer.constructor` | app/components/parlays/countdown-timer.tsx:12-14 | the timer starts with empty text and not expired |
| `Countdown.CountdownTimer.UpdateTimeLeft` | app/components/parlays/countdown-timer.tsx:17-43 | expired exactly when the end is reached, with "Expired", otherwise the decomposed text |
| `ParlayCard.MaxEndTime` | app/components/parlays/parlay-card.tsx:65-68 | the latest end is at least every leg's end and is one of them, or 0 (the epoch) when none is later |
| `ParlayCard.WinningLegs` | app/components/parlays/parlay-card.tsx:85-89 | the count of winning legs is at most the leg count |
| `ParlayCard.AllWinning` | app/components/parlays/parlay-card.tsx:85-93 | all legs are winning exactly when the winning count equals the leg count |
| `ParlayCard.ParlayProgress` | app/components/parlays/parlay-card.tsx:91-93 | progress lies in [0, 100] and is 0 with no legs; with legs it is 100 exactly when the parlay is winning |
| `ParlayCard.CombinedOdds` | app/components/parlays/privacy-parlay-card.tsx:164 | the combined odds badge is never negative |
| `ParlayCard.CombinedOddsOfOneLeg` | app/components/parlays/privacy-parlay-card.tsx:164 | one positive leg shows its own odds; one negative leg shows `round(10000 / abs(odds))` |
| `ParlayCard.EstimateCashOut` | app/components/parlays/parlay-card.tsx:95-139 | the loop and formula compute the estimate, which lies between the stake and the settlement payout |
| `ParlayCard.PrivateOnlyToSubject` | app/components/parlays/privacy-parlay-card.tsx:190 | only the prop's subject sees a leg hidden, a signed-out visitor sees every leg, and the subject always sees their own legs hidden |
| `ParlayCard.IsPrivateToViewer` | app/components/parlays/privacy-parlay-card.tsx:190 | a leg is hidden only from a signed-in viewer who is the non-empty subject of its prop |
| `Betslip.KeyIndex` | lib/betslip-storage.ts:41-46 | the index is that of the first item with the key, or -1 when none has it |
| `Betslip.Upsert` | lib/betslip-storage.ts:37-64 | the new pick is in the slip afterwards; the slip keeps its length when the bet was there and grows by one otherwise |
| `Betslip.WithoutId` | lib/betslip-storage.ts:67-71 | no pick with that id is left and the slip never grows |
| `Betslip.WithoutIdKeepsOrder` | lib/betslip-storage.ts:67-71 | the survivors are the picks at strictly increasing positions of the old slip, one for one, and every pick whose id differs is among them |
| `Betslip.PropIndex` | lib/betslip-storage.ts:150-153 | the index is that of the first item on the prop, or -1 when none is |
| `Betslip.GetPropItem` | lib/betslip-storage.ts:150-153 | an item is found exactly when the prop has one, and it is the first such item |
| `Betslip.UpsertKeeps` | lib/betslip-storage.ts:37-64 | an existing bet is replaced in place; a new one is appended; other items and key uniqueness are kept |
| `Betslip.UpsertNewProp` | lib/betslip-storage.ts:54-60 | a bet on a prop not yet in the slip is appended, and one bet per prop is kept |
| `Betslip.WithoutIdExact` | lib/betslip-storage.ts:67-71 | an item survives removal exactly when its id differs; removing an absent id changes nothing |
| `Betslip.WithoutIdUniqueKeys` | lib/betslip-storage.ts:67-71 | removal keeps bets unique |
| `Betslip.WithoutIdOnePerProp` | lib/betslip-storage.ts:67-71 | removal keeps one bet per prop |
| `Betslip.WithoutIdMatchesKeys` | lib/betslip-storage.ts:67-71 | removal keeps ids matching keys, and the removed id is gone |
| `Betslip.NoIdNoKey` | lib/betslip-storage.ts:50 | when ids match keys, an absent id means an absent bet |
| `Betslip.AddThenRemove` | lib/betslip-storage.ts:37-71 | adding a new bet and then removing it by its id gives back the slip |
| `Betslip.WithoutIdAppend` | lib/betslip-storage.ts:67-71 | removing an id from a slip ending in that item removes the item too |
| `Betslip.RemoveThenAdd` | lib/betslip-storage.ts:37-71 | removing a bet and adding it again puts it at the end |
| `Betslip.SlipDecimal` | lib/betslip-storage.ts:96-101 | the combined multiplier of a non-empty slip is above 1 |
| `Betslip.CalculateTotalOdds` | lib/betslip-storage.ts:92-107 | 0 exactly for an empty slip; otherwise +100 or more exactly when the multiplier is at least 2, and never strictly between -100 and +100 |
| `Betslip.AmericanFromDecimal` | lib/betslip-storage.ts:104-106 | multipliers of at least 2 give +100 or more, lower ones -100 or less |
| `Betslip.TotalOddsOfOnePick` | lib/betslip-storage.ts:92-107 | a one-item slip shows that item's odds (-100 shows as +100) |
| `Betslip.CalculatePayout` | lib/betslip-storage.ts:110-116 | the payout is the stake times the decimal multiplier of the odds |
| `Betslip.PayoutTracksSlip` | lib/betslip-storage.ts:119-122 | the payout from the rounded total odds differs from the stake times the slip's multiplier by at most 0.5% of the stake |
| `Betslip.PayoutFromTwo` | lib/betslip-storage.ts:104-105 | the payout error bound for multipliers of at least 2 |
| `Betslip.PayoutBelowTwo` | lib/betslip-storage.ts:106 | the payout error bound for multipliers below 2 |
| `Betslip.GetSummary` | lib/betslip-storage.ts:119-130 | the payout is absent exactly without a stake or with 0; it is infinite exactly for an empty slip; otherwise it is the stake times the multiplier |
| `Betslip.BetslipStorage.constructor` | lib/betslip-storage.ts:24-34 | the storage is created with or without a browser window and with its stored slip, if any |
| `Betslip.BetslipStorage.Items` | lib/betslip-storage.ts:24-34 | without a window or a stored slip the items are empty |
| `Betslip.BetslipStorage.SaveItems` | lib/betslip-storage.ts:81-89 | with a window the slip is stored; without one nothing changes |
| `Betslip.BetslipStorage.AddItem` | lib/betslip-storage.ts:37-64 | the returned item carries the id from prop, line and side, and the slip is the upsert of it |
| `Betslip.BetslipStorage.RemoveItem` | lib/betslip-storage.ts:67-71 | the slip loses the items with that id |
| `Betslip.BetslipStorage.Clear` | lib/betslip-storage.ts:74-78 | the slip is empty afterwards |
| `Betslip.ButtonLabel` | app/components/betslip/add-to-betslip-button.tsx:95-105 | "Added", or 'O'/'U' for the side and a '+' exactly before positive odds |
| `Betslip.AddToBetslipButton.constructor` | app/components/betslip/add-to-betslip-button.tsx:34-37 | the button starts added exactly when its bet is in the slip, and enabled |
| `Betslip.LabelShowsOdds` | app/components/betslip/add-to-betslip-button.tsx:103 | the odds read back from the caption are the item's odds |
| `Betslip.AddToBetslipButton.UpdateButtonState` | app/components/betslip/add-to-betslip-button.tsx:39-46 | added exactly when the bet is in the slip; disabled exactly when another bet on the prop is |
| `Betslip.AddToBetslipButton.Click` | app/components/betslip/add-to-betslip-button.tsx:60-80 | an added bet is removed; otherwise the prop has no bet and this one is appended; one bet per prop is kept |
| `ParlayResolver.After` | app/components/parlays/parlay-resolver.tsx:29-34 | a check that calls records its time; a skipped one keeps the last time |
| `ParlayResolver.ToastFor` | app/components/parlays/parlay-resolver.tsx:22-27 | a toast is shown exactly for a successful report with a positive count |
| `ParlayResolver.SessionClock.constructor` | app/components/parlays/parlay-resolver.tsx:11 | the clock starts from the last check time stored for the session, if any |
| `ParlayResolver.SessionClock.CheckParlays` | app/components/parlays/parlay-resolver.tsx:11-35 | calls exactly when never checked or five minutes have passed; records the time whether or not the call threw; toasts as `ToastFor` says |
| `ParlayResolver.AtMostOnceInFiveMinutes` | app/components/parlays/parlay-resolver.tsx:15 | two checks less than five minutes apart make at most one call |
| `Avatar.FirstCharAsWritten` | components/user/avatar.tsx:11 | as written: the first character of a part, or the 9-character "undefined" for an empty part |
| `Avatar.InitialsAsWritten` | components/user/avatar.tsx:6-15 | as written: '' for an empty name, and the first two characters upper-cased for a name without a space |
| `Avatar.LeadingSpaceInitials` | components/user/avatar.tsx:9-11 | " bob" gets the 10-character initials "UNDEFINEDB" |
| `Avatar.FirstChar` | components/user/avatar.tsx:11 | corrected: at most one character, the first one of a non-empty part |
| `Avatar.Initials` | components/user/avatar.tsx:6-15 | corrected: never more than two characters, and '' for an empty name |
| `Avatar.InitialsAgree` | components/user/avatar.tsx:9-11 | when no part is empty the code's initials are the corrected ones, at most two characters |
| `Avatar.InitialsOfFullName` | components/user/avatar.tsx:9-11 | a name with a space takes one letter from its first word and one from its last |

## Left out

- Transactions, concurrency and I/O are not modelled. Each server action runs on a single store object, as if alone. The revalidation calls and logging are not modelled.
- Failures of the database or network inside a `try` are not modelled. Only the error paths the code checks are.
- Every id the code generates (UUIDs, parlay ids, autoincrement tally ids) is a parameter. The caller guarantees it is fresh (`id !in db.users`, `pid !in db.parlays`).
- `new Date()` and `Date.now()` become a `now` parameter. Times are integers of milliseconds.
- `setInterval`, `setTimeout` and event listeners are not modelled. Each tick or event is a method call.
- Floating point (binary doubles, `toFixed` of non-half values, `toLocaleString`) is not modelled. Numbers are exact reals, so every `Math.round` input is exact.
- NaN and Infinity are not modelled except where the code depends on them:
  - the `ev` of 0 in the pricer (the shift becomes 0.4);
  - the Infinite payout of an empty betslip (`Betslip.GetSummary`);
  - the non-numeric text that `parseFloat`/`parseInt` turn into NaN (`None`).
- Props with a negative expected value are not modelled past their creation. The prop dialog's number inputs have no lower bound, so `PropDialog.CreatePropDialog.UpdateEV` and `PropDialog.SubmitCheck` accept a negative `ev`, and the program can store such a prop. The pricer (`Odds.PriceLine` and the members that call it) requires `ev >= 0`, and `Store.Consistent` excludes props with a negative `ev`, so repricing and settlement of such a prop are not covered.
- Zero odds are not modelled past their entry. The line dialog submits the odds as typed, so "0" passes `OptionDialog.SubmitCheck`, and `createPropOption` stores them unchecked; the program can then store an option, and lock in a leg, with odds 0, whose decimal odds divide by zero in settlement. The valuation preconditions (`LockedOddsValid`, `ItemOddsValid`) and the store invariant (`Store.Consistent`, legs with odds other than 0) exclude them, so placing such a leg (`Ledger.CreateParlay`, `Ledger.Place`), and the settlement, cash-out and betslip summary of such a leg, are not covered.
- `parseFloat` is modelled without exponents, white space or "Infinity"; a leading '+' is accepted. `parseInt` is modelled on the odds alphabet only, which the odds inputs guarantee.
- Strings are sequences of Unicode code points, while JavaScript counts UTF-16 code units. Outside the Basic Multilingual Plane the two differ: the schema's length limits on the name, username and password (`Accounts.FirstIssue`) and the first character taken for each initial (`Avatar.Initials`) are modelled on code points.
- `toUpperCase`/`toLowerCase` are modelled on ASCII letters only.
- The e-mail check of the schema library is a boolean parameter. `bcrypt` hashing is a function parameter.
- `Ledger.DeleteProp`: the code deletes a missing prop through an `update` that throws. The model reports this as `Err("Prop not found")` with no writes, rather than the database library's message.
- `Ledger.CreateCoins`: the username is lower-cased before the lookup, but registration stores usernames as typed. The match is modelled as exact equality with the lower-cased name. Case-insensitive matching depends on the database's collation, which is not part of this model.
- `PropsList.DurationText`: `differenceInDays`/`Hours`/`Minutes` are modelled as truncating division of the millisecond difference. Daylight-saving shifts in calendar days are ignored.
- `Betslip.BetslipStorage`: local storage is modelled as `Option<seq<BetslipItem>>` (absent or a parsed slip). JSON encoding, parse failures and quota errors in `saveItems` are not modelled, nor is the `betslipUpdated` event.
- `Betslip.AddToBetslipButton.Click`: the click is modelled after the mount effect has synchronised the button (`Synced()`). A disabled button cannot be clicked.
- `Betslip.AddThenRemove`: requires that ids match keys. Two different bets whose ids collide, through a '-' inside a prop or line id, are not considered.
- `ParlayResolver.SessionClock`: session storage holds the last check time as an integer. `parseInt` of a value the code did not write is not modelled.
- The JSX layout, styling, routing and the users/props pages are not modelled. The figures those components compute are modelled in the members above.
- `PropDialog.CreatePropDialog`: each value's number input is read with `Number(...)`. An emptied field reads as 0, which the model's real-valued `ev` covers. Fractional values that binary doubles cannot hold exactly are not modelled.

## Findings

| source | as written | input that shows it | evidently intended | confidence | as-written member | corrected member |
|---|---|---|---|---|---|---|
| app/components/prop-options/create-prop-option-dialog.tsx:152-161 | `calculateComplementOdds` always reads the odds as over odds (`isOver = true`), also when called from the under field at line 187 | `ev` 10, "-150" typed into the under field: the line shows "11.5" but the over field shows "+130", while the pricer quotes the over of 11.5 at "+155" | the other side gets the pricer's odds for the line shown, derived with the edited side | high (not executed) | `OptionDialog.OptionForm.UnderEffectAsWritten`, with `OptionDialog.UnderEditMismatch` | `OptionDialog.OptionForm.UnderEffect` |
| components/user/avatar.tsx:9-11 | `nameParts[0][0]` of an empty first or last part is `undefined`, which the template turns into the text "undefined" | the name " bob" (leading space) gives the initials "UNDEFINEDB" | an empty part contributes nothing, so the initials are at most two letters | high (not executed) | `Avatar.LeadingSpaceInitials` | `Avatar.Initials` |
