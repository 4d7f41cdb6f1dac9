# OneGuard's decision engine, modelled and proved

OneGuard decides, purchase by purchase, whether an agent may spend a customer's money: approve,
decline, or ask the customer (a step-up). This project models the stateful part of that engine and
proves what it promises over whole runs: a ledger of purchases, the rolling-window view computed
from it, the rules and protections that read the view, the seven-step ladder, and the pipeline step
that ties them together. Purchases, redeliveries, customer answers, timeouts, deadline changes and
new live runs interleave; a purchase may be decided, and an answer arrive, before the decision is
stored.

How the files build on each other:

- `Types`, `Seqs`: the values, and list helpers. Money is integer cents, time integer seconds, the
  number in a rule is carried in hundredths.
- `Ledger`, `Views`: entries, recording, closing, and the two views (`MemoryView`, `StoreView`).
  `Sorting`, `Permutations`, `Refinement`: what does not depend on the order of rows, and that the
  stored ledger refines the in-memory one. `ViewFacts`: what the view means. `LedgerObjects`: both
  ledgers as objects, and `decide_event` driving one.
- `PolicyRules`, `Warnings`, `EditDistance`, `Protections`, `Ladder`: one purchase against a policy.
  `LadderJoin`, `CleanSheet`: what the ladder's answer means. `Categories`: where two checks on a
  category part. `TierTwo`: what is asked of the shop's text, and what a reading may change.
- What a decision means, over the purchase's own lines and terms: `RuleMeaning` (each rule's field),
  `Standing` (where rules and flags stand), `ShieldMeaning` (protections and signs), `LadderNames`,
  `Verdict` (the step that decides, its outcome and what it names), `Relations`, `Decisions` (a new
  purchase), `ViewShows` (what the view says), `Bounds` (what a decline's bounds say). These say it without
  the functions they are about, so a check that is skipped or turned round breaks one of them.
- `Pipeline`, `Runs`: decisions, and any interleaving of steps. `Runs.SafetyPrinciple` carries a
  property of every automatic approval along any run; `Approvals` opens an approval up.
- `Sessions`: which earlier runs a purchase looks back on. `Deliveries`: every row comes from one delivery,
  so what one decision means holds along any run.
- `Reachable`: a concrete legal run with an automatic approval, so these theorems are not empty.
- Whole-run theorems: `Budget` (rolling spend, purchase count), `Repeats` (splits, repeats), `OneItem`,
  `Watch`, `Remember` and `AskOnce`, `Conservation`, `Recording` (concurrent callers).
- Changing a policy: `Draft`, `Policies`, `PolicyMeaning` (what the form, ids and requests come to), `Tighten`,
  `TightenGaps`, `Mandates`; `TightenRuns` decides two tightenings that add an approval.
- Beside the engine: `RateLimit`, `Lint`, `Explain`, `Passport`, `Receipts`.

Runs are assumed to deliver purchases one at a time, each new one strictly later in simulated time
than all its run holds, for a positive amount; a redelivery too comes when nothing is in flight; and
a run's row is there before its first decision, started no earlier than the rows before it
(`Runs.Allowed`); run ids are the runs table's key. The view only counts purchases strictly before the one decided, so without the
first two the limits cannot hold.

## Where the code and its documentation differ

Each is given as a concrete input and as the exact condition, for all inputs.

- C4 is documented as a pure restriction. For every policy a card can be under, a tightening shares
  all its approvals with the old policy, each decided on what is read for it, but for two exceptions
  (`TightenGaps.GovernedTighten`). A new per-order limit silences "above normal" (W4) beside another
  weak sign, and the old policy asks; that takes an old policy whose only amount caps are exact
  amounts (the purchase in `TightenRuns.LimitAddsApproval`). Or tier 2, which reads everything while no
  unknown rule names a fact, is asked for sizes only because of an added rule, and a return window it
  would have read breaks the old window rule (the purchase in `TightenRuns.ReadingAddsApproval`).
- `_bounds_conflict` does not look at `!=`, and compares texts with their case. On texts, where the
  vocabulary has `!=`, a contradiction is missed exactly where all "=" are one text and a "!=" names it up
  to case; a false alarm is raised exactly where the "=" differ in case alone and no "!=" names them
  (`Lint.TextExact`; "in Switzerland" and "not in Switzerland" in `Lint.EqualExcludedMissed`). The
  compiler's own spellings raise none (`Lint.ListedTextsAreSafe`).
- `finalize` drops "exact duplicates" without comparing `on_fail`. It loses a reading exactly when two
  different ones are of one restriction (`Draft.NothingLostIff`), and a declining restriction is left
  asking exactly when an asking reading comes first (`Draft.SoftenedIff`; two in `Draft.FirstReadingWins`).
- "At most N calls in any 60 s" holds for half-open windows, shorter by as much as clock readings of a key
  overtake each other, which they can because the clock is read before the lock is taken
  (`RateLimit.LimiterHolds`). For readings in order, with both ends it holds exactly when each accepted
  call found fewer than N at or after 60 s before it (`RateLimit.ClosedWindowsIff`; N + 1 calls in
  `RateLimit.ClosedWindowMayHoldMore`).
- C10 and A6 compare category names with their case, C3 and C4 do not. With no requested item C10 fails
  what C3 allows exactly when a line's category is allowed only up to case
  (`Categories.NothingExtraByCase`, `Categories.RecurringByCase`; "Books" in `Categories.BooksAreExtra`).

## Model

| member | source | states |
|---|---|---|
| `Budget.RollingBudget` | backend/oneguard/engine/policy.py:626-654 | in every state of every run, for every automatic approval, spend plus reservations on its card in the limit's window up to it stay within the limit, whatever is answered before or after |
| `Budget.AnyWindowEndingAutomatically` | backend/oneguard/engine/policy.py:626-654 | the spend of a window ending at any time is within the limit when its last approval was automatic |
| `Budget.PurchaseCount` | backend/oneguard/engine/policy.py:695-734 | with "at most N per D days", every automatic approval's window holds at most N approvals and pending step-ups in all later states |
| `Budget.CheckedOverItsWindow` | backend/oneguard/engine/policy.py:832-841 | a period rule behind an approval was checked over its own window, never over another rule's |
| `Budget.ViewTotals` | backend/oneguard/engine/ledger.py:158-161 | the view's totals and counts are those of the in-window decisions before the purchase |
| `Budget.WindowLoad` | backend/oneguard/engine/ledger.py:130-134 | the view's in-window sums equal sums over the table between the window's start and the purchase |
| `Budget.LoadEvolves` | backend/oneguard/engine/ledger_base.py:421-454 | answers, timeouts and deadline changes never raise what a window holds |
| `Budget.WindowClosed` | backend/oneguard/engine/ledger_base.py:334-346 | rows stored after an approval fall outside its window, so its window is settled when it is stored |
| `Repeats.NoSplitOrders` | backend/oneguard/engine/protections.py:237-259 | an automatic approval and any purchase at the shop in the 10 minutes before it that is approved or may still be stay together within every per-order limit in force |
| `Repeats.NoRepeats` | backend/oneguard/engine/protections.py:194-216 | an automatic approval that is no re-quote of a decline never has the cart of such a purchase of the last 24 hours at an amount within 5% |
| `Repeats.PriorShown` | backend/oneguard/engine/ledger.py:162-176 | every decision of the run's last 24 hours is among the view's priors |
| `Repeats.RequoteIsNamed` | backend/oneguard/engine/decide.py:136-144 | an approved re-quote carries the relation to the decline it re-quotes |
| `Repeats.NoSplit` | backend/oneguard/engine/protections.py:219-259 | with A4 silent, no earlier order in 10 minutes exceeds any stated limit together with this one |
| `OneItem.OneItemOnce` | backend/oneguard/engine/protections.py:350-381 | of two purchases holding a single-item mandate's item, in one run or in two live runs of the mandate by the rows of the runs table, a later automatic approval means the earlier approval was the customer's own answer |
| `OneItem.FirstPurchase` | backend/oneguard/engine/ledger.py:272-283 | when the item is approved automatically, no stored purchase of it under the mandate is a final approval |
| `OneItem.FulfilmentShown` | backend/oneguard/engine/ledger_base.py:164-175 | every marked final approval appears among the fulfilments, under its mandate |
| `Watch.WatchHolds` | backend/oneguard/engine/ledger.py:191-192 | between a frozen decision and any later automatic approval on the card, in its run or a later live run of the mandate (by the rows of the runs table), lies a step-up there that the customer approved, not before it; whatever runs start meanwhile |
| `Watch.FrozenAfter` | backend/oneguard/engine/ledger.py:215-225 | the one-pass loop is on exactly when some frozen decision has no customer-approved step-up at or after it |
| `Watch.WatchedIsFrozen` | backend/oneguard/engine/decide.py:127-133 | a purchase decided under the watch is not approved and is stored as frozen, which re-arms it; when else one is frozen: `Decisions.FrozenIff` |
| `Decisions.FrozenIff` | backend/oneguard/engine/decide.py:127-133 | under a policy in force a purchase is stored as frozen exactly under the watch, or when its device is missing or strange (once a shop is known) and two or more other attempts came within ten minutes |
| `Deliveries.AttackArms` | backend/oneguard/engine/decide.py:127-133 | along any run: after such an attack no later purchase on the card, in its run or a later live run of the mandate, is approved automatically until the customer has approved a step-up there |
| `Verdict.TrustIs` | backend/oneguard/engine/decide.py:127-133 | the session's trust is frozen so, else elevated at a strange device or a burst, else normal |
| `Watch.WatchedOrdered` | backend/oneguard/engine/ledger.py:242-252 | watched decisions come in session order, then time order |
| `Remember.RememberedIff` | backend/oneguard/engine/policy.py:819-829 | an uncheckable rule passes from memory exactly when each cart item was in an approved step-up at that shop naming the rule |
| `Remember.KnownShopIff` | backend/oneguard/engine/policy.py:786-798 | a known-shop rule passes exactly at a known shop, or from a remembered answer at the shop while no shop is known or the rule asks |
| `Remember.KnownShopFlagIff` | backend/oneguard/engine/policy.py:786-798 | the known-shop flag's own check passes exactly at a known shop, or from a remembered answer at the shop while no shop is known |
| `Remember.AskedOnce` | backend/oneguard/engine/ledger.py:254-270 | once the customer approves a step-up naming an uncheckable rule, the rule passes for its items at that shop in every later view of the run and of live runs of the mandate that started later, by the rows of the runs table |
| `Remember.MemoryGrows` | backend/oneguard/engine/ledger.py:254-270 | what a view of a run remembers, every later view of it remembers |
| `Remember.KeyInjective` | backend/oneguard/engine/ledger_base.py:141-143 | remembered keys tell rule, shop and item apart on ids without a bar |
| `Remember.ShopKeyApart` | backend/oneguard/engine/ledger_base.py:146-148 | a shop key is no item's key, but for an item named "*" |
| `Remember.BarsCollide` | backend/oneguard/engine/ledger_base.py:141-143 | with a bar in an id two different answers share a key |
| `Remember.KeyMeansAnswer` | backend/oneguard/engine/ledger_base.py:151-161 | an item key is remembered exactly when an approved step-up at the shop named the rule and held the item |
| `Remember.ShopKeyMeansAnswer` | backend/oneguard/engine/ledger_base.py:151-161 | a shop key is remembered exactly when an approved step-up at the shop named the rule |
| `AskOnce.AskNamesRule` | backend/oneguard/engine/decide.py:197-210 | a step-up made with an uncheckable rule unknown names that rule |
| `AskOnce.AskThenRemember` | backend/oneguard/engine/policy.py:814-829 | from the ask, through the customer's approval, to the rule passing for the same items at that shop |
| `Conservation.MoneyFollowsOutcome` | backend/oneguard/engine/ledger_base.py:319-332 | in every state of every run an entry has its amount as spend if approved, as reservation if pending, and nothing otherwise |
| `Conservation.ClosedForGood` | backend/oneguard/engine/ledger_base.py:421-454 | a decided or closed entry never changes again, and a pending one never gains money |
| `Conservation.AnswerMovesMoney` | backend/oneguard/engine/ledger_base.py:421-454 | closing a step-up takes exactly its amount out of the reservations, into spend only on an approval |
| `Conservation.AnswerTakenIff` | backend/oneguard/api/offline.py:325-341 | a customer's answer is taken exactly for a known, pending step-up before its deadline; which refusal otherwise |
| `Conservation.TimeoutDeclines` | backend/oneguard/api/offline.py:343-357 | a timeout leaves a declined step-up and refuses every later answer |
| `Conservation.AnswerLeaves` | backend/oneguard/engine/ledger.py:323-350 | a customer's answer closes that row, by the customer and then, with its money settled, and leaves every other as it was |
| `Conservation.TimeoutLeaves` | backend/oneguard/engine/ledger.py:323-350 | so does a timeout, as expired and with nothing spent |
| `Conservation.AnswerStepLeaves` | backend/oneguard/api/offline.py:325-341 | along a run an answer closes exactly the pending step-up it names, before its deadline, as it says |
| `Conservation.LapseStepLeaves` | backend/oneguard/api/offline.py:343-357 | along a run a timeout declines exactly the pending step-up it names |
| `Conservation.ExtendStepLeaves` | backend/oneguard/engine/ledger.py:352-359 | along a run a new deadline moves only that of the pending step-up it names |
| `Conservation.DecidedInOneGo` | backend/oneguard/pipeline.py:208-343 | delivering and saving with nothing between is deciding the event |
| `Conservation.RedeliveryChangesNothing` | backend/oneguard/pipeline.py:222-233 | in every reachable state redelivering a stored purchase leaves the whole ledger as it is and returns the stored decision |
| `Conservation.NewDecisionAddsOne` | backend/oneguard/pipeline.py:284-343 | a new purchase adds one row, holding its amount by its outcome, with the decision returned |
| `Recording.RecordedExactlyOnce` | backend/oneguard/engine/ledger.py:286-305 | under any interleaving of look-ups, inserts, conflicts and answers each live id has one row and all callers get the first inserted decision, up to an answer |
| `Recording.TwoCallersOneRow` | backend/oneguard/engine/ledger.py:286-305 | two callers that look up before either inserts both return the one row |
| `Runs.SafetyPrinciple` | backend/oneguard/pipeline.py:208-343 | a property of automatic approvals that decisions establish and answers cannot break holds in every state of every run |
| `Runs.WellFormedRun` | backend/oneguard/engine/ledger_base.py:319-332 | every run keeps unique ids, time order within a run, and the money of each entry |
| `Runs.RowsPersist` | backend/oneguard/engine/ledger.py:323-350 | rows stay, in place; a closed row is never touched; customer approvals stay |
| `Runs.StepEvolves` | backend/oneguard/engine/ledger_base.py:421-481 | every step but a commit only closes pending step-ups or moves their deadlines |
| `Runs.CommitAppends` | backend/oneguard/pipeline.py:333-343 | storing a new decision appends exactly its row |
| `Runs.LaterRunUnseen` | backend/oneguard/engine/ledger.py:227-240 | a run that starts later is seen as an earlier one from no other, so what a purchase looks back on stays |
| `Sessions.EarlierIff` | backend/oneguard/engine/ledger.py:227-240 | a purchase looks back on exactly the live runs of its run's mandate that started before it, its own being live |
| `Sessions.EarlierInOrder` | backend/oneguard/engine/ledger.py:227-240 | in the order they started |
| `Sessions.EarlierOnce` | backend/oneguard/engine/ledger.py:227-240 | each once, and never its own |
| `Reachable.ApprovalReachable` | backend/oneguard/pipeline.py:208-343 | a legal run from an empty ledger approves a concrete purchase automatically and stores its spend |
| `Pipeline.PeriodDaysOf` | backend/oneguard/pipeline.py:148-158 | the window is the shortest of the policy's period rules, and none exactly when there is none |
| `Pipeline.BeginIsNew` | backend/oneguard/pipeline.py:296-333 | a new entry takes id, run, time, amount, shop and mandate from the purchase, and is pending exactly when it asks |
| `Approvals.NothingTriggered` | backend/oneguard/pipeline.py:267-278 | behind an approval no protection asked or blocked and the watch was off |
| `Approvals.RuleResultsPass` | backend/oneguard/pipeline.py:250-278 | behind an approval every customer rule passed, or was unknown under "approve when unsure" |
| `LadderJoin.DecideIsJoin` | backend/oneguard/engine/decide.py:147-239 | the early-exit ladder's outcome is the most restrictive contribution of rules, gaps, protections, signs and watch |
| `LadderJoin.ApproveNeeds` | backend/oneguard/engine/decide.py:165-229 | a missing step-1 or period result never counts as a pass, and an approval has none failing |
| `LadderJoin.ApproveIff` | backend/oneguard/engine/decide.py:147-239 | under "ask" or "decline" an approval is exactly: all checks reported passes, nothing asks |
| `LadderJoin.SignsOnlyAddFriction` | backend/oneguard/engine/decide.py:220-228 | warning signs, soft signals and the watch only turn an approval into an ask |
| `LadderJoin.MoreSignalsNeverRelax` | backend/oneguard/engine/decide.py:192-228 | adding signals never makes the outcome less severe |
| `LadderJoin.OrderDoesNotMatter` | backend/oneguard/engine/decide.py:147-239 | the outcome depends neither on the order of its inputs nor on repeated rule results |
| `LadderJoin.StepGivesOutcome` | backend/oneguard/engine/decide.py:175-239 | which outcomes each step can give |
| `LadderJoin.StepTwoNames` | backend/oneguard/engine/decide.py:184-190 | a broken-rule decline names exactly the broken rules |
| `LadderJoin.StepFourNames` | backend/oneguard/engine/decide.py:197-210 | an uncertain decision names exactly the unknown rules, step-1 gaps and, when it asks, the limits held up by reservations |
| `LadderNames.StepThatDecides` | backend/oneguard/engine/decide.py:175-239 | the first step with something to say decides |
| `LadderNames.StepOneNames` | backend/oneguard/engine/decide.py:175-180 | a step-1 decline names exactly the inactive checks |
| `LadderNames.StepThreeNames` | backend/oneguard/engine/decide.py:192-195 | a step-3 decline names exactly the protections that decline |
| `LadderNames.StepFiveNames` | backend/oneguard/engine/decide.py:215-218 | a step-5 ask names exactly the protections that ask, "already bought" only when it is the only one |
| `LadderNames.StepSixNames` | backend/oneguard/engine/decide.py:220-228 | a step-6 ask names exactly the signs that ask, or the watch where there is none |
| `Relations.RelatedIs` | backend/oneguard/engine/decide.py:136-144 | an order is related to the latest one it repeats, else the latest one it splits, else the decline it re-quotes, whichever step decides |
| `Ladder.LastResult` | backend/oneguard/engine/decide.py:165-165 | the result read for a step-1 id is one reported for it, and missing exactly when none is |
| `Ladder.Unreported` | backend/oneguard/engine/decide.py:167-172 | a period rule without a result is unknown, and nothing else is added |
| `CleanSheet.ApprovedIffClean` | backend/oneguard/pipeline.py:250-278 | the engine approves exactly when policy, authority and card are active, every rule and flag passes, no protection stops it and no signs ask; what each of these says of the purchase: `Decisions.ApprovedExactly` |
| `Decisions.ApprovedExactly` | backend/oneguard/pipeline.py:208-343 | a new purchase is approved automatically exactly when nothing is inactive, every rule and stated flag is met by its lines and terms, no protection fires on them and no signs ask |
| `Decisions.DecidedBy` | backend/oneguard/engine/decide.py:147-239 | under any setting: the first step with grounds in the purchase decides, gives its outcome, and names exactly those grounds |
| `Decisions.UnruledDeclines` | backend/oneguard/pipeline.py:169-201 | without an active policy of the card's own a purchase is declined at step 1, for the policy |
| `Decisions.HoldsWhatWasAsked` | backend/oneguard/engine/policy.py:531-538 | with an item asked for, a cart without a line that has all its words is declined, at step 2 naming C5 |
| `Decisions.KeepsToTypes` | backend/oneguard/engine/policy.py:511-551 | a line of a kind not allowed or excluded, and a shop of another type, are declined, at step 2 naming the flag |
| `Decisions.BrokenRuleDeclines` | backend/oneguard/engine/decide.py:184-190 | a rule broken by the purchase, not only held up and not asking, declines it, at step 2 naming the rule |
| `Decisions.HeldUpAsks` | backend/oneguard/engine/decide.py:206-213 | a purchase that only unanswered step-ups hold up is asked about at step 4, naming the limit, and never declined |
| `Decisions.InstructionsNeverApproved` | backend/oneguard/engine/protections.py:107-127 | under any policy, text that instructs the agent is never approved automatically |
| `Decisions.InstructionsAsk` | backend/oneguard/engine/decide.py:215-218 | with rules, flags and blocking protections clean, such a purchase is a step-up at step 5 that names A1 |
| `Decisions.EntryRecords` | backend/oneguard/pipeline.py:296-333 | the entry has the event's customer and card, the items of its lines in order, a deadline exactly when it asks, and the shop is flagged exactly on such text |
| `Decisions.SettledIs` | backend/oneguard/pipeline.py:239-261 | a purchase is decided on its event's facts, the shop known by the view, with at most unknown sizes and windows read in |
| `Deliveries.NoApprovalOnInstructions` | backend/oneguard/engine/protections.py:107-127 | along any run, no automatic approval in any state was delivered with instructions in its shop's text |
| `Deliveries.ApprovalsHoldWhatWasAsked` | backend/oneguard/engine/policy.py:531-538 | along any run, every automatic approval under a policy with an item asked for was delivered with a line that has all its words |
| `Deliveries.RowShowsDecision` | backend/oneguard/pipeline.py:333-343 | in every state, a row shows what was decided when its purchase was first delivered, at most closed since |
| `Deliveries.RowWasDelivered` | backend/oneguard/pipeline.py:208-343 | no row is without such a delivery |
| `Verdict.EngineDecidesBy` | backend/oneguard/engine/decide.py:147-239 | which step decides and what it gives, from where rules and flags stand, which protections and signs fire, and the watch |
| `Verdict.EngineNames` | backend/oneguard/engine/decide.py:147-239 | what each step names, over the same |
| `RuleMeaning.TypedFinds` | backend/oneguard/engine/policy.py:428-485 | for each field of a rule, when the purchase's lines, shop or terms break it and when they leave it open: the result fails, is unknown, or passes exactly so |
| `RuleMeaning.CompareMeets` | backend/oneguard/engine/policy.py:177-188 | a value meets an operator: numbers in order, texts up to case, lists by membership, dates in the order of their texts |
| `RuleMeaning.LimitInFrancs` | backend/oneguard/engine/policy.py:170-174 | a money limit in another currency is the nearest cent at 0.95, 1.12 or 0.87, ties to even; any other limit is as stated |
| `RuleMeaning.LessIsBefore` | backend/oneguard/engine/policy.py:177-188 | the order of texts is the one decided where they first part |
| `RuleMeaning.NumberReadsBack` | backend/oneguard/engine/policy.py:191-196 | the text a number is compared by stands for that number |
| `Standing.RuleStands` | backend/oneguard/engine/policy.py:801-842 | whether a rule is met, broken, left open or only held up, from the purchase, the ledger's totals, the last price and the remembered answers |
| `Standing.PeriodStands` | backend/oneguard/engine/policy.py:626-734 | a period limit on amounts or on counts is marked as held up exactly when the final approvals alone would meet it and the reservations do not; over another window it is unknown |
| `Standing.FlagResultStands` | backend/oneguard/engine/policy.py:511-619 | a flag is checked exactly when stated and not restated by a rule, and finds exactly the lines or shop it speaks of |
| `Standing.ReportedIff` | backend/oneguard/engine/policy.py:801-842 | the results the ladder reads report exactly where rules and flags stand |
| `Categories.NothingExtraByCase` | backend/oneguard/engine/policy.py:566-577 | with no requested item, C10 fails a cart C3 allows exactly when a line's category is allowed only up to case |
| `Categories.NothingExtraIsAllowed` | backend/oneguard/engine/policy.py:511-577 | with no requested item, what C10 lets through C3 allows |
| `Categories.RecurringByCase` | backend/oneguard/engine/protections.py:266-286 | on a cart C3 allows, A6 is triggered exactly by a recurring line not requested whose category is allowed only up to case |
| `Categories.BooksAreExtra` | backend/oneguard/engine/policy.py:566-577 | "Books" where "books" is allowed: C3 passes, C10 fails |
| `TierTwo.UnreadStillApproves` | backend/oneguard/engine/tier2.py:253-301 | a policy with nothing unknown approves on the facts before a reading whatever it would approve on the facts read |
| `TierTwo.MoreUnknown` | backend/oneguard/pipeline.py:252-261 | added rules leave exactly as unknown what was unknown, so a tightened policy reads whenever the old one did |
| `TierTwo.ApprovedOnReading` | backend/oneguard/engine/tier2.py:253-301 | what a policy approves on one reading of a purchase it approves on another exactly when its size and return-window rules pass there too |
| `TierTwo.OldReadRules` | backend/oneguard/engine/tier2.py:104-116 | where the old rules pass on what is read for the tightened policy, the size and window rules pass on what is read for the old one exactly unless the question was narrowed from everything to sizes and a window then breaks |
| `PolicyRules.StrictestWindow` | backend/oneguard/engine/facts.py:299-323 | the smallest window any line states, and none exactly when no line states one |
| `PolicyRules.BuildLedgerResults` | backend/oneguard/engine/policy.py:801-842 | the two loops give one ledger-checked result per result and one per period rule, in order; what each says: `Standing.RuleStands` |
| `PolicyRules.EvaluateByLoop` | backend/oneguard/engine/policy.py:443-485 | collecting broken and missing values in a loop gives: any broken value fails, else any missing one is unknown, else a pass |
| `PolicyRules.AddFlagResults` | backend/oneguard/engine/policy.py:606-618 | each stated flag no rule covers adds its own check, in order; what each finds: `Standing.FlagResultStands` |
| `PolicyRules.BuildRuleResults` | backend/oneguard/engine/policy.py:600-619 | the growing list holds the step-1 checks, one result per rule that is not a period rule, then the flags; what each says: `RuleMeaning.TypedFinds` |
| `PolicyRules.RuleById` | backend/oneguard/engine/policy.py:816-816 | a rule of the id asked for, and none exactly when no rule has it |
| `Warnings.PerOrderLimit` | backend/oneguard/engine/protections.py:219-229 | the limit found is a stated one and at least as strict as every other |
| `Protections.FirstPrior` | backend/oneguard/engine/protections.py:155-163 | the prior a re-quote names, and none exactly when no prior has the id |
| `Protections.LastPrior` | backend/oneguard/engine/protections.py:194-199 | a prior meeting the test, and none exactly when no prior does |
| `Protections.FindLookalike` | backend/oneguard/engine/protections.py:324-347 | A7 found by search equals "a known shop within two letters, the shop itself unknown" |
| `ShieldMeaning.ShieldsAre` | backend/oneguard/engine/protections.py:107-400 | when each of A1 to A8 fires, over the purchase, the earlier orders, the known names and what was bought, and what it would do |
| `ShieldMeaning.ShieldsAsk` | backend/oneguard/engine/protections.py:384-400 | which protections ask |
| `ShieldMeaning.ShieldsBlock` | backend/oneguard/engine/protections.py:384-400 | which protections decline |
| `ShieldMeaning.SignsWarn` | backend/oneguard/engine/warnings.py:65-140 | which strong and weak signs warn, over the purchase, its policy's limits and what is known |
| `ShieldMeaning.TwoWeakIff` | backend/oneguard/engine/decide.py:220-224 | two weak signs are two different ones |
| `ShieldMeaning.NoBaselineShown` | backend/oneguard/engine/warnings.py:46-107 | with no shop known yet, what was not seen before is shown and never asks |
| `EditDistance.Distance` | backend/oneguard/engine/protections.py:292-302 | the two-row table, with its swap, computes the recursive Levenshtein distance |
| `EditDistance.DistanceIsShortestEdit` | backend/oneguard/engine/protections.py:292-302 | that distance is the least number of one-letter edits |
| `EditDistance.LevSymmetric` | backend/oneguard/engine/protections.py:292-302 | the distance is symmetric |
| `EditDistance.LevZero` | backend/oneguard/engine/protections.py:292-302 | the distance is zero exactly on equal names |
| `EditDistance.LevTriangle` | backend/oneguard/engine/protections.py:292-302 | the distance obeys the triangle inequality |
| `EditDistance.Lookalike` | backend/oneguard/engine/protections.py:311-321 | the first known shop at the least distance, at most 2; none exactly when there is none or the shop itself is known |
| `ViewFacts.KnownIff` | backend/oneguard/engine/ledger.py:136-152 | a shop is known exactly when history knows it or this run approved a purchase there |
| `ViewFacts.LargestApproval` | backend/oneguard/engine/ledger.py:145-148 | the view's largest approval bounds this run's and history's, and is one of them |
| `ViewFacts.LastPriceIs` | backend/oneguard/engine/ledger_base.py:178-191 | the last price at a shop is that of the customer's latest approval there, else history's |
| `ViewShows.DeviceKnownIff` | backend/oneguard/engine/ledger.py:198-213 | a device is known exactly from history or from a purchase this run approved |
| `ViewShows.CountryKnownIff` | backend/oneguard/engine/ledger.py:198-213 | a country is known exactly from history or from a purchase this run approved |
| `ViewShows.NamesShown` | backend/oneguard/engine/ledger_base.py:194-199 | the names a shop is compared with are history's, for the known shops |
| `ViewShows.FlaggedIff` | backend/oneguard/engine/ledger.py:159-159 | a shop is flagged exactly in the run that flagged it |
| `ViewShows.PriorsShown` | backend/oneguard/engine/ledger.py:162-176 | the earlier orders shown are exactly this run's of the last day and its declines, oldest first |
| `ViewShows.FulfilmentsShown` | backend/oneguard/engine/ledger.py:272-283 | what was bought already is exactly the marked final approvals of this run and of earlier live runs of the mandate |
| `ViewShows.ApprovalCounts` | backend/oneguard/engine/ledger.py:138-144 | how often each shop was approved on the card and on the customer's other cards, by history and this run |
| `Refinement.ViewsAgree` | backend/oneguard/engine/ledger.py:121-196 | over the same decisions in any two orders, without ties, both ledgers' views agree in every field but the watch |
| `Refinement.StoreRefinesMemory` | backend/oneguard/engine/ledger_base.py:304-481 | so after any sequence of operations on both ledgers |
| `Refinement.MirrorsAll` | backend/oneguard/engine/ledger.py:286-384 | the same operations keep two ledgers holding the same decisions, flags, marks and events |
| `Permutations.SortUnique` | backend/oneguard/engine/ledger.py:131-133 | without ties there is one order by time |
| `LedgerObjects.InMemoryLedger.constructor` | backend/oneguard/engine/ledger_base.py:307-314 | a new ledger holds nothing |
| `LedgerObjects.InMemoryLedger.Record` | backend/oneguard/engine/ledger_base.py:319-332 | inserts with the money of the outcome, or returns what is stored |
| `LedgerObjects.InMemoryLedger.Resolve` | backend/oneguard/engine/ledger_base.py:421-454 | closes a pending step-up; each refusal leaves the ledger as it was |
| `LedgerObjects.InMemoryLedger.SetDeadline` | backend/oneguard/engine/ledger_base.py:474-481 | moves a pending step-up's deadline, else refuses |
| `LedgerObjects.InMemoryLedger.NoteEvent` | backend/oneguard/engine/ledger_base.py:456-464 | the first note of an event wins |
| `LedgerObjects.InMemoryLedger.FlagMerchant` | backend/oneguard/engine/ledger_base.py:466-468 | adds the shop to the run's flags and changes no other run's |
| `LedgerObjects.InMemoryLedger.MarkRequestedItem` | backend/oneguard/engine/ledger_base.py:470-472 | the first mark of a live id wins |
| `LedgerObjects.InMemoryLedger.View` | backend/oneguard/engine/ledger_base.py:334-409 | the loops over dicts compute the specified view |
| `LedgerObjects.StoreLedger.constructor` | backend/oneguard/engine/ledger.py:112-114 | a new store holds nothing but its runs |
| `LedgerObjects.StoreLedger.Get` | backend/oneguard/engine/ledger.py:117-119 | none exactly when no row has the live id; otherwise a row with it, and the only one when ids are unique |
| `LedgerObjects.StoreLedger.Record` | backend/oneguard/engine/ledger.py:286-305 | inserts with the money of the outcome, or returns what is stored |
| `LedgerObjects.StoreLedger.Resolve` | backend/oneguard/engine/ledger.py:323-350 | field by field, closes a pending step-up as specified; each refusal changes nothing |
| `LedgerObjects.StoreLedger.SetDeadline` | backend/oneguard/engine/ledger.py:352-359 | moves a pending step-up's deadline, else refuses |
| `LedgerObjects.StoreLedger.FlagMerchant` | backend/oneguard/engine/ledger.py:369-371 | a repeated flag row means the same as one |
| `LedgerObjects.StoreLedger.MarkRequestedItem` | backend/oneguard/engine/ledger.py:373-381 | a live id is marked once |
| `LedgerObjects.StoreLedger.View` | backend/oneguard/engine/ledger.py:121-196 | the loops over ordered rows compute the specified view, watch and memory included |
| `LedgerObjects.StoreLedger.SessionWatch` | backend/oneguard/engine/ledger.py:191-192 | the watch over earlier live runs of the mandate (`Sessions.EarlierIff`) and this run |
| `LedgerObjects.TallyApprovals` | backend/oneguard/engine/ledger.py:138-144 | the loop adds one per approval on, or off, the card to history's counts |
| `LedgerObjects.PricesAfter` | backend/oneguard/engine/ledger_base.py:178-191 | the loop over sorted approvals leaves each shop's latest price |
| `LedgerObjects.ReadLines` | backend/oneguard/engine/tier2.py:285-300 | the loop over lines fills each unknown size and each unstated window that was asked for with what was read, and keeps everything else |
| `LedgerObjects.RelevantTopics` | backend/oneguard/engine/tier2.py:104-116 | the loop over rules gives exactly the topics the unknown ones name, or every topic when they name none |
| `LedgerObjects.RunStages` | backend/oneguard/pipeline.py:250-278 | the stages run in order on one view give the specified decision; what that is: `Verdict.EngineDecidesBy`, `Verdict.EngineNames` |
| `LedgerObjects.DecideOn` | backend/oneguard/pipeline.py:208-343 | note, look up, view, decide, store, flag and mark leave the specified ledger and return the stored decision |
| `LedgerObjects.AnswerStepUp` | backend/oneguard/api/offline.py:325-341 | a customer's answer closes the step-up or is refused with nothing changed |
| `LedgerObjects.ExpireStepUp` | backend/oneguard/api/offline.py:343-357 | a timeout declines a pending step-up, and reports false with nothing changed otherwise |
| `Tighten.TightenedApprovalsIff` | backend/oneguard/api/routes_customer.py:574-613 | on the same ledger, each policy on its own window's view and on what tier 2 reads for it: the old policy shares an approval of the tightened one exactly when no pair of weak signs is silenced and no window is lost by a narrower question; a silenced pair alone means the old policy asks |
| `Tighten.TightenedApprovalsShrink` | backend/oneguard/api/routes_customer.py:574-613 | so with a per-order limit in force, what a tightened policy approves the old one approves exactly when no window is lost by a narrower question |
| `Tighten.TightenShrinks` | backend/oneguard/engine/policy.py:600-619 | for the engine on given facts, with a per-order limit in force: what the tightened policy approves the old one approves |
| `Tighten.TightenExact` | backend/oneguard/engine/warnings.py:91-107 | exactly which approvals of a tightened policy the old one shares: flags pass, and no silenced pair of weak signs |
| `Tighten.RestatedExact` | backend/oneguard/engine/warnings.py:91-107 | on given facts with every flag restated, exactly: no silenced pair of weak signs; with one the old policy asks |
| `Tighten.WindowStays` | backend/oneguard/pipeline.py:148-158 | when all old period rules pass under the tightened policy, both have the same window |
| `Tighten.ViewsDifferInPeriod` | backend/oneguard/engine/ledger.py:121-196 | views over two windows differ only in the period totals |
| `TightenGaps.GovernedTighten` | backend/oneguard/api/routes_customer.py:574-613 | C4 for every policy a card can be under, each decided on what is read for it: an approval of the tightened policy is the old one's too exactly unless a pair of weak signs is silenced, which takes caps that are all exact amounts, equal to the purchase, or a window is lost because an added rule narrows the question to sizes |
| `TightenGaps.NarrowedByAddition` | backend/oneguard/engine/tier2.py:104-116 | a question narrowed to sizes is narrowed by an added rule that is unknown and names sizes |
| `TightenRuns.LimitAddsApproval` | backend/oneguard/engine/warnings.py:91-107 | decided on an empty table: a policy for exactly CHF 50, tightened with the form's limit of CHF 100, turns a night purchase from an ask into an approval |
| `TightenRuns.ReadingAddsApproval` | backend/oneguard/engine/tier2.py:104-116 | decided on an empty table: with a limit already in force, adding "size 43" narrows the question to sizes, so a line's 14-day window goes unread and a decline becomes an approval |
| `TightenGaps.FlagLosesCheck` | backend/oneguard/engine/policy.py:606-607 | the hypothesis that flags are restated is needed: on a policy no draft makes, an added rule stops a flag's own check |
| `TightenGaps.ShorterWindowUnsettles` | backend/oneguard/engine/policy.py:832-841 | a shorter added window leaves a longer period rule unknown, so declines need not stay declines |
| `TightenGaps.PolicyLifecycle` | backend/oneguard/api/policies.py:174-187 | every policy in force has its flags restated, its ids distinct and not reserved, return windows as "at least", and a cap on one purchase's amount: acceptance gives this and each tightening keeps it |
| `TightenGaps.FinalizedDrafted` | backend/oneguard/compiler/draft.py:439-460 | a draft read from an instruction starts with flags restated, ids distinct and not reserved |
| `TightenGaps.FormDrafted` | backend/oneguard/api/policies.py:220-258 | so does a draft made from the form |
| `PolicyMeaning.FormMeans` | backend/oneguard/api/policies.py:220-258 | a purchase meets every rule of the form exactly when it is within the limits filled in, on one order and with what its period's window holds, has only the kinds chosen, and is at a known shop where that was asked |
| `PolicyMeaning.PeriodLimitStands` | backend/oneguard/api/policies.py:236-244 | the form's period limit counts reservations, is held up where only they break it, and is broken otherwise |
| `TightenGaps.AcceptedGoverned` | backend/oneguard/api/routes_customer.py:469-487 | whatever the customer may keep of a draft has all this and an amount cap |
| `TightenGaps.GovernedIsTidy` | backend/oneguard/compiler/draft.py:298-322 | such a policy's rules never share an id with a flag's check or a step-1 check |
| `Policies.TightenPolicy` | backend/oneguard/api/routes_customer.py:568-599 | the new list is the old one plus the proposed rules not in force, once each, ids distinct; what each refusal means |
| `PolicyMeaning.AddsWhatIsAsked` | backend/oneguard/api/routes_customer.py:568-599 | a request adds exactly the proposed rules it names whose id is not in force |
| `PolicyMeaning.RefusedFor` | backend/oneguard/api/routes_customer.py:568-599 | it is refused for an id neither proposed nor in force, and for one in force that would change, but not for a check that only shows a flag |
| `Policies.AcceptDraft` | backend/oneguard/api/routes_customer.py:469-487 | the chosen checks become the policy exactly when all are the draft's, an amount cap is left, and nothing stated in exact words is dropped; what each refusal means |
| `PolicyMeaning.CapIff` | backend/oneguard/api/routes_customer.py:469-487 | a rule on one purchase's amount counts as the cap a policy needs exactly when it bounds the amount |
| `PolicyMeaning.FlagChecksAre` | backend/oneguard/api/policies.py:85-112 | which checks only show a flag |
| `Policies.RoundTripIff` | backend/oneguard/api/policies.py:127-139 | loading what was stored gives the same rules and flags exactly when equal ids mean equal rules and no id is reserved |
| `Policies.FinalizedRoundTrip` | backend/oneguard/api/policies.py:118-139 | a finalized draft survives storage |
| `Policies.FinalizeRestates` | backend/oneguard/compiler/draft.py:439-460 | a finalized draft's category, shop and known-shop flags each have a rule that restates them |
| `Policies.AcceptedRestates` | backend/oneguard/api/policies.py:174-187 | whatever the customer keeps, each flag left is restated by a kept rule, and keeping all clears none |
| `Policies.AddedRestates` | backend/oneguard/api/routes_customer.py:599-613 | adding rules keeps every flag restated |
| `Draft.Unique` | backend/oneguard/compiler/draft.py:325-332 | the search ends with a free id: the base, or its least free number |
| `Draft.FirstFree` | backend/oneguard/compiler/draft.py:328-332 | the least free number from 2, found because numbered names are distinct and the taken ones finite |
| `Draft.ToRule` | backend/oneguard/compiler/draft.py:360-387 | a rule restating the reading under a free id that is never a reserved one |
| `PolicyMeaning.BaseIdsAre` | backend/oneguard/compiler/draft.py:298-322 | which restrictions start from which id; one that a flag restates starts from the flag's |
| `PolicyMeaning.ReservedIds` | backend/oneguard/compiler/draft.py:298-322 | no rule takes the id of a step-1 check, of a flag's own check or display, or of the stored flags |
| `Draft.Finalize` | backend/oneguard/compiler/draft.py:416-464 | one rule per kept reading, in order, ids pairwise distinct, flags from the rules; none exactly on an unknown field |
| `Draft.Kept` | backend/oneguard/compiler/draft.py:428-434 | the loop over seen keys keeps the first readings |
| `Draft.KeptOnce` | backend/oneguard/compiler/draft.py:428-434 | each distinct restriction is kept once, where it first occurs |
| `Draft.KeptIffFirst` | backend/oneguard/compiler/draft.py:428-434 | a reading is kept exactly when it stands first among the readings of its restriction |
| `Draft.NothingLostIff` | backend/oneguard/compiler/draft.py:428-434 | every reading is kept exactly when no two different ones are of one restriction |
| `Draft.SoftenedIff` | backend/oneguard/compiler/draft.py:428-434 | a restriction read as declining only asks in the draft exactly when an asking reading stands before every declining one |
| `Draft.FirstReadingWins` | backend/oneguard/compiler/draft.py:428-434 | of an asking and a declining reading of one restriction the first is kept |
| `Mandates.OneActivePerCard` | backend/oneguard/api/queries.py:292-366 | whatever is confirmed, moved and revoked, no card has two active mandates, none is forgotten and none comes back |
| `Mandates.MandateTable.ConfirmDraft` | backend/oneguard/api/queries.py:292-319 | the card's active mandates are ended and the new one added; refused on a taken id |
| `Mandates.MandateTable.MoveMandate` | backend/oneguard/api/queries.py:322-356 | a copy becomes the other card's active mandate and the original is revoked |
| `Mandates.RowsAfterMove` | backend/oneguard/api/queries.py:322-356 | row by row: the mandate itself and the active ones of the card it moves to are revoked at that time, every other is as it was |
| `Mandates.RowsAfterConfirm` | backend/oneguard/api/queries.py:304-318 | row by row: exactly the card's active mandates are ended, in the status and at the time given |
| `Mandates.LatestMandate` | backend/oneguard/api/queries.py:248-259 | an active mandate if there is one, else one confirmed last, of the greatest id among those confirmed together; none exactly for a card without any |
| `Mandates.EndedOk` | backend/oneguard/api/queries.py:304-318 | after a confirmation the new mandate is the card's only active one |
| `RateLimit.SlidingWindowLimiter.Acquire` | backend/oneguard/api/ratelimit.py:33-44 | other keys are untouched; whatever the clock reads, a call is accepted exactly when fewer than the limit are left once the old ones in front are dropped, and the wait is the least that helps; while a key's readings come in order, those left are the accepted calls in the window; a limit of zero or less has no oldest call to wait for |
| `RateLimit.LimiterHolds` | backend/oneguard/api/ratelimit.py:21-22 | in every state of the limiter no half-open window holds more than the limit of a key's accepted calls, at the limiter's length while readings come in order, shorter by the skew when none is more than that behind an earlier one |
| `RateLimit.ClosedWindowsIff` | backend/oneguard/api/ratelimit.py:38-39 | closed windows hold at most the limit exactly when each accepted call found fewer than the limit at or after one window before it |
| `RateLimit.TakeCall` | backend/oneguard/api/ratelimit.py:33-44 | one key's deque is always the end of its accepted calls, never longer than the limit; the call is accepted exactly when fewer than the limit are left, and in order these are the ones in the window |
| `RateLimit.Prune` | backend/oneguard/api/ratelimit.py:38-39 | popping from the left drops the old calls in front; in order, what stays is exactly the history's calls still in the window |
| `RateLimit.NoWindowOverflows` | backend/oneguard/api/ratelimit.py:38-43 | if each accepted call found room, no half-open window overflows |
| `RateLimit.ClosedWindowMayHoldMore` | backend/oneguard/api/ratelimit.py:38-39 | at every limit, that many calls at once and one exactly a window later are all accepted |
| `RateLimit.LeastWait` | backend/oneguard/api/ratelimit.py:40-41 | there is room after the wait and at no earlier time |
| `Lint.NumericConflict` | backend/oneguard/compiler/lint.py:196-217 | reported exactly when no number meets every <, <=, =, >= and > of the group |
| `Lint.ExactWithNotEqual` | backend/oneguard/compiler/lint.py:203-217 | on numbers a "!=" would be missed only where the ranges leave one value and it excludes that one |
| `Lint.TextExact` | backend/oneguard/compiler/lint.py:223-225 | some text meets every "=" and "!=" of a group exactly when, up to case, the "=" agree and no "!=" names what they ask for; from that, exactly which contradictions go unreported and which reports are false |
| `Lint.EqualExcludedMissed` | backend/oneguard/compiler/lint.py:223-225 | "in Switzerland" and "not in Switzerland" is a contradiction it misses |
| `Lint.ListedTextsAreSafe` | backend/oneguard/compiler/llm.py:545-558 | texts taken from lists in which no two differ only in case, as the compiler takes them, raise no false report |
| `Lint.ListExact` | backend/oneguard/compiler/lint.py:219-222 | lists are reported exactly when the engine lets no name through all of them, on names none of which differ only in case |
| `Lint.GroupConflict` | backend/oneguard/compiler/lint.py:192-225 | numeric groups by satisfiability; lists exactly when no name remains; "=" texts when two differ |
| `Lint.BoundsConflict` | backend/oneguard/compiler/lint.py:186-226 | one issue per conflicting group, in order of first appearance, naming its rules |
| `Lint.GroupRules` | backend/oneguard/compiler/lint.py:188-192 | the grouping loop collects each key's rules in order |
| `Lint.LowerCaseIsSafe` | backend/oneguard/compiler/llm.py:529-532 | lower-cased lists, which the compiler writes, are such |
| `Explain.PeriodBoundIff` | backend/oneguard/engine/explain.py:515-522 | a positive amount meets a period bound exactly when the rule passes for it on the same view |
| `Explain.LastPriceBoundIff` | backend/oneguard/engine/explain.py:533-535 | an amount meets a last-price bound exactly when the rule passes for it |
| `Bounds.FieldBoundIff` | backend/oneguard/engine/explain.py:525-538 | any purchase meets a rule's own field bound exactly when the rule passes for it |
| `Bounds.ShopTypeBoundIff` | backend/oneguard/engine/explain.py:541-555 | any purchase meets the shop-type bound exactly when the flag is not violated |
| `Bounds.RemovesOffenders` | backend/oneguard/engine/explain.py:502-512 | a removal names exactly the items of the lines its check objects to |
| `Bounds.ConditionsAre` | backend/oneguard/engine/explain.py:558-570 | which results ask for something to be in place first, and what |
| `Explain.ReleasedPasses` | backend/oneguard/engine/explain.py:566-567 | a period limit's failure is marked exactly when the limit passes once the reservations are released |
| `Explain.RemovalSound` | backend/oneguard/engine/explain.py:502-512 | dropping at least the lines a removal bound names makes its check pass |
| `Explain.JointlySound` | backend/oneguard/engine/explain.py:616-629 | dropping the merged items makes every failing removal check pass at once |
| `Explain.Merge` | backend/oneguard/engine/explain.py:601-613 | every other bound once, one removal entry with all items |
| `Explain.WouldApproveIf` | backend/oneguard/engine/explain.py:616-629 | the failing rules' bounds merged, else the declining protections' |
| `Passport.AlwaysAChain` | backend/oneguard/passport/book.py:118-178 | in every reachable state of any processes a passport's versions are 1..n, all but the last superseded, only the last revocable |
| `Passport.DueIff` | backend/oneguard/passport/book.py:118-178 | a version is due exactly for a mandate active or versioned before, whose last version is not revoked and says something else; it is the next one and states the mandate and its end |
| `Passport.IssuedStays` | backend/oneguard/passport/book.py:164-176 | an issued version is never rewritten or removed, and a revoked one is never followed |
| `Passport.SecondSyncIssuesNothing` | backend/oneguard/passport/book.py:160-161 | once a mandate was compared, whether or not a version was issued, no later comparison of it issues one |
| `Passport.PassportBook.SyncPassport` | backend/oneguard/passport/book.py:118-179 | issues the version due, or nothing |
| `Passport.PassportBook.SyncPassports` | backend/oneguard/passport/book.py:89-116 | each mandate's passport becomes what comparing it with its latest version gives, no other changes, as many versions are issued as were due, and none is due any more |
| `Passport.PassportBook.SyncTwice` | backend/oneguard/passport/book.py:89-116 | a second sweep over the same mandates, at any later time, issues nothing and changes nothing |
| `Passport.PassportBook.LatestOf` | backend/oneguard/passport/book.py:182-185 | the version read is the highest one |
| `Receipts.SignedAgainAtMostOnce` | backend/oneguard/passport/book.py:334-356 | of a receipt seen twice in a run, the later is the same or the earlier one answered with its signature kept |
| `Receipts.AtMostOneEarlier` | backend/oneguard/passport/book.py:334-356 | at most one earlier signature, of the same document without its answer, and none while it waits |
| `Receipts.InForce` | backend/oneguard/passport/book.py:253-259 | the last version issued by the decision's time, else the first |
| `Receipts.ReceiptBook.SyncReceipts` | backend/oneguard/passport/book.py:228-250 | a sweep only adds receipts and answers, counts what it adds, and below its limit leaves every decision with a receipt carrying its answer and the device noted for it, which is then forgotten |
| `Receipts.ReceiptBook.IssueOne` | backend/oneguard/passport/book.py:280-293 | a missing receipt is signed once, with the answer and its device if there is one, and the note is then forgotten |
| `Receipts.ReceiptBook.ResolveOne` | backend/oneguard/passport/book.py:334-356 | a waiting receipt takes the answer and keeps its earlier signature; any other is left alone |
| `Receipts.ReceiptBook.SignAnswer` | backend/oneguard/api/routes_customer.py:703-709 | a customer's answer is signed with the device that was noted for it, a timeout's with none; the note is then forgotten, and a receipt already answered is left alone |

## Left out

- Shop text and instructions: `engine/facts.py`'s extraction, the parser, tier 2 and tier 3 are inputs. What tier 2 answers is an arbitrary `Reading`, of which a policy gets what its unknown rules ask for; soft signals are an arbitrary list, for `Repeats.NoRepeats` one that relates no purchase to another.
- Item words and shop names come tokenised, stemmed and normalised; lower-casing is modelled for ASCII letters only.
- Floats: money is integer cents and rule numbers have two decimals, so `round(..., 2)` and the 1e-9 window comparison are exact. Decimal printing of numbers outside that form is not modelled.
- `_compare` of a number with a value that is not a number raises in the source; here the rule is not met.
- Wording: messages, evidence rows, labels, reason codes and counterfactual sentences. Markers the stages read from details (`RESERVATION_ONLY`, `CONFIRMED`, `NO_HISTORY`) are fields. The period sentence's "or less" is not claimed to be a bound.
- The bounds of declining protections (`signal_bound`) are an input of `Explain.WouldApproveIf`.
- Ledger operations `reserve`, `release` and `set_explanation`: the first two do not check that the entry is pending, so conservation does not hold across them; nothing in the engine calls them.
- Simultaneous decisions: purchases are delivered one at a time, within a run and across runs, so two are never decided on the same view. Concurrent recording of one purchase is in `Recording`.
- `_record` stores the decision, the flag and the mark in three commits; `Pipeline.Commit` takes them as one step.
- The Viseca worker and client, registration at the platform, `to_api_decision`, HTTP, authentication of devices, SQL sessions and locks: a table is a list or map with unique keys and atomic transactions.
- `accepted_flags`' loop over its four flags is written out as `Policies.AcceptedFlags`. `form_dry_run` and `usage`, which only count past purchases for display, are left out.
- Draft keys compare values, not their printed form, so a text that prints like a list is a different restriction here.
- Passports and receipts: bodies, canonical bytes, keys, signatures and the reason of a version are opaque texts; deleting or editing rows by hand is outside the model.
- Mandate rows keep only what their life needs; `policy_lineage` and the read queries are not modelled.
- Tier 2's answer for a fact on a line is taken not to depend on what else is asked. Which topics a rule's detail names by the words it quotes (shop names, item names, the customer's text) is an input, `Reading.quoted`.
