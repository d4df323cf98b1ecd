# PrintBuddy: a verified model of the print-credit backend

The project models the parts of the backend where something can go wrong with money, stock or
memory, and proves what those parts keep over every input and every run. To check it, use
`dafny verify dfyconfig.toml` with Dafny 4.11.

## How it is organised

**The ledger.** `Records` holds the tables as values (money in cents, stock in hundredths) and
`Operations` the net effect of each service call, as a transition from one database state to the
next. `Step`, `Apply` and `Run` turn these into a state machine over users, jobs, refund requests,
recharge requests, purchases, stock, expenses and settlements. Each concern has its own invariant
and its own theorem about every run:

- `Replay`: balances and recorded balances replay from the ledger.
- `CreditFloor`: no account falls below its credit limit, and exactly which calls could push it.
- `JobMoney`, `PurchaseMoney`, `RequestMoney`: money goes out once and comes back at most once.
- `Stock`: stock replays from its movements, and a printed job takes its paper once.
- `Settlement`: cash reconciliation between administrators and the house.
- `Dashboard`: the finance figures against the balances, and the page totals.
- `Lifecycles`: finished jobs and approved refund requests never change again.
- `Decisions`: purchases, recharge requests and refund requests are decided once.
- `Outstanding`: what an administrator owes is exactly recharges taken less expenses fronted, as settled.
- `Effects`: what calls undo, and the one refused call that leaves a trace.

`Outcomes` says of each call, in literal statuses, balances and rows, when it is given which answer and what
it then changes. The laws above are stated through definitions of the model, such as which statuses count
as errors or which rows are netted; `Outcomes` and `Outstanding` fix what those definitions mean.

**The code itself.** `Database` is the tables as mutable fields with the operations of `src/db/crud`;
`Services` and `Scheduler` take the service calls step by step (debit, submit, compensate; look up,
delete, create, credit; the loop over the jobs in transit). Each method is proved equal in state
and reply to the transition in `Operations`, so the theorems about runs hold of the code's steps.
`Interleaving` drops the assumption that a call is one step: it cuts the balance operations at
their commits and lets any number of them interleave, while accounts are opened; `RecordedBalances` says
when the balances written into the ledger still replay then.

**The algorithms.** `MarkerHistory` and `CupsManager` (toner-marker cache, retry counter),
`NewestFirstSort` and `ActivityLog` (bounded merge), `PageRangeSyntax` and `PageRange` (the regular
expression and the loop that counts pages), `Money`, `Charging` and `PrintRoute` (rounding, sheets, prices,
and the route from the request to the debit),
`Debounce` and `Alerts` (low-stock and toner alerts), `FreshName` (the file-name loop).

## What the model assumes

- A service call is one atomic step, except in `Interleaving` and `RecordedBalances`. The row
  locks do not span whole calls (`src/db/crud/user.py:283` commits before the status write), so exactly-once is claimed of
  calls that run one after the other only.
- Stored amounts are exact cents and floats are exact decimals; how far a stored sum may be off
  is the subject of `Money.EpsilonGuardIsExact`. `Decimal` and `math.ceil` are exact.
- The print server's answers, the clock, the identity of the caller and the presence of files and
  printers are parameters that may take any value.
- Rows of users, jobs, purchases and items are not deleted. Refund requests are.
- `JobMoney`, `Stock`, `PurchaseMoney`, `RequestMoney`, `Settlement` and `Lifecycles` put no condition on
  the steps of a run; each starts from its own invariant, which the empty database satisfies.
  `Replay` excludes a direct edit that changes a balance; `CreditFloor` and `Dashboard` add
  non-negative prices and recharges, and each says exactly what happens without them.

## Where the code and its description differ, or a law needs a condition

- A comment in `src/schemas/telegram.py:16-18` says the balance update guards the amount of a Telegram
  recharge. It does not: `/recharge` takes any sign and asks for no credit check. So a negative
  recharge can break the credit floor (`CreditFloor.NegativeRechargeBreaksFloor`) and the dashboard's sum:
  with non-negative prices and no balance edits, the sum holds exactly when no negative recharge was
  recorded (`Dashboard.RunReconcilesExactly`). The floor can also be broken by a negative
  price or a direct account edit; for every call, `CreditFloor.StepKeepsFloorExactly` says when it is.
- `update_user` writes a balance with no ledger row; a step replays exactly when it does not change a
  balance that way (`Replay.StepReplaysExactly`).
- `int` refuses numerals of more than 4300 digits, so `count_pages_in_range` raises on some strings
  the regular expression accepts. `PageRange.RaisesExactly` says which.
- A failed or empty toner lookup ends the debounce episode, so the next low reading can notify before its
  interval has passed (`Alerts.FailedLookupForgets`). A notice comes that early exactly when a check that
  was made between the two notices did not find a low marker (`Alerts.NextTonerNoticeExactly`).
- A recorded balance need not be the sum of the rows up to its own once calls interleave
  (`RecordedBalances.RecordedBalancesCanOvertake`). All of them are exactly when each row is recorded while
  its user's balance is off by just the other calls in flight (`RecordedBalances.RunReplaysExactly`).
  Recording each user's rows in the order of their UPDATEs, and taking back only that user's latest one,
  is enough (`RecordedBalances.OrderlyRunReplays`).
- Joining a group can raise the price of a printer whose default price is below every custom one
  (`Charging.JoiningRaisesExactly`).
- An uploaded name all of whose components are empty or a dot, such as "/", lands beside the user's
  directory (`FreshName.SlashLandsBeside`, `FreshName.LandsInDirectoryExactly`), and a name that ends in a
  dot changes suffix when it is numbered (`FreshName.SuffixKeptExactly`).
- `_decrement_paper_stock` describes its amount as the raw page count; `job.pages` already counts sheets
  times copies. Inactive paper items are taken from as well. The model follows the code.
- `override_refund` deletes a denied request before it looks the administrator up. The route has
  already authenticated an administrator whose row exists, so the deletion outlives a 404 only if that row
  is deleted between authentication and lookup, which the model's runs do not contain: there, a refused
  call changes nothing (`Effects.RefusedChangesNothing`). `Effects.RefusedChangesNothingExactly` says what
  a missing row would leave behind.

## Model

| member | source | states |
|---|---|---|
| Money.CentsIsHalfUp | src/core/utils.py:12-16 | rounding to cents is the one integer within half a cent of the value, ties going away from zero |
| Money.DebitThenCompensateCancels | src/core/print_assistant.py:84-119 | a debit and its compensation cancel, and the recorded amount is the applied delta |
| Money.EpsilonGuardIsExact | src/db/crud/user.py:262-270 | the comparison with -0.005 decides as exact cents against zero for every stored sum off by less than half a cent |
| Replay.RunReplays | src/db/crud/user.py:246-284 | every run without a direct balance edit keeps opening balances, and every recorded balance is the opening plus the rows up to its own |
| Replay.StepReplaysExactly | src/db/crud/user.py:179-213 | a step preserves all openings if and only if it is not a direct edit that changes a balance |
| Replay.BalanceIsSumOfRows | src/core/ledger_service.py:22-95 | from accounts that open at zero, a balance is the sum of its user's rows after every such run |
| CreditFloor.StepKeepsFloorExactly | src/db/crud/user.py:260-275 | a step leaves every account within its credit limit if and only if its unguarded change, if any, is covered |
| CreditFloor.RunKeepsFloor | src/db/crud/user.py:260-275 | every run without negative prices or recharges and without account edits keeps every account within its limit |
| CreditFloor.NegativeRechargeBreaksFloor | src/schemas/telegram.py:13-19 | a concrete negative recharge leaves an account below its limit |
| JobMoney.RunRefundsOnce | src/api/routes/refund.py:155-268 | over every run a job's rows sum to minus its cost, or to zero exactly if it ended in an error status or has an approved request, and at most one row is a refund |
| JobMoney.FailedPollRefunds | src/core/scheduler.py:164-199 | a job polled into an error status is terminal and its user is paid back in the same poll |
| Outcomes.PollOutcome | src/db/models/printerjob.py:20-30 | of the seven states, exactly CANCELLED and ABORTED credit a polled job's cost, with one refund row; the other five move no balance and write no row |
| Outcomes.PollIgnores | src/core/scheduler.py:158-168 | finished jobs are not polled, and an answer that says nothing new changes nothing |
| Outcomes.DemandOutcome | src/api/routes/refund.py:67-107 | an owner's demand for a completed job succeeds if and only if there is no request or a denied one, and then leaves one pending request |
| Outcomes.RefundDecisionOutcome | src/api/routes/refund.py:160-209 | a decision is carried out only on a pending request, leaves it approved or denied as decided, and credits the cost only on approval |
| Outcomes.OverrideOutcome | src/api/routes/refund.py:217-268 | an override succeeds if and only if the job is completed and has no live request, and leaves one approved request that names the administrator |
| Decisions.RefundDecidedOnce | src/api/routes/refund.py:160-268 | every run decides a refund request at most once, be it approved, denied or made by an override |
| PurchaseMoney.RunKeepsPurchases | src/core/product_purchase_service.py:43-131 | over every run a purchase's rows sum to minus its total until rejected and then to zero, and a resolved purchase never changes |
| Decisions.PurchaseDecidedOnce | src/core/product_purchase_service.py:82-131 | every run carries out at most one decision of a purchase, exactly one if it leaves PENDING, and takes its stock at most once and only if it ends fulfilled |
| Outcomes.BuyOutcome | src/core/product_purchase_service.py:43-80 | when a purchase is refused and with what, and that it costs price times quantity |
| Outcomes.PurchaseDecisionOutcome | src/core/product_purchase_service.py:82-131 | a decision is carried out only on a pending purchase and leaves it fulfilled or rejected as decided; only rejection pays back |
| PurchaseMoney.RunMovesSales | src/core/product_purchase_service.py:102-111 | over every run the sale movements of a product sum to minus the quantities fulfilled while it was linked to an item |
| PurchaseMoney.DecisionMovesStock | src/core/product_purchase_service.py:102-111 | a decision moves the linked item's stock by exactly the quantity if it fulfils a pending purchase, and moves nothing otherwise |
| RequestMoney.RunKeepsRequests | src/core/recharge_request_service.py:28-63 | over every run a request is approved exactly when one recharge row of its rounded amount refers to it, and resolved requests never change |
| Decisions.RequestDecidedOnce | src/core/recharge_request_service.py:28-63 | every run carries out at most one decision of a recharge request, approval or rejection |
| Outcomes.RechargeDecisionOutcome | src/core/recharge_request_service.py:28-63 | a decision is carried out only on a pending request and leaves it approved or rejected as decided; only approval credits |
| Outcomes.RechargeRequestOutcome | src/schemas/recharge_request.py:25-29 | a request is made if and only if its amount is positive and its user exists |
| Stock.RunReplaysStock | src/db/crud/inventory.py:100-142 | over every run an item's stock is its initial stock plus its movements, and a job has at most one movement, for all its pages, only if completed |
| Stock.CompletionTakesPaper | src/core/scheduler.py:136-174 | a poll into COMPLETED takes the job's pages from exactly one paper item, tied to its printer if there is such, else shared, and from nothing if there is neither |
| Settlement.RunConserves | src/db/crud/collection_event.py:66-136 | over every run, for each administrator, netted rows equal outstanding plus collected minus paid back; each event's amount is the absolute sum of its own rows; rows only ever gain their one event |
| Outstanding.StepOwesExactly | src/db/crud/collection_event.py:14-51 | a recharge taken adds its amount to what its taker owes, an expense takes its amount off what its payer owes, a settlement clears it, and no other call moves it |
| Outstanding.RunOwesExactly | src/db/crud/collection_event.py:19-136 | over every run an administrator's net is the sum of just those changes |
| Outstanding.RechargeIsCollected | src/db/crud/collection_event.py:95-115 | taken on an even account, a recharge is collected in full and in one event |
| Settlement.StepOnlyGainsEvents | src/migrations/versions/c6d7e8f9a0b1_admin_cash_reconciliation.py:54-71 | every call keeps every ledger row as it is, except that an unsettled row may gain its event |
| Settlement.ListedIffNonzero | src/db/crud/collection_event.py:19-38 | an administrator is listed if and only if the unsettled rows do not sum to zero |
| Settlement.ListAndActionsAgree | src/db/crud/collection_event.py:95-136 | for each administrator exactly one of: listed positive and only collecting succeeds, listed negative and only paying succeeds, unlisted and both refuse unchanged |
| Settlement.SettlingClears | src/db/crud/collection_event.py:66-93 | after a successful collection or payment the administrator is no longer listed |
| Settlement.RunMirrorsExpenses | src/db/crud/expense.py:11-56 | over every run each expense has rows summing to minus its absolute amount, netted against its payer and never against a user's balance |
| Dashboard.GapIsMisfit | src/api/routes/stats.py:216-250 | whatever the ledger holds, the distance of the balances from what the finance figures imply |
| Dashboard.RunReconcilesExactly | src/api/routes/stats.py:216-250 | from an empty database with non-negative prices, balances equal the figures' sum if and only if no negative recharge was recorded |
| Dashboard.RunReconciles | src/api/routes/stats.py:216-250 | so they are equal after every run whose recharges are not negative |
| Dashboard.PageTotalsAgree | src/api/routes/stats.py:156-214 | for any result of the two GROUP BY queries, the rows per printer and the rows per user sum to the same total in every column |
| Dashboard.ColorsMakeUpPages | src/api/routes/stats.py:33-38 | black-and-white and colour pages make up the pages of every group and of the whole |
| Dashboard.JobCounts | src/api/routes/stats.py:156-205 | a completed job counts towards its own printer's and user's rows only, other jobs nowhere |
| Dashboard.RowCounts | src/api/routes/stats.py:220-245 | each ledger row moves only the figure of its kind: positive part, magnitude or raw amount |
| Lifecycles.RunSettles | src/api/routes/refund.py:67-268 | over every run finished jobs stay as they are, jobs change only their state, approved requests are neither changed nor deleted, and request numbers are not reused |
| Effects.RefusedChangesNothing | src/api/routes/refund.py:217-268 | in every reachable state and for administrators whose rows exist, a refused call of any kind changes nothing |
| Effects.RefusedChangesNothingExactly | src/api/routes/refund.py:251-268 | with rows missing, a refused call changes the database if and only if it is an override that got past the job checks, deleted a denied request or drew a number, and then failed |
| Effects.PrintIsUndone | src/core/scheduler.py:164-199 | printing and then ending in an error status, or completing and being overridden, gives every balance back |
| Effects.BuyThenRejectRestores | src/core/product_purchase_service.py:82-131 | buying and being rejected gives every balance back and moves no stock |
| Effects.AdjustmentReachesTarget | src/core/ledger_service.py:59-95 | an adjustment succeeds if and only if the rounded target is within the limit, then leaves exactly that balance, and adjusting back undoes it |
| Outcomes.PrintOutcome | src/core/print_assistant.py:73-148 | when a job is refused and with what, and that a sent job holds the printer, pages, colour and cost asked for |
| Outcomes.PrintThenCompleteTakesPages | src/core/scheduler.py:127-174 | a job that is sent and completes takes exactly the pages asked for, from its printer's paper before shared paper |
| Outcomes.ReprintOutcome | src/core/print_assistant.py:150-231 | when a reprint is refused and with what, and that it copies the original at no cost |
| Outcomes.RechargeOutcome | src/core/ledger_service.py:22-57 | when a recharge is refused and with what, and the balance and row it leaves |
| Outcomes.AdjustmentOutcome | src/core/ledger_service.py:59-95 | the same for an adjustment, also with a balance read beforehand |
| Outcomes.AccountOutcome | src/db/crud/user.py:179-213 | an edit writes just the fields given, rounded, of just one account |
| Outcomes.ItemOutcome | src/db/crud/inventory.py:59-142 | an edit never touches stock, and a movement touches nothing else |
| Outcomes.NewItemOutcome | src/db/crud/inventory.py:19-43 | a new item opens active, with its rounded stock and threshold |
| Outcomes.ExpenseOutcome | src/db/crud/expense.py:24-56 | an expense is kept as entered and mirrored as money out, charged to the payer or else the recorder |
| Effects.RechargesAdd | src/core/ledger_service.py:22-57 | two recharges differ from one of their sum by at most a cent |
| Interleaving.NothingIsLost | src/db/crud/user.py:260-284 | under every interleaving of commits, with accounts opened on the way, a balance is its opening plus recorded rows plus deltas in flight |
| Interleaving.QuiescentReplays | src/core/print_assistant.py:84-146 | once nothing is in flight the ledger explains every balance |
| Interleaving.FloorHoldsThroughout | src/db/crud/user.py:268-272 | under every interleaving no balance falls below its credit limit, not even between the commits of a call |
| Interleaving.AloneIsAllOrNothing | src/core/print_assistant.py:84-146 | a call that runs alone has its whole effect or none, including the compensated one |
| Interleaving.AloneIsPrint | src/core/print_assistant.py:73-148 | an uninterrupted print job leaves the balances and rows of the atomic transition |
| Interleaving.AloneIsRecharge | src/core/ledger_service.py:22-57 | the same for a recharge |
| Interleaving.AloneIsAdjustment | src/core/ledger_service.py:59-95 | the same for an adjustment that reads the balance itself |
| Interleaving.AloneIsRefund | src/api/routes/refund.py:34-57 | the same for the credit of a refund |
| Interleaving.AloneIsPurchase | src/core/product_purchase_service.py:43-80 | the same for a purchase |
| RecordedBalances.RunReplaysExactly | src/db/crud/user.py:283-284 | under every interleaving all recorded balances replay if and only if every row is recorded while its user's balance is off by just the other calls in flight |
| RecordedBalances.OrderlyRunReplays | src/core/print_assistant.py:84-146 | they do whenever each user's rows are recorded in the order of their updates and only a user's latest update is taken back |
| RecordedBalances.OrderlyRunReplaysFromScratch | src/core/print_assistant.py:84-146 | in particular from any accounts with an empty ledger and nothing in flight |
| RecordedBalances.RecordedBalancesCanOvertake | src/db/crud/user.py:283-284 | a concrete interleaving whose recorded balance is not the sum of the rows up to it |
| Database.Database.AdjustBalance | src/db/crud/user.py:246-284 | the guarded update changes one balance by the rounded delta, or nothing, and says why |
| Database.Database.UpdateUser | src/db/crud/user.py:179-213 | overwrites a balance or a limit and writes no row |
| Database.Database.CreateExpense | src/db/crud/expense.py:11-56 | the two inserts are the transition that charges the payer |
| Database.Database.LockedUnsettledRows | src/db/crud/collection_event.py:53-64 | exactly the unsettled rows of the administrator, whose amounts sum to the outstanding net |
| Database.Database.SettleRows | src/db/crud/collection_event.py:66-93 | the event and the row-by-row tagging are the transition that settles |
| Database.Database.CollectFromAdmin | src/db/crud/collection_event.py:95-115 | gathers, sums and settles as the transition does, refusing when the net is not positive |
| Database.Database.PayAdminFromHouse | src/db/crud/collection_event.py:117-136 | the mirror image for a negative net |
| Database.Database.RecordMovement | src/db/crud/inventory.py:100-142 | stock and movement row change together, or neither when the item is missing |
| Database.Database.UpdateItem | src/db/crud/inventory.py:59-94 | sets only the fields given, and never the stock |
| Database.Database.GetRefundByJobId | src/db/crud/refund_request.py:65-71 | finds a request of the job if and only if there is one |
| Database.Database.GetTransitoryStatusJobs | src/db/crud/printjob.py:77-88 | exactly the jobs in transit, each once |
| Services.RecordRecharge | src/core/ledger_service.py:22-57 | the update followed by the row is the recharge transition, with the same reply |
| Services.RecordAdjustment | src/core/ledger_service.py:59-95 | the balance is brought to the rounded target from the balance read, guarded, and recorded |
| Services.ResolveRechargeRequest | src/core/recharge_request_service.py:28-63 | the steps are the decision transition, with the same reply on every path |
| Services.SendPrintJob | src/core/print_assistant.py:73-148 | debit, submit, then record or compensate, is the print transition: a refused submission leaves no trace |
| Services.SendFreeReprint | src/core/print_assistant.py:150-231 | the reprint transition, which charges nothing and records who authorised it |
| Services.CreditRefund | src/api/routes/refund.py:34-57 | the update followed by the row credits the job's cost to its user, or does nothing if there is none |
| Services.ReachableHasOneRequestPerJob | src/db/crud/refund_request.py:65-71 | every run keeps at most one request per job, which is all that the refund calls below assume of the database |
| Services.RequestRefund | src/api/routes/refund.py:67-107 | the route is the request transition, including the deletion of a denied request |
| Services.ResolveRefund | src/api/routes/refund.py:160-209 | credit before status is the decision transition |
| Services.OverrideRefund | src/api/routes/refund.py:217-268 | delete, create, credit and, if the credit fails, delete again, is the override transition |
| Services.CreatePurchase | src/core/product_purchase_service.py:43-80 | the steps are the purchase transition, with the same reply on every path |
| Services.ResolvePurchase | src/core/product_purchase_service.py:82-131 | the steps are the decision transition, with the same reply on every path |
| Scheduler.ByNameFindsFirst | src/db/crud/inventory.py:45-49 | in the name-ordered list the first matching paper item is the reference definition's least one |
| Scheduler.DecrementPaperStock | src/core/scheduler.py:127-154 | the two searches and the movement are the transition that takes paper |
| Scheduler.UpdateJobs | src/core/scheduler.py:156-200 | the loop over the jobs in transit is a pass: each polled in turn until a state number raises, which it reports |
| Scheduler.PassIsRun | src/core/scheduler.py:156-200 | every pass, whatever the print server answers, is a run of poll steps |
| Scheduler.PollsAreAnswers | src/core/scheduler.py:164-168 | the polls of a pass are those of the listed jobs in turn, each with the answer the retry counters of the moment give, up to the first lookup that raises |
| Scheduler.ErrorIsRefunded | src/core/scheduler.py:164-199 | a job that a pass polls into an error status, for whatever reason, ends the pass in it with rows summing to zero and exactly one refund |
| Scheduler.StateNumberDecides | src/core/cups_manager.py:99-107 | a job that a pass reaches with a state number ends in that state; numbers 7 and 8, and no others, pay it back in the pass |
| Scheduler.ExhaustedIsRefunded | src/core/scheduler.py:164-199 | so does a job that the pass reaches with its retries used up and whose lookup fails |
| CupsManager.CupsManager.GetJobStatus | src/core/cups_manager.py:298-320 | one lookup's answer and its effect on the counters |
| CupsManager.EveryFourthFailureAborts | src/core/cups_manager.py:305-316 | over every run of lookups, failures of a job are four times the reported aborts plus its counter, which is at most three |
| CupsManager.SuccessKeepsCounter | src/core/cups_manager.py:318-320 | a lookup that gets through leaves every counter as it was |
| MarkerHistory.CacheRefinesHistory | src/core/cups_manager.py:171-215 | after any polls the cached positions are those below the longest poll, each holding its latest valid or else first reading |
| MarkerHistory.ShownIsReported | src/core/cups_manager.py:198-206 | what a merge shows from the cache is the latest valid reading of the whole history, or the raw one if there is none |
| MarkerHistory.OnlyMinusOneIsReplaced | src/core/cups_manager.py:185-206 | any level but -1, zero included, is shown and remembered as it is; -1 stays exactly if no earlier poll read anything else |
| MarkerHistory.LatestValidIs | src/core/cups_manager.py:198-206 | the reading shown instead is that of the last poll with a level other than -1 |
| MarkerHistory.FirstReadingIs | src/core/cups_manager.py:187-189 | a position never read is remembered by the first poll that covers it |
| CupsManager.CupsManager.MergeWithCache | src/core/cups_manager.py:171-215 | the loops keep cache and history in agreement and return, for the longest poll's length, the reported covered and the remembered absent markers |
| CupsManager.MarkerCache.SetMany | src/core/cups_manager.py:56-70 | upserts pair by pair and leaves other printers' rows alone |
| CupsManager.MarkerCache.DeleteAll | src/core/cups_manager.py:72-79 | starts the printer's history afresh and leaves other printers' rows alone |
| NewestFirstSort.SortIsStable | src/api/routes/settings.py:429 | the sort is newest first and keeps ties in order |
| NewestFirstSort.StableSortIsUnique | src/api/routes/settings.py:429 | only one list is a stable newest-first sort of the input |
| ActivityLog.TopOfTopsIsTop | src/api/routes/settings.py:345-349 | the top entries of three sources suffice for the top entries of all three merged |
| ActivityLog.PageIsExact | src/api/routes/settings.py:345-430 | the page cut from the capped merge is the page cut from everything, for every offset and limit, ties included |
| ActivityLog.PagesAreListing | src/api/routes/settings.py:430 | consecutive pages are the listing itself: nothing is skipped or shown twice |
| ActivityLog.TransactionsListed | src/api/routes/settings.py:351-379 | recharges and adjustments with a note are shown, each with its own action |
| ActivityLog.RefundsListed | src/api/routes/settings.py:381-402 | approved and denied requests are shown, each with its own action, pending ones not |
| ActivityLog.PurchasesListed | src/api/routes/settings.py:404-426 | fulfilled and rejected purchases are shown, each with its own action, pending ones not |
| ActivityLog.GetActivityLog | src/api/routes/settings.py:336-430 | the three capped queries, sort and slice return the entries of the full listing from the offset on, limit of them or as many as there are |
| PageRangeSyntax.RegexIsParts | src/core/utils.py:19-23 | the regular expression accepts exactly the strings whose comma-separated, stripped parts are all pages or ranges |
| PageRange.CountPagesInRange | src/core/utils.py:25-49 | the loop with its growing set returns the specified count or raises where the specification does |
| PageRange.CountIsUnion | src/core/utils.py:25-49 | when no numeral is too long the result is the size of the union if all intervals are ordered and within bounds, and otherwise zero |
| PageRange.RaisesExactly | src/core/utils.py:32-47 | it raises if and only if an over-long numeral is reached before a part that ends the loop |
| PageRange.LongNumeralRaises | src/core/utils.py:32-47 | a concrete accepted string, one over-long numeral, on which it raises |
| PageRange.CountIsBounded | src/core/utils.py:38-46 | the count never exceeds the document's pages |
| PageRange.WriteThenCount | src/core/utils.py:19-49 | any pages and spans written with any spaces around commas are accepted and count their union |
| PageRange.WriteThenCountPages | src/core/utils.py:25-49 | the same page by page: all parts from one on, ordered and within the document, or else 0 |
| PageRange.OthersCountNothing | src/core/utils.py:26-28 | any string that the expression does not accept counts no pages |
| Charging.SheetsIsLeast | src/api/routes/print.py:108-110 | a number of sheets has room for the pages if and only if it is at least the computed one |
| Charging.CostIsNear | src/api/routes/print.py:110-111 | the cost is within half a cent of sheets times copies times price |
| Charging.CostIsMonotone | src/api/routes/print.py:108-111 | monotone in pages, copies and price, antitone in pages per sheet |
| Charging.EffectivePriceIsLeast | src/db/crud/group.py:206-238 | the custom price is the least that any applicable permit offers |
| Charging.OrderDoesNotMatter | src/db/crud/group.py:221-238 | the order and repetition of permits do not matter |
| Charging.JoiningNeverRaisesCustom | src/db/crud/group.py:206-238 | joining groups never loses or raises a custom price |
| Charging.JoiningRaisesExactly | src/api/routes/print.py:80-96 | joining raises the price paid if and only if there was no custom price and all new ones exceed the printer's own |
| Charging.PartCostsNoMoreThanWhole | src/api/routes/print.py:80-123 | choosing pages never costs more than the whole file |
| Charging.RouteChargesExactly | src/api/routes/print.py:80-123 | the quoted pages are copies times the least sheets for the pages asked, and the cost is that times the least offer or default price, to the nearest cent |
| Charging.RouteRefusesExactly | src/api/routes/print.py:57-106 | when the route refuses for access, colour or page range, and when it raises |
| PrintRoute.RequestDebitsExactly | src/api/routes/print.py:108-130 | a request that is carried out takes exactly that cost off the balance and queues a job of exactly those pages |
| Charging.AccessiblePrinters | src/db/crud/group.py:175-204 | exactly the active printers that are open to all or permitted, each once |
| Charging.ListedIffAdmitted | src/db/crud/group.py:175-204 | an active printer is listed to a user if and only if the print route's access check passes |
| Debounce.FirstOfEpisodeNotifies | src/core/scheduler.py:307-323 | the first low check of every episode notifies |
| Debounce.NotifiesAgainExactly | src/core/scheduler.py:312-323 | a later low check of the episode notifies if and only if the interval has passed since the latest notice |
| Debounce.NoticeHasCause | src/core/scheduler.py:307-323 | every notice starts an episode or follows an earlier notice of it |
| Debounce.NoticesAreSpaced | src/core/scheduler.py:289-340 | any two notices of one episode are at least the later check's interval apart |
| Debounce.FirstDueCheckNotifies | src/core/scheduler.py:289-340 | the first check at or past the interval notifies again and none before it does |
| Debounce.NextNoticeExactly | src/core/scheduler.py:304-323 | after a notice the next one is due at a low check if and only if the key was found fine in between or the interval has passed |
| Debounce.RecoveryResets | src/core/scheduler.py:293-294 | a check that finds the key fine ends the episode |
| Debounce.RememberedWhileLow | src/core/scheduler.py:304-334 | something is remembered of a key if and only if its episode is open |
| Alerts.AlertState.CheckLowStock | src/core/scheduler.py:289-340 | the loop leaves the next debounce state and alerts exactly the due items, each once |
| Alerts.AlertState.CheckTonerAlerts | src/core/scheduler.py:202-267 | the loop leaves the next debounce state and alerts exactly the due printers with their low markers |
| Alerts.StockNoticesAreADayApart | src/core/scheduler.py:38-39 | two low-stock notices are a day apart unless a check in between found enough |
| Alerts.TonerNoticesAreSpaced | src/core/scheduler.py:202-267 | two toner notices are the configured interval, and at least an hour, apart if every check in between was answered with a low marker |
| Alerts.NextTonerNoticeExactly | src/core/scheduler.py:202-267 | over every run, after a toner notice a low check notifies if and only if a check made in between did not find a low marker, or the configured hours have passed |
| Alerts.FailedLookupForgets | src/core/scheduler.py:228-231 | a concrete failed lookup makes the second notice come within an hour |
| Alerts.EpisodeStaysOpenExactly | src/core/scheduler.py:227-240 | a toner check keeps an episode open if and only if it is skipped or the lookup shows a low marker |
| Alerts.StockAlertExactly | src/db/crud/inventory.py:96-98 | a check alerts about exactly the items at or below their threshold, equality included, not notified within a day |
| Alerts.TonerAlertExactly | src/core/scheduler.py:227-260 | a check alerts about exactly the printers with a known level below its low level, not notified within the configured hours |
| FreshName.BaseNameHasNoDirectory | src/core/file_manager.py:34-37 | the kept name holds no directory component |
| FreshName.LastComponentIsKept | src/core/file_manager.py:34-37 | the kept name is the last component, whatever stands before it |
| FreshName.EmptyTailIsIgnored | src/core/file_manager.py:34-37 | slashes and dots after it do not count |
| FreshName.PlainNameIsKept | src/core/file_manager.py:34-37 | a name without a slash, other than a dot, is kept as it is |
| FreshName.CandidatesDiffer | src/core/file_manager.py:41-46 | the names tried are all different, which is why the loop ends |
| FreshName.NumberedName | src/core/file_manager.py:43-45 | the mark goes before the extension, or at the end of a name without one |
| FreshName.GenerateFilePath | src/core/file_manager.py:27-48 | returns the first candidate that does not exist, and the upload's file name is that path's name |
| FreshName.NoBaseNameExactly | src/core/file_manager.py:34-37 | an uploaded name has no base name if and only if every component of it is empty or a dot |
| FreshName.LandsInDirectoryExactly | src/core/file_manager.py:30-46 | the path lies directly in the directory unless every component of the uploaded name is empty or a dot, and then beside it |
| FreshName.SlashLandsBeside | src/core/file_manager.py:34-39 | an upload named "/" lands beside the directory |
| FreshName.SuffixKeptExactly | src/core/file_manager.py:44-45 | numbering keeps the suffix if and only if the name does not end in a dot after its first character |

## Left out

- Exactly-once of refunds and settlements under interleaved commits: the row locks do not span whole calls.
- Row deletion and cascades (users, printers, products), user and group administration, authentication, mail and Telegram transport.
- Notes, messages, user names and the administrator's name parsed out of a note: text that decides nothing modelled here.
- Time stamps of ledger rows, and the date windows of the statistics: the dashboard is taken over an unbounded window.
- `total_sheets` and the personal `total_spent`: the first relies on integer division that the query does not perform, the second mixes refunds of unlike kinds and is no net figure.
- The ordering of the per-printer and per-user lists by page count: it changes no total.
- The database's order among rows with equal sort keys: sources of the activity log and the paper items come in one given order of ties.
- The branch for an unreadable time stamp in the alert state: the state holds only time stamps that the same check wrote.
- Marker names kept beside each toner notice: nothing reads them back.
- The parsing of print-server attributes into markers, and the conversion of non-integer levels: a poll is given as its list of markers.
- Operating-system limits on the length of file names, and removal of files while a name is being chosen.
