# Verified model of billing, dunning, support clocks and rate limiting

This project models the parts of a Go back office for an internet provider in which one decision
feeds the next, and proves what they keep over whole runs:

- the **billing scheduler tick**: recurring invoices, late fees, suspend and restore, and
  auto-termination, run in order over one shared store (`BillingTick`, `BillingService`,
  `BillingFixpoint`, `BillingRuns`, `LateFees`, `BillingCycles`), on month-end-clamped Gregorian periods (`Calendar`);
- the two **rate limiters**: a token bucket whose janitor forgets idle clients (`TokenBucket`) and a
  sliding-window log that deletes as it goes (`WindowLog`);
- the **ticket** state machine with its pause accumulator and SLA clock (`Tickets`), and the **breach
  sweep** interleaved with it (`SlaSweep`);
- the **dunning ladders**: suspension with restore (`Suspension`), reminders (`Reminder`), and both jobs together (`Dunning`);
- **money**: rounding, invoice totals, payment until covered, the five-party commission, and the
  hand-written number printers (`Money`, `Invoices`, `Commission`, `Printers`);
- the batched **vendor metrics** (`VendorMetrics`).

What the program updates in place is a class whose methods are proved equal to a specification
function on the state before; the properties of whole runs are lemmas about those functions.
Instants are integer nanoseconds since 0000-01-01T00:00:00Z (real seconds in `TokenBucket`, which
covers every nanosecond), amounts and tokens are exact reals, repositories are maps and sequences.
What a listing returns, the database clock that stamps a suspension, the policy in force for a
customer, and which rows a tick locks are parameters, so the results hold for every choice of them.

## What the proofs show about the program

Where the code and its own comments disagree, the model follows the code.

- **Late fees repeat with the shipped repository.** The fee lookup reads line items from a listing
  (`internal/billing/usecase/r2.go:454-456`), but the Postgres listing never loads them
  (`internal/billing/adapter/postgres/invoice_repo.go:138-215`). A late invoice is charged once in every
  history if and only if items are listed or no customer's fee can be charged at all (`LateFees.OneFeeIff`);
  without them each tick charges it one more fee (`LateFees.ChargedEveryTick`), and ticks at one instant do not
  come to rest while one is outstanding (`BillingFixpoint.ComesToRestIff`). The model takes this as the flag `Config.linesListed`.
- **Two billing days for one customer overlap.** The duplicate guard is per customer and period start, while
  the period depends on the order: recorded periods are disjoint exactly when all orders of each customer
  share a billing day (`BillingCycles.DisjointIff`).
- **Two orders on one billing day bill only the first.** The same guard leaves every later order of the customer
  without a cycle or an invoice; each order is billed exactly when no two share a period (`BillingCycles.EveryOrderBilledIff`).
- **Partial commission schemas in fractions are read as percentages**, because one default alone exceeds the
  threshold that tells the two shapes apart: the shapes agree only for complete schemas (`Commission.ShapesAgreeIff`).
- **The reminder look-ahead** is said to skip only what cannot fire yet; that is so exactly under the
  condition of `Reminder.SkipLosesNothingIff`.
- **The hour of the due-day reminder** is documented as a guard and never read by the evaluator: reminders keep
  to an hour if and only if it is the first of the day (`Reminder.DueTodayHourIff`).
- **A supervisor-gated hard suspension is logged without suspending**: the only escalation that breaks the
  agreement of log and state (`Suspension.EscalateProjectsIff`).
- **The sliding window** is documented as refusing when the count exceeds the limit, and as recording every
  call; the code refuses at the limit and does not record refused calls, and the bound is proved for that.
- **The tick report counts orders, not customers, as suspended**: the count is that of the customers if and only
  if none of them has two of the orders (`BillingService.SuspensionsCountIff`, with a store in
  `BillingService.CountedTwice`).

## Model

| member | source | states |
|---|---|---|
| Calendar.YearsAbut | internal/billing/usecase/r2.go:199-211 | Counting month by month (section 5.7 of RFC 3339) and the closed form that counts leap years (Appendix C) give the same day for 1 January of every year, before year 0 too. |
| Calendar.DateRoundTrip | internal/billing/usecase/r2.go:199-211 | Splitting a day into month and day of month and putting it together again gives the day back, and the other way round for days in range; adding days alone is plain addition. |
| Calendar.AnchorClamps | internal/billing/usecase/r2.go:199-211 | The anchor of any month, whatever the wanted day, is that day moved into 1..length of the month, and never leaves the month. |
| Calendar.PeriodSpansAnchors | internal/billing/usecase/r2.go:161-195 | Every period runs from one anchor to the next and holds `now`: start <= now < end + 24h, also for orders with no activation date. |
| Calendar.PeriodsTile | internal/billing/usecase/r2.go:161-195 | The periods of any two instants with one anchor day are equal or do not overlap, even when the day comes from different sources. |
| Calendar.PeriodStable | internal/billing/usecase/r2.go:161-195 | Two instants yield the same period if and only if the one lies in the period of the other. |
| Calendar.NextPeriodAbuts | internal/billing/usecase/r2.go:175-195 | The period of the instant one period ends starts exactly then. |
| Calendar.PeriodLength | internal/billing/usecase/r2.go:175-195 | Every period lasts 28 to 31 days, through clamping, year ends and leap years. |
| BillingService.Service.TickRecurring | internal/billing/usecase/r2.go:213-313 | The loop's new store is that of the recurring pass over the active orders; the report counts exactly the generated rows added and the orders not yet activated. |
| BillingService.Service.TickLateFees | internal/billing/usecase/r2.go:324-391 | The loop's new store is that of the fee pass over the issued invoices listed before it; the report counts exactly the invoices minted. |
| BillingService.Service.TickSuspendRestore | internal/billing/usecase/r2.go:470-557 | Suspends, then restores from the store that leaves; the report counts exactly the orders whose customer had to be suspended and the customers restored. |
| BillingService.SuspensionsCountIff | internal/billing/usecase/r2.go:470-515 | The suspensions reported are at least the customers to suspend, and as many exactly when no such customer has two of the active orders. |
| BillingService.CountedTwice | internal/billing/usecase/r2.go:470-515 | For any policies and customer, a store with two orders in which one customer is reported as two suspensions. |
| BillingService.Service.RunAutoTermination | internal/billing/usecase/r3.go:272-356 | Opens requests for the suspended customers listed; the report counts exactly the requests opened. |
| BillingService.Service.RunBillingTick | internal/billing/usecase/r2.go:114-150 | The four passes in order over one store; all six figures of the report are those of what changed, or was passed over. |
| BillingFixpoint.RecurringEffect | internal/billing/usecase/r2.go:213-313 | After the pass every activated order listed has its period on record, generated or failed; nothing else changes, and nothing at all if that held before. |
| BillingFixpoint.FeeEffect | internal/billing/usecase/r2.go:324-464 | After the pass every late invoice has its fee on record unless the lookup cannot find it or the database refuses it; fees minted are not yet due; nothing changes if all fees were there, and something does if a fee cannot be found. |
| BillingFixpoint.SuspendOne | internal/billing/usecase/r2.go:470-515 | What the suspend pass does to one customer: suspended only with an invoice past the cut-off, never left active with one, never made active. |
| BillingFixpoint.RestoreOne | internal/billing/usecase/r2.go:515-557 | What the restore pass does to one customer: made active only with nothing past due, left suspended only with something past due. |
| BillingFixpoint.QuietIsFixed | internal/billing/usecase/r2.go:114-150 | If cycles, fees, suspensions, restores and terminations are all settled, the whole tick changes nothing. |
| BillingFixpoint.SecondTickIff | internal/billing/usecase/r2.go:114-557 | At one instant the second tick changes nothing if and only if the first left every active order billed and no late invoice whose fee cannot be found; no assumption on the listing. |
| BillingFixpoint.SecondTickChangesNothing | internal/billing/usecase/r2.go:114-557 | After a first tick that restored nobody, the second changes nothing if and only if no chargeable late invoice whose fee cannot be found is left by the first recurring pass; with items listed, if and only if none was outstanding at the start. |
| BillingFixpoint.SecondRestoresNobody | internal/billing/usecase/r2.go:515-557 | Once the restores are settled the next tick restores nobody, although its own passes run first. |
| BillingFixpoint.ThirdTickChangesNothingIff | internal/billing/usecase/r2.go:114-557 | At one instant the third tick changes nothing if and only if no issued late invoice is left whose fee the lookup cannot find; for every starting store and all database clocks. |
| BillingFixpoint.ComesToRestIff | internal/billing/usecase/r2.go:440-464 | The third tick changes nothing if and only if the second recurring pass leaves no chargeable late invoice whose fee cannot be found; with items listed this is decided by the first store alone, and such an invoice in the first store always keeps the ticks going. |
| BillingFixpoint.LeakGrows | internal/billing/adapter/postgres/invoice_repo.go:138-215 | The next tick mints another fee, with its number and order, for every late issued invoice whose fee cannot be found, and the store can be charged again afterwards. |
| BillingFixpoint.LeakNeverSettles | internal/billing/adapter/postgres/invoice_repo.go:138-215 | From such a store every further tick at that instant mints at least one invoice, without end. |
| BillingRuns.EveryMintedInvoice | internal/billing/usecase/r2.go:239-391 | Each invoice a tick adds either bills an activated order of its customer for the plan and all add-ons, once each, due the net terms (7 days by default) after the period started, or charges its fee for an issued invoice of the store with due + grace days < now, due seven days on; it is worth that to the cent, with tax at 11 percent, and issued. |
| BillingRuns.WithinGraceNoFee | internal/billing/usecase/r2.go:342-345 | While every issued invoice of an order and number satisfies due + grace days >= now, no invoice a tick adds names a fee for it. |
| BillingRuns.PastGraceCharged | internal/billing/usecase/r2.go:342-391 | With items listed, an issued numbered invoice of an order with due + grace days < now and a chargeable fee has its fee on record after the tick. |
| BillingRuns.CustomerAfterTick | internal/billing/usecase/r2.go:470-557 | What a tick does to each customer, exactly: suspended and stamped if active, with an order and an issued invoice overdue by more than the policy's days; active again, without a stamp, if then suspended, on the roster and with nothing overdue; unchanged otherwise. |
| BillingRuns.StepGenerates | internal/billing/usecase/r2.go:265-310 | A cycle an order records is generated, with one invoice, exactly if the order is billable, and failed, with none, otherwise. |
| BillingRuns.BillableIff | internal/billing/usecase/service.go:65-96 | The invoice of an order is taken if and only if it has a customer and its price, fees and total can be stored. |
| BillingRuns.GeneratedPaired | internal/billing/usecase/r2.go:213-313 | A pass records as many generated cycles as it mints invoices. |
| BillingRuns.TerminatePassOpens | internal/billing/usecase/r3.go:272-332 | A customer gains a request exactly when listed, without an open one, and with suspension stamp + threshold days <= now, and then exactly one. |
| BillingRuns.TerminatePassRows | internal/billing/usecase/r3.go:301-352 | Each request a pass opens is for a listed customer, of the tick's instant, with its work order created exactly if there is a field service. |
| BillingRuns.RequestAfterTick | internal/billing/usecase/r3.go:283-332 | A whole tick opens one request for each customer of the roster that it leaves suspended, past the threshold since the stamp and without an open request, and for nobody else. |
| BillingRuns.OneOpenRequest | internal/billing/usecase/r3.go:64-189 | Over any history of ticks, customers' requests, cancellations and completed work orders, no customer ever has two open termination requests. |
| LateFees.OneFeePerInvoice | internal/billing/usecase/r2.go:440-464 | With line items listed, no history charges a numbered invoice of an order a second fee: ticks at any instants, with payments, cancellations, other invoices and terminations in between. |
| LateFees.OneFeeIff | internal/billing/adapter/postgres/invoice_repo.go:138-215 | No history charges any numbered invoice of an order twice if and only if the listing carries line items or no customer has a chargeable fee. |
| LateFees.ChargedEveryTick | internal/billing/usecase/r2.go:440-464 | A late issued invoice whose fee cannot be found gains at least one fee for its number and order with every tick at that instant. |
| LateFees.FeeRejectedIff | internal/billing/usecase/r2.go:360-391 | A fee is refused if and only if it has no customer, is half a cent or more below zero, or comes with tax to more than the database holds. |
| BillingCycles.AtMostOneCycle | internal/billing/usecase/r2.go:230-239 | Over any ticks, with anything else in between, a customer has at most one cycle for each period start. |
| BillingCycles.ExactlyOneCyclePerBilledPeriod | internal/billing/usecase/r2.go:213-313 | A period in which a tick ran while the customer was active and the order activated has exactly one cycle at the end of every run, generated or failed. |
| BillingCycles.PeriodsDisjoint | internal/billing/usecase/r2.go:213-313 | With one billing day for each customer, the periods recorded for a customer never overlap. |
| BillingCycles.ClashingOrdersOverlap | internal/billing/usecase/r2.go:226-239 | Any two orders of a customer with different billing days: a run whose recorded periods overlap. |
| BillingCycles.DisjointIff | internal/billing/usecase/r2.go:226-239 | Recorded periods are disjoint in every run if and only if the orders of each customer share a billing day. |
| BillingCycles.BilledItselfIff | internal/billing/usecase/r2.go:213-313 | A pass gives an order a cycle of its own if and only if it is activated, its period is not on record, and no activated order before it has the same customer and period start. |
| BillingCycles.EveryOrderBilledIff | internal/billing/usecase/r2.go:226-239 | From an empty cycle log every activated order gets its own cycle if and only if no two of one customer share the period start. |
| TokenBucket.RateLimit.Allow | pkg/httpserver/ratelimit.go:51-76 | Refills, decides and stores in place exactly as the specification of one call, janitor included. |
| TokenBucket.RateLimit.MaybeJanitor | pkg/httpserver/ratelimit.go:81-92 | Within 30 seconds of the last time nothing changes; after that exactly the buckets used in the last 300 seconds stay, as they were. |
| TokenBucket.JanitorIsInvisible | pkg/httpserver/ratelimit.go:51-92 | With 300 * refill >= burst, on every interleaving of clients every decision is that of the client's own bucket, served alone and never forgotten. |
| TokenBucket.JanitorInvisibleIff | pkg/httpserver/ratelimit.go:81-92 | Some run tells the limiter from never-forgotten buckets if and only if burst >= 1 and 300 * refill < burst. |
| TokenBucket.ShippedLimiters | cmd/identity-svc/main.go:83-94 | With the burst and refill of the login, identity-card and portal routes, as wired, no run can tell them apart. |
| TokenBucket.AdmissionBound | pkg/httpserver/ratelimit.go:51-76 | Over any run and any closed interval a client is let through at most burst + refill * length times. |
| TokenBucket.AdmissionBoundIff | pkg/httpserver/ratelimit.go:51-92 | The bound holds on every run if and only if 0 <= burst < 1, or burst >= 0 and 300 * refill >= burst; otherwise draining, idling until forgotten and draining again exceeds it. |
| TokenBucket.RetryAfterSuffices | pkg/httpserver/ratelimit.go:98-112 | A refused client with no admission in between is let through once the Retry-After seconds have passed, however often it probed (section 7.1.3 of RFC 7231), whatever the janitor drops. |
| TokenBucket.RetryAfterEarnsOne | pkg/httpserver/ratelimit.go:105-110 | The advertised whole seconds always earn at least one token; they are at least two, and beyond two at most one second too many. |
| WindowLog.RateLimitLog.Count | pkg/ratelimit/public.go:74-104 | Purge, count and insert change the log and decide exactly as one step of the specification. |
| WindowLog.RateLimitLog.PlatformJanitor | internal/enterprise/cron/cron.go:699-719 | Of each row all copies stay if it is within the retention and none otherwise; every count that starts within the retention is what it was; and this is the sweep of the specification. |
| WindowLog.SweepKeepsYoung | internal/enterprise/cron/cron.go:708-712 | A sweep keeps every copy of a row within the cut-off and no copy of an older one. |
| WindowLog.PurgingIsInvisible | pkg/ratelimit/public.go:74-104 | On every run, daily sweeps included, each decision is that of a log that never deletes and counts admissions in the closed window. |
| WindowLog.RefusedIff | pkg/ratelimit/public.go:84-103 | A call is refused exactly when at least the limit of its bucket's calls were let through in the closed window that ends with it. |
| WindowLog.WindowBound | pkg/ratelimit/public.go:92-103 | No closed interval of a window's length holds more than the limit of admissions, wherever it starts. |
| WindowLog.SweepInvisibleIff | internal/enterprise/cron/cron.go:699-719 | The daily sweep can change a decision if and only if some bucket that admits calls has a window beyond 24 hours. |
| Tickets.Ticket.DoAssign | internal/cs/domain/ticket.go:208-228 | In-place assignment is the transition table's, refusals and their codes included. |
| Tickets.Ticket.DoStart | internal/cs/domain/ticket.go:232-251 | In-place start: takes the ticket over only if nobody has it, records the first response only once, and does nothing on a ticket in progress. |
| Tickets.Ticket.DoPause | internal/cs/domain/ticket.go:255-272 | In-place pause: only from in-progress and for a known kind. |
| Tickets.Ticket.DoResume | internal/cs/domain/ticket.go:275-291 | In-place resume: adds the whole seconds of the pause and clears its start. |
| Tickets.Ticket.DoResolve | internal/cs/domain/ticket.go:295-309 | In-place resolution: needs a text that is not blank. |
| Tickets.Ticket.DoClose | internal/cs/domain/ticket.go:312-329 | In-place closing: only from resolved, and a second close changes nothing. |
| Tickets.Ticket.DoReopen | internal/cs/domain/ticket.go:333-349 | In-place reopening: from resolved or closed, clears both stamps and escalates by one. |
| Tickets.Ticket.DoChangePriority | internal/cs/domain/ticket.go:352-367 | In-place priority change: known priorities only, on tickets not closed. |
| Tickets.Ticket.AddPauseDuration | internal/cs/domain/ticket.go:382-387 | Adds whole seconds, and nothing if they are negative. |
| Tickets.RunSound | internal/cs/domain/ticket.go:147-386 | Over every run on a monotone clock: a pause is running exactly in the pending states, the resolution stamp is set exactly in resolved and closed, the closing stamp exactly in closed, and the accumulator never runs ahead of the clock. |
| Tickets.ClampsIdle | internal/cs/domain/ticket.go:392-406 | On such a run neither clamp to zero of the age ever takes effect. |
| Tickets.PauseAccounting | internal/cs/domain/ticket.go:382-406 | The effective age is never below the true time outside the pending states, and above it by less than one second for each pause that ended. |
| Tickets.AgeNeverFalls | internal/cs/domain/ticket.go:392-406 | The effective age never goes back along any run. |
| Tickets.RunKeeps | internal/cs/domain/ticket.go:371-376 | Once set the first response never changes, and no transition touches the breach flags or the warning. |
| Tickets.FirstResponseIs | internal/cs/domain/ticket.go:232-251 | On every run the first response is the instant of the first event that started a waiting ticket or marked a response, and missing exactly if there was none. |
| Tickets.RunAnswered | internal/cs/domain/ticket.go:208-251 | On every run a ticket past open and assigned has its first response, and one past open has an assignee. |
| Tickets.StampedSince | internal/cs/domain/ticket.go:295-349 | On every run the resolution stamp of a settled ticket, and the closing stamp of a closed one, is the instant of the event since which it has been so without a break. |
| Tickets.StatusMoves | internal/cs/domain/ticket.go:208-367 | The status moves along the twelve edges alone, a possible move is never refused, and a refusal changes nothing. |
| Tickets.AssigneeMoves | internal/cs/domain/ticket.go:208-367 | The assignee changes only by assigning a waiting ticket or starting one that has none, to that user; the priority only by a known one on a ticket not closed. |
| Tickets.EscalationCounts | internal/cs/domain/ticket.go:333-349 | The escalation level grows by exactly the number of times a settled ticket was reopened. |
| Tickets.WarnsFromShare | internal/cs/domain/sla_policy.go:140-155 | A warning is called for exactly on an open, unwarned ticket whose age has reached the row's share of the resolution budget, in whole nanoseconds, and not the budget. |
| Tickets.RunStamped | internal/cs/usecase/sla.go:71-100 | Through every run and re-anchoring, the due dates are the creation time plus the budgets of the matrix row on record. |
| Tickets.SlaComputationsAgree | internal/cs/domain/ticket.go:476-500 | Negative remaining seconds imply a breach and a breach implies none remaining; the gap is under one second, and exactly when it is negative is stated; for first response and resolution, on every run. |
| SlaSweep.SlaService.EvaluateBreaches | internal/cs/usecase/sla.go:159-211 | The loop writes back and records exactly what one sweep does; its report counts exactly the events added. |
| SlaSweep.SweepLeavesNoneUnflagged | internal/cs/usecase/sla.go:159-211 | After a sweep no listed ticket with a matrix row is breached, or due a warning, without its flag. |
| SlaSweep.SweepExact | internal/cs/usecase/sla.go:159-211 | What a sweep does to a listed ticket with a matrix row, with the arithmetic written out: each breach flag goes up exactly when the age exceeds its budget, the warning exactly in its window, stamped with the instant. |
| SlaSweep.SweepRaisesOnlyDue | internal/cs/usecase/sla.go:159-211 | A flag goes up only on a listed ticket whose matrix row calls for it. |
| SlaSweep.SweepTwice | internal/cs/usecase/sla.go:159-211 | Sweeping the same tickets again at the same instant writes and records nothing. |
| SlaSweep.AtMostOneEvent | internal/cs/domain/ticket.go:441-470 | Over any interleaving of tickets, transitions and sweeps, each ticket has at most one event of each kind, and has one exactly when its flag is up. |
| SlaSweep.BreachStaysJustified | internal/cs/domain/sla_policy.go:115-134 | Under the row that raised a breach, the age stays over the budget for ever after. |
| SlaSweep.FlagsStayJustified | internal/cs/usecase/sla.go:159-211 | On every run, each flag that is up, warning included, was raised by a sweep that listed the ticket and for which the ticket's own matrix row of that moment called, and the age is past that row's budget, or at its warning threshold, then and at every later instant. |
| Suspension.NextIsWorst | internal/billing/domain/suspension.go:132-173 | A tick acts exactly when the most severe enabled stage crossed is worse than the last action, and takes that stage. |
| Suspension.Confluence | internal/billing/domain/suspension.go:132-173 | From no action or a restore, after any non-decreasing ticks the last action is the most severe stage crossed at the last of them. |
| Suspension.SchedulesAgree | internal/billing/domain/suspension.go:132-173 | Two tick schedules that end at the same instant end alike: downtime loses nothing. |
| Suspension.CrossedIff | internal/billing/domain/suspension.go:139-160 | A stage is crossed exactly when due + its days <= now, or, for a warning of no days, once the date is less than a day more than that many days off. |
| Suspension.TickActs | internal/billing/usecase/orchestration.go:351-441 | A suspension tick that lists a customer logs the most severe stage reached, if that is worse than the last action, sets the state to it unless it is left to a supervisor, and otherwise does nothing. |
| Suspension.UnlistedAlone | internal/billing/usecase/orchestration.go:369-441 | A suspension tick leaves the log and the state of a customer it does not list as they were. |
| Suspension.JobConfluence | internal/billing/usecase/orchestration.go:351-441 | After any run of both jobs that leaves a customer with no action or a restore, however often suspension ticks then list it for one due date, its last logged action is the most severe stage reached at the last of them. |
| Suspension.RestoreActs | internal/billing/usecase/orchestration.go:461-536 | A restore tick leaves every customer it lists active, with a restore logged exactly if suspended before, and every other customer as it was. |
| Suspension.OrchestrationService.RunSuspensionTick | internal/billing/usecase/orchestration.go:351-441 | Logs and changes state exactly as the escalation of each candidate in turn; the count is that of the rows added. |
| Suspension.OrchestrationService.RunRestoreTick | internal/billing/usecase/orchestration.go:461-536 | Restores exactly the listed suspended customers with nothing unpaid; the count is that of the rows added. |
| Suspension.StateIsProjectionOfLog | internal/billing/usecase/orchestration.go:351-536 | Over any interleaving of both jobs, with changing policies that leave no hard suspension to a supervisor, each state is told by the last logged action alone. |
| Suspension.EscalateProjectsIff | internal/billing/usecase/orchestration.go:369-441 | One escalation keeps log and state in agreement if and only if it is not a hard suspension left to a supervisor. |
| Suspension.ProjectionIff | internal/billing/usecase/orchestration.go:369-441 | Under fixed policies state and log agree after every run if and only if no policy both has a hard suspension and leaves it to a supervisor. |
| Suspension.LogClimbs | internal/billing/usecase/orchestration.go:351-536 | Whatever policies and due dates do, each customer's actions grow strictly more severe between restores, and a restore directly follows a suspension. |
| Suspension.AtMostThreeBetweenRestores | internal/billing/domain/suspension.go:53-60 | No customer sees more than three actions between restores. |
| Reminder.NextReminderKindForInvoice | internal/billing/domain/reminder.go:153-212 | The loop that keeps the best step so far computes the specified kind. |
| Reminder.HighestStepIsHighest | internal/billing/domain/reminder.go:178-194 | The step chosen is one that was crossed, and no crossed step is later in the order, however the steps are arranged. |
| Reminder.NextIsLatestDue | internal/billing/domain/reminder.go:141-212 | The reminder is the latest kind whose own window is open, if that is later than the last one sent, and otherwise none. |
| Reminder.Ladder | internal/billing/domain/reminder.go:41-60 | The six kinds in their order, with unknown kinds below them all. |
| Reminder.TickReminds | internal/billing/usecase/orchestration.go:142-265 | A reminder tick that lists an invoice leaves on record the latest kind whose window is open, if that is later than the last one sent and the invoice is open and due within thirty days, and otherwise sends nothing. |
| Reminder.SecondTickSendsNothing | internal/billing/usecase/orchestration.go:690-692 | With every step after the due date, a second evaluation at the same instant sends nothing. |
| Reminder.SecondEvaluationIff | internal/billing/usecase/orchestration.go:690-692 | Without that filter a second evaluation at the same instant never sends if and only if it is not the case that some step on or before the due date is a soft reminder and none of those steps is for a later kind. |
| Reminder.DueTodayHourIff | internal/billing/domain/reminder.go:194-199 | The due-day reminder waits for an hour of the due date if and only if that hour is at most zero, whatever the policy names. |
| Reminder.WarnedBeforeHardSuspend | internal/billing/domain/suspension.go:142-171 | Whenever an unpaid invoice calls for a hard suspension, its pre-suspend reminder was sent or is sent now, and was due at least a day before. |
| Dunning.HardSuspensionsAnnounced | internal/billing/usecase/orchestration.go:142-441 | Over any interleaving of reminder, suspension and restore ticks, with changing policies and due dates: if each suspension tick that lists a customer past the grace comes within a day of a reminder tick that listed an unpaid invoice with that due date, under that grace, then every hard suspension of the customer comes after the logged pre-suspend reminder of an unpaid invoice for which it was listed. |
| Dunning.OneInvoiceAnnounced | internal/billing/usecase/orchestration.go:142-441 | In particular, if one invoice is all its customer is listed for, under one grace, and reminders list it in the day before each suspension tick, its own pre-suspend reminder comes before every hard suspension. |
| Reminder.SkipLosesNothingIff | internal/billing/usecase/orchestration.go:173-176 | The look-ahead suppresses no reminder that is due at the instant of a tick if and only if the soft offset, and the pre-suspend offset less the grace, are within 30 days; what it suppresses can still be sent by a later tick. |
| Reminder.ReminderService.RunReminderTick | internal/billing/usecase/orchestration.go:142-265 | The log becomes that of reminding each invoice in turn, and the count is that of the rows added. |
| Reminder.RemindClimbs | internal/billing/usecase/orchestration.go:193-201 | A reminder that is sent is always new to the log: the uniqueness constraint never has to act. |
| Reminder.RunClimbs | internal/billing/domain/reminder.go:153-212 | Over any ticks, under changing policies, the kinds logged for an invoice strictly climb. |
| Reminder.AtMostSixReminders | internal/billing/domain/reminder.go:52-59 | No invoice is ever reminded more than six times. |
| Money.CentsNearest | internal/billing/domain/invoice.go:191-197 | Rounding moves an amount by at most half a cent, by a full half only away from zero, keeps its sign and is symmetric. |
| Money.CentsShift | internal/billing/domain/invoice.go:191-197 | Whole cents of the same sign pass through rounding unchanged. |
| Invoices.NewInvoice | internal/billing/domain/invoice.go:74-129 | The accumulating loop builds exactly the specified draft or refusal. |
| Invoices.TotalsNeverDesync | internal/billing/domain/invoice.go:92-109 | For all lines, negative ones included, and all rates, the three separately rounded figures satisfy total = subtotal + tax, each within half a cent of its exact value, and the total is whole cents. |
| Invoices.TaxNearest | internal/billing/domain/invoice.go:108-109 | The tax is within half a cent of the exact subtotal * rate / 100. |
| Invoices.LinesKept | internal/billing/domain/invoice.go:92-107 | A line keeps what its caller set and gets its place, one piece, and price times pieces for what was left out. |
| Invoices.BuiltIff | internal/billing/domain/invoice.go:74-84 | A draft is built if and only if there is a customer, a line, and a rate from 0 to 100, and carries what was asked for. |
| Invoices.CreateInvoice | internal/billing/usecase/service.go:65-96 | Pricing, building, issuing and storing give exactly the specified invoice or refusal. |
| Invoices.PricingAgrees | internal/billing/usecase/service.go:65-96 | The service's price and the invoice's default for a line never disagree. |
| Invoices.StorableIff | migrations/0009_billing.up.sql:30-73 | The database takes an invoice if and only if its exact lines add up to more than half a cent below zero and, with tax, to less than ten trillion, and each line fits its columns, its quantity staying positive at three decimals. |
| Invoices.Ledger.RecordPayment | internal/billing/usecase/service.go:142-194 | Payment in place: the refusals in order, a blank method among them, the payment kept to the cent, and the flip to paid. |
| Invoices.PayEffect | internal/billing/usecase/service.go:142-178 | A payment on an open invoice of at least half a cent with a method adds one amount, whole cents within half a cent of the amount paid, and may settle the invoice; any other payment changes nothing. |
| Invoices.PaymentsKept | internal/billing/usecase/service.go:156-172 | Over every run the payments on record are, in order, one for each accepted payment, whole cents within half a cent of its amount, and their sum is within half a cent a payment of the sum offered. |
| Invoices.PaidAtLastPayment | internal/billing/usecase/service.go:171-178 | On every run a paid invoice carries the instant of the last payment it accepted. |
| Invoices.StatusMoves | internal/billing/domain/invoice.go:133-171 | Drafts are issued, open invoices cancelled or paid by an accepted payment, and paid and cancelled invoices stay as they are. |
| Invoices.Ledger.DoIssue | internal/billing/domain/invoice.go:133-144 | Issuing in place, drafts only. |
| Invoices.Ledger.DoMarkPaid | internal/billing/domain/invoice.go:148-158 | Marking paid in place, with its two refusals. |
| Invoices.Ledger.DoCancel | internal/billing/domain/invoice.go:162-171 | Cancelling in place, with its two refusals. |
| Invoices.ToleranceIdle | internal/billing/usecase/service.go:171-178 | The tolerance of the coverage test never decides: it holds exactly when the payments reach the total. |
| Invoices.PaidExactlyWhenCovered | internal/billing/usecase/service.go:142-194 | Over every run an invoice that is not cancelled is paid exactly when a payment was taken and payments reach the total; none is taken once they do; its figures never change. |
| Commission.ShapesAgreeIff | internal/billing/usecase/schema_policy.go:247-281 | For every schema, partial ones included: it and the same in percentages resolve to the same split if and only if it gives nothing, or is complete and its fractions add up to more than 0.015 and at most 1.5. |
| Commission.ScaledIff | internal/billing/usecase/schema_policy.go:261-280 | A schema is scaled if and only if what it gives, together with the defaults for what it leaves out, is above zero and at most 1.5; one that leaves any party out would have to give -3.5 or less. |
| Commission.StandingSplit | internal/billing/domain/r2.go:75-81 | Without a schema the split is 15, 5, 10, 10 and 60, which adds up to a hundred. |
| Commission.EachPartyItsShare | internal/billing/usecase/r2.go:664-725 | Each party that takes part has exactly one row, with its own percentage, payee and rounded share; no other party has any. |
| Commission.PercentagesConserved | internal/billing/usecase/r2.go:664-725 | The percentages emitted add up to the split less only the shares of an absent manager or sales branch; the same-branch fold loses nothing. |
| Commission.AmountsConserved | internal/billing/usecase/r2.go:682-686 | The amounts add up to the base's share of the emitted percentages to within half a cent a row. |
| Commission.CommissionBook.MaybeApplyCommission | internal/billing/usecase/r2.go:581-639 | The hook appends exactly the rows of an eligible settlement of an order with none yet. |
| Commission.CommissionOnce | internal/billing/usecase/r2.go:581-639 | Over any settlements the rows of an order are those of its first eligible one, and no more. |
| Commission.CommissionPaid | internal/billing/usecase/r2.go:581-639 | An order has commission if and only if some settlement was of a paid one-time invoice of it, with a positive price and a sales person, and then the rows of the first such settlement. |
| Commission.RowsPayShares | internal/billing/usecase/r2.go:682-686 | Each row pays price * percentage / 100 to the nearest cent. |
| Printers.FormatFloat2 | internal/billing/usecase/orchestration.go:825-860 | The digit loops print sign, whole part and two digits of the rounded cents. |
| Printers.DecimalRoundTrip | internal/billing/usecase/orchestration.go:843-852 | Digits read back as the number, with no leading zero. |
| Printers.FormatRoundTrip | internal/billing/usecase/orchestration.go:825-860 | Parsing the printed amount gives back exactly the signed cents, by a parser that takes no leading zero and just two decimals. |
| Printers.FormatInjective | internal/billing/usecase/orchestration.go:825-860 | Amounts that round differently print differently. |
| Printers.ISecs | pkg/ratelimit/public.go:119-137 | Filling a buffer from its end prints the whole seconds, at least one, so that they read back. |
| Printers.Commaize | pkg/pdf/quotation.go:279-304 | The left-to-right writer groups digits from the right, behind the sign. |
| Printers.DottedIsGroup | pkg/pdf/quotation.go:291-300 | Placing dots from the left by what is left over is grouping by three from the right. |
| Printers.CommaizeRoundTrip | pkg/pdf/quotation.go:279-304 | Deleting the dots gives the text back, and dots stand exactly before every third digit from the right, never first. |
| VendorMetrics.Deriver.Tick | internal/enterprise/cron/cron.go:525-652 | One committed tick marks exactly its batch and adds exactly its bins. |
| VendorMetrics.Deriver.UpsertAll | internal/enterprise/cron/cron.go:608-632 | Upserting bin by bin, in any order the map yields, is adding all bins. |
| VendorMetrics.BinAggregates | internal/enterprise/cron/cron.go:585-604 | Each bin holds the exact figures of its vendor and month over the batch. |
| VendorMetrics.MarkBatch | internal/enterprise/cron/cron.go:634-647 | Marking a batch moves exactly the batch's figures into the derived aggregate. |
| VendorMetrics.NoDoubleCount | internal/enterprise/cron/cron.go:517-652 | After any committed ticks and completions, every counter is the exact aggregate over the rows marked derived. |
| VendorMetrics.BatchInvariance | internal/enterprise/cron/cron.go:517-652 | Two runs that leave the same rows derived leave the same counters, however they were batched. |
| VendorMetrics.RunCounters | internal/enterprise/cron/cron.go:608-632 | From empty tables every counter is exact and on-time never exceeds the total. |
| VendorMetrics.CountersMean | internal/enterprise/cron/cron.go:585-604 | From empty tables, after every run: the total of a vendor and month is the number of derived rows of the vendor that finished on a day of the month, on-time the number of those whose planned finish was not before the actual one, and defects their sum. |
| VendorMetrics.DeriveMarks | internal/enterprise/cron/cron.go:634-647 | Deriving a batch marks each of its rows, none of which was marked before, and no other. |

## Left out

- SQL text, HTTP handlers, logging, audit rows, notifications and metrics; SQL constraints appear where a decision depends on them.
- Floating point and 64-bit wrap-around: amounts are exact reals and integers are unbounded, except where a printer's buffer needs the 64-bit bound.
- Limits and order of listings (500, 100 and 50 rows): every matching row is listed.
- Failing repositories and bridges: each call succeeds, except for what the database refuses by its checks. A ticket update that failed after its event was recorded would record it again; a failed work order would leave a request pending.
- Concurrency: each tick, sweep, transition and call is one step.
- Ties in the action and reminder logs: the newest row is the one appended last.
- Invoices.StorableIff: leaves out the uniqueness of invoice numbers, which are random in the program and a prefix and a serial here, and of the one-time invoice of an order.
- Line figures are kept exactly, not to the decimals of their columns; due dates are kept as dates, as their column does.
- The outstanding amount noted on a termination request, the penalty of a voluntary termination and its final invoice, referral rewards, `monthsBetween`; in histories a request may be asked for and closed at any time.
- `RunLateFeeTick` and `RunCommissionTriggerTick`: one guarded insert each, under a unique key.
- Reading policies out of schema bodies key by key, apart from the commission split: policies are plain records given per customer.
- The delivery channel of a reminder and what is delivered; a reminder counts as sent when its row is logged.
- `vendor_metrics.avg_response_hours`: overwritten by each batch, so nothing holds of it over runs.
- Imported tickets, whose pauses have no start: runs begin with a new ticket.
- SlaSweep.AtMostOneEvent: assumes that the matrix row found by a ticket's key does not depend on the flags a sweep raises, which holds of the key (customer type, priority, ticket type).
- A vendor-metrics tick that fails: the database then rolls the whole batch back and the next tick takes it again, so only committed ticks change anything.
