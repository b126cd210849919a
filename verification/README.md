# RR-NET back end: verified model

A Dafny model of the stateful parts of the RR-NET back end and proofs about them. SQL tables are
maps and sequences, each SQL statement (or transaction) is one atomic step, and the Go services
are classes whose methods are proved against a transition function. What the services promise is
then proved about that function: for every input, every reachable state or every run.

The modules, by subject:

- **Campaigns** — `Campaign` is the WhatsApp campaign protocol as a concurrent transition system:
  handlers with program counters, the queue, the per-tenant channel, retries split into list,
  reset and enqueue. `CampaignInvariants` proves what every action keeps, `CampaignProgress` what
  is reached, `CampaignStatus` which step sets which status, `CampaignSystem` ties the source's
  functions to actions. `Counting` counts map entries; `Collections` holds facts about sequences
  and sets used throughout.
- **Billing** — `Calendar` (Go's date normalisation against a closed-form day count), `DueDate`,
  `Decimal` (digit printing and reading), `InvoiceNumber`, `Billing` (numbers, ledger, periods),
  `BillingService` (the service's methods), `Scheduler` (the daily job).
- **Network** — `RateLimit` with `Text` (rate-limit strings), `RemoteAccess` (port allocation).
- **Fibre maps** — `FiberMap` (tables, port counts), `Outages` (forest, cascade, restore),
  `Placement` (links against locations), `OutageRuns` (outages interleaved with map changes).
- **Vouchers** — `VoucherAuth` (answers of sections 4.2 and 4.3 of RFC 2865, sessions of section
  5.1 of RFC 2866).
- **Equivalences** — `MessageLog` (keyset pagination), `Features` (batch and single resolution).

Where a stated property does not hold of the code, the exact condition is proved instead:

- A retry keeps campaign counters and tasks exact if and only if the rows it resets are the rows
  it listed (so at most 5000) and no failure mark is in flight; a redelivered task always breaks
  the one-task rule. The counters never under-count, whatever is redelivered, retried or clamped.
- The scheduler's period and the generator's agree if and only if tomorrow is not the first of a
  month or today's day exists in the next month. On 31 January with due day 1 the scheduler
  checks February and the invoice is for March.
- `used_ports` equals the occupancy as long as no location is placed on a full distribution
  point: the table's check then refuses the increment after the location has been stored, so
  the location is neither counted nor linked.
- Overdue marks and cancellations are unguarded: a mark on a covered invoice breaks the ledger,
  and a mark on a cancelled invoice un-cancels it.
- Toggling remote access searches the tenant's routers only and can reuse another tenant's port.
- Importing an exported profile loses nothing if and only if both speeds are nonzero and either
  the download is below 1000 Kbps or both are whole Mbps.
- A used voucher is accepted again during a session opened under its own name if and only if the
  name has outer spaces and the voucher of the trimmed name, which accounting gives the session
  to, is active and passes validation in its place. Without outer spaces it is not, while the
  voucher is kept; deleting and recreating a voucher unties its sessions.
- A plan wildcard grants every code in the single lookup, but in the batch lookup only the known
  codes and those the plan lists before it.
- The job's second run at one time adds an invoice if and only if some due template client had no
  invoice before the first and was created in neither month concerned; the third adds none.
- Links and placement tell the same until a location changes point or is stored on a full one;
  then outages miss the client or follow the point it left.
- A node below an unresolved outage stays out until it is removed, its point is updated or any
  outage above it is resolved; new locations start well.

The comment on `ConsumeVoucherAtomic` says that only active vouchers are consumed; its statement
also consumes used ones, and the model follows the statement.

## Model

| member | source | states |
|---|---|---|
| CampaignInvariants.InitSafe | BE/internal/worker/tenant_limiter.go:13-18 | With no campaign and a limiter of at least one slot, whatever maximum was asked for, all invariants hold, the exact ones too |
| CampaignInvariants.WorkCount | BE/internal/repository/wa_campaign_repository.go:166-242 | How any one statement, queue or channel operation moves the number of deliveries with any given property |
| CampaignInvariants.ResetCount | BE/internal/repository/wa_campaign_repository.go:216-224 | The reset leaves no failed row of its campaign, touches no sent row and no other campaign, and reports as many rows as had failed |
| CampaignInvariants.LimitedStep | BE/internal/worker/tenant_limiter.go:20-25 | Every interleaved step keeps: tokens in a tenant's channel = its handlers between acquire and release, at most max |
| CampaignInvariants.AcquireExactly | BE/internal/worker/tenant_limiter.go:20-23 | A waiting handler can acquire exactly while fewer than max handlers of its tenant hold a slot |
| CampaignInvariants.ReleaseNeverBlocks | BE/internal/worker/tenant_limiter.go:24-24 | A handler that acquired can always receive its token back |
| CampaignInvariants.CoveredStep | BE/internal/repository/wa_campaign_repository.go:178-236 | Every step, redelivery, clamp and overlapping retry included, keeps: counted plus in-flight outcomes are at least the rows with that outcome, and completed implies sent + failed >= total |
| CampaignInvariants.AwakeStep | BE/internal/repository/wa_campaign_repository.go:178-197 | Every step keeps: a campaign that counted its total is completed or some delivery still has the completion check ahead |
| CampaignInvariants.SafeRun | BE/internal/repository/wa_campaign_repository.go:166-242 | All of the above over every run, from every safe state |
| CampaignInvariants.ExactStep | BE/internal/worker/wa_campaign_worker.go:53-101 | Every careful step keeps the counters exactly equal to rows minus in-flight marks, and exactly one delivery per pending recipient, none before its row update for a settled one |
| CampaignInvariants.ResetKeepsExact | BE/internal/service/wa_campaign_service.go:141-165 | From an exact state a reset keeps exactness if and only if it takes back exactly the listed rows while no failure mark is in flight |
| CampaignInvariants.RedeliveryBreaksExact | BE/internal/service/wa_campaign_service.go:160-160 | A redelivered task always leaves two deliveries, or one for a settled row |
| CampaignProgress.ResetDuringMark | BE/internal/repository/wa_campaign_repository.go:184-236 | A run from the start with one recipient whose failure is reset before it is counted: exact before, not after |
| CampaignProgress.DeliveredTwice | BE/internal/service/wa_campaign_service.go:104-110 | A run from the start with one recipient whose task is redelivered: exact before, not after |
| CampaignInvariants.ExactRun | BE/internal/repository/wa_campaign_repository.go:166-242 | Exactness over every careful run |
| CampaignProgress.Conservation | BE/internal/repository/wa_campaign_repository.go:166-197 | sent + failed + marks in flight + pending rows = total |
| CampaignProgress.QuiescentCompletes | BE/internal/repository/wa_campaign_repository.go:178-196 | In any safe state, a campaign without pending rows and without deliveries is completed and fully counted |
| CampaignProgress.ExactQuiescence | BE/internal/repository/wa_campaign_repository.go:178-196 | In an exact state an idle campaign is completed, every recipient settled, and both counters equal their rows |
| CampaignProgress.OrphanNeedsCarelessness | BE/internal/service/wa_campaign_service.go:141-165 | A pending recipient nobody will settle implies that some earlier step was a redelivery or a careless reset |
| CampaignProgress.WorkersCanMove | BE/internal/worker/wa_campaign_worker.go:53-101 | No deadlock: while a delivery is left, an enqueue, a delivery or a handler step is enabled |
| CampaignProgress.WorkerRunBound | BE/internal/worker/wa_campaign_worker.go:53-101 | Every worker run has exactly as many steps as the work it used up |
| CampaignProgress.MaximalRunCompletes | BE/internal/worker/wa_campaign_worker.go:53-101 | Every worker run that cannot go on has drained queue and handlers, settled every row and completed every campaign |
| CampaignProgress.ListingIsComplete | BE/internal/repository/wa_campaign_repository.go:137-164 | The listing names all failed rows if and only if there are at most 5000 |
| CampaignStatus.StatusStep | BE/internal/repository/wa_campaign_repository.go:178-236 | No step queues an existing campaign again; counting, and a reset that takes rows back, set running; only the check completes, and only with the total counted |
| CampaignStatus.OnlyConcerned | BE/internal/repository/wa_campaign_repository.go:178-236 | A campaign's row changes only by a counter update, check or reset of its own; tenant and total never |
| CampaignStatus.IncrementSets | BE/internal/repository/wa_campaign_repository.go:178-179 | The counter of the outcome goes up by one, the other stays, and the campaign runs |
| CampaignStatus.CheckSets | BE/internal/repository/wa_campaign_repository.go:180-181 | Completed exactly when queued or running with the total counted; counters stay |
| CampaignStatus.ResetSets | BE/internal/repository/wa_campaign_repository.go:216-236 | Failed rows of the campaign become pending and no other row changes; their number comes off the failed counter, down to zero, and the campaign runs; with none, nothing changes |
| CampaignStatus.CreateSets | BE/internal/repository/wa_campaign_repository.go:24-64 | A new campaign is queued with nothing counted and pending recipients |
| CampaignStatus.RunQueued | BE/internal/repository/wa_campaign_repository.go:178-236 | Over every run a queued campaign has counted nothing |
| CampaignSystem.System.ValidIsSafe | BE/internal/repository/wa_campaign_repository.go:166-242 | Every object reached by these methods satisfies all safety invariants |
| CampaignSystem.System.AcquireSlot | BE/internal/worker/tenant_limiter.go:20-25 | The channel send, taken only while there is room, is the acquire action |
| CampaignSystem.System.ReleaseSlot | BE/internal/worker/tenant_limiter.go:24-24 | The receive is the release action and ends the handler |
| CampaignSystem.System.UpdateRow | BE/internal/repository/wa_campaign_repository.go:166-176 | The row update is the mark action; a missing row skips the counters |
| CampaignSystem.System.IncrementCounter | BE/internal/repository/wa_campaign_repository.go:178-179 | The counter update is the increment action on the row's campaign, and sets running |
| CampaignSystem.System.CompleteIfCounted | BE/internal/repository/wa_campaign_repository.go:180-181 | The conditional completion is the check action |
| CampaignSystem.System.MarkRecipient | BE/internal/repository/wa_campaign_repository.go:166-198 | Undisturbed, the three statements change one row's status and its campaign's counter and status, field by field, and nothing else |
| CampaignSystem.System.HandleSend | BE/internal/worker/wa_campaign_worker.go:37-102 | Undisturbed, a handler settles its row, counts it, completes the campaign if that was its total, restores every slot count and removes its delivery |
| CampaignSystem.System.CreateAndEnqueue | BE/internal/service/wa_campaign_service.go:43-117 | Returns the first of the four input errors that applies, after trimming, and then changes nothing; otherwise one create and one enqueue per contact with a phone, in order |
| CampaignSystem.ReachableKeepsDistinct | BE/internal/service/wa_campaign_service.go:61-79 | The recipients are exactly the contacts with a phone that is not blank, with distinct ids |
| CampaignSystem.ReachableJoins | BE/internal/service/wa_campaign_service.go:61-79 | The recipients come in the order of the contacts |
| CampaignSystem.System.ListFailedRecipients | BE/internal/repository/wa_campaign_repository.go:137-164 | Returns distinct failed rows of the campaign, all of them or as many as the limit, which falls back to 5000 when out of range |
| CampaignSystem.System.RetryFailed | BE/internal/service/wa_campaign_service.go:135-166 | Unknown campaign or nothing failed: no change. Otherwise the list, reset and enqueue actions in order; every failed row is pending again and taken off the counter, the campaign runs; reports every failed row, listed or not |
| CampaignSystem.System.ResetFailedRecipients | BE/internal/repository/wa_campaign_repository.go:200-242 | The transaction is the reset action and returns the number of rows taken back; with any, rows, counter and status as RetryFailed says |
| Calendar.NormKeepsDay | BE/internal/service/billing_service.go:348-364 | Normalising any day offset denotes the same day of the proleptic Gregorian calendar and gives a valid date |
| Calendar.DayNumberOrders | BE/internal/service/billing_service.go:354-354 | The day count orders valid dates as year, month, day do, and is injective |
| Calendar.AddOneMonth | BE/internal/service/billing_service.go:356-357 | Adding a month keeps the day if the next month has it and otherwise spills into the month after |
| DueDate.DueDateByMonth | BE/internal/service/billing_service.go:339-369 | Which month's clamped due day is returned, for every instant and due day |
| DueDate.DueDateShape | BE/internal/service/billing_service.go:339-369 | Never before now; at 23:59:59 on min(due day, length of the month), today's day standing for a due day below one |
| DueDate.DueDateEarliest | BE/internal/service/billing_service.go:339-369 | It is the earliest such instant if and only if this month's is not past or now's day exists in the next month |
| DueDate.DueDateSkipsOneMonth | BE/internal/service/billing_service.go:356-364 | Otherwise it is exactly one month later than the earliest |
| DueDate.DueDateSkipsFebruary | BE/internal/service/billing_service.go:339-369 | A day that skips: 31 January, due day 5, gives 5 March although 5 February is the earliest |
| DueDate.PeriodIsMonth | BE/internal/service/billing_service.go:288-290 | The period runs from the first to the last day of the month |
| DueDate.DueTomorrowExactly | BE/internal/service/billing_invoice_scheduler.go:164-179 | A day is due exactly when it is the payment day clamped to the length of its month; never for a payment day below one |
| DueDate.OneDueDayAMonth | BE/internal/service/billing_invoice_scheduler.go:164-179 | So every month has exactly one due day for each payment day |
| DueDate.SchedulerAgrees | BE/internal/service/billing_invoice_scheduler.go:80-83 | For a client due tomorrow, the generator's date is tomorrow, and its period the one checked, if and only if tomorrow is not a first or today's day exists next month |
| DueDate.SchedulerDisagreesOnJanuary31 | BE/internal/service/billing_invoice_scheduler.go:164-179 | A day on which they disagree |
| DueDate.NextRunIsEarliest | BE/internal/service/billing_invoice_scheduler.go:45-48 | The next run is the earliest 00:05 strictly after now |
| Decimal.PaddedInjective | BE/internal/repository/invoice_repository.go:382-382 | Zero padding is injective, past its width too |
| Decimal.AtoiOtherwise | BE/internal/service/network_service.go:1243-1259 | A plus sign is read; a sign alone, nothing, and any other character read as zero |
| InvoiceNumber.HasPrefixMeans | BE/internal/repository/invoice_repository.go:372-377 | The LIKE pattern, with its wildcards and escapes, matches exactly the numbers that start with the prefix |
| InvoiceNumber.PrefixMatchesItsMonth | BE/internal/repository/invoice_repository.go:370-377 | A number matches the LIKE prefix of its own month and of no other, whatever the width of year and count |
| InvoiceNumber.NumberInjective | BE/internal/repository/invoice_repository.go:367-383 | Two numbers are equal only for the same month and count |
| InvoiceNumber.NumberForm | BE/internal/repository/invoice_repository.go:370-382 | The number, place by place: INV-, the year, two digits of month, a dash, four digits of count |
| Billing.NumbersOfMonth | BE/internal/repository/invoice_repository.go:367-383 | A tenant's numbers with a month's prefix are exactly that prefix with 1..k, k being their count |
| Billing.NumbersDistinct | BE/internal/repository/invoice_repository.go:367-383 | No two invoices of a tenant have the same number |
| Billing.NumberIsFree | BE/migrations/000014_create_invoices.up.sql:21-21 | The uniqueness constraint never refuses the next number |
| Billing.SubtotalAdds | BE/internal/service/billing_service.go:81-99 | The subtotal adds up over the items; a quantity below one counts as one |
| Billing.PaidTotalAdds | BE/internal/repository/payment_repository.go:190-195 | The total paid adds up over the payments; each counts its amount towards its own invoice only |
| Billing.PaymentFields | BE/internal/service/billing_service.go:190-206 | From balanced books a payment adds its amount to what is paid, settles the invoice exactly when that covers it, and overpays by less than itself |
| Billing.StepNumbered | BE/internal/service/billing_service.go:54-108 | Every operation keeps each invoice's number the one computed from those before it |
| Billing.StepBalanced | BE/internal/service/billing_service.go:126-209 | An operation keeps the ledger balanced (paid amount = sum of payments, a paid invoice covered, a pending or overdue one not, a payment time exactly on covered ones, any overpayment below the last payment) if and only if the total or price of what it inserts is positive and an overdue mark goes to an uncovered invoice |
| Billing.StepStatus | BE/internal/service/billing_service.go:126-209 | A cancelled invoice stays cancelled unless it is marked overdue, and then it does not; a paid one stays paid under all else |
| Billing.PaidMarkedOverdue | BE/internal/service/billing_service.go:126-128 | From empty books: create, pay in full, mark overdue; the invoice is overdue, paid in full, and the ledger unbalanced |
| Billing.CancelledMarkedOverdue | BE/internal/service/billing_service.go:126-132 | From empty books: create, cancel, mark overdue; the invoice can be paid again |
| Billing.RunKeepsBooks | BE/internal/service/billing_service.go:54-209 | Numbers over every run; the balanced ledger over every run with positive totals and marks on pending invoices |
| Billing.CancelledIsAbsorbing | BE/internal/service/billing_service.go:130-132 | Over every such run a cancelled invoice stays cancelled |
| Billing.GenerateKeepsUnique | BE/internal/service/billing_service.go:292-317 | Generating keeps one invoice at most per tenant, client and period |
| Billing.CreateKeepsUnique | BE/internal/service/billing_service.go:54-108 | A manual invoice keeps it if and only if the period was not covered |
| Billing.StepUnique | BE/internal/service/billing_service.go:54-209 | Of all operations only a manual invoice for a covered period breaks the rule |
| BillingService.BillingService.Insert | BE/internal/repository/invoice_repository.go:42-82 | Appends the row unless the tenant already has the number |
| BillingService.BillingService.GenerateInvoiceNumber | BE/internal/repository/invoice_repository.go:367-383 | The number after the tenant's rows that match the month prefix |
| BillingService.BillingService.CreateInvoice | BE/internal/service/billing_service.go:54-108 | The item loop and the insert make exactly the create operation; every field of the new invoice, its total being subtotal plus tax minus discount |
| BillingService.BillingService.GenerateMonthlyInvoice | BE/internal/service/billing_service.go:240-332 | Adds nothing without a price or with an invoice of that very period; otherwise one with the price as total, due at creation for a template client's first and at the computed date else; returns the new or a found invoice within the period |
| BillingService.BillingService.RecordPayment | BE/internal/service/billing_service.go:146-209 | Refuses exactly unknown, paid and cancelled invoices; otherwise appends the payment and, from balanced books, adds its amount to what is paid and settles the invoice exactly when covered |
| BillingService.BillingService.MarkInvoiceAsOverdue | BE/internal/service/billing_service.go:126-128 | Sets that invoice's status to overdue whatever it was, and changes nothing else |
| BillingService.BillingService.CancelInvoice | BE/internal/service/billing_service.go:130-132 | Sets that invoice's status to cancelled whatever it was, and changes nothing else |
| BillingService.NewestFound | BE/internal/repository/invoice_repository.go:184-285 | If the period is covered, the filtered list starts with the newest invoice of the client within the period |
| Scheduler.VisitCoversTomorrow | BE/internal/service/billing_invoice_scheduler.go:116-139 | A visit that generates covers tomorrow's month if and only if scheduler and generator agree |
| Scheduler.JobCoversDue | BE/internal/service/billing_invoice_scheduler.go:80-142 | After a job every visited client with a price and no template whose payment day, clamped, is tomorrow has an invoice for tomorrow's month, on days the two computations agree |
| Scheduler.JobAddsOnlyDue | BE/internal/service/billing_invoice_scheduler.go:112-142 | Every invoice a job adds is for a visited client whose payment day, clamped, is tomorrow, with its price as total |
| Scheduler.VisitSettles | BE/internal/service/billing_invoice_scheduler.go:114-142 | A visit adds nothing for a settled client, settles a client past its first template invoice, and brings any client at least there |
| Scheduler.JobSettles | BE/internal/service/billing_invoice_scheduler.go:67-152 | A job only appends, keeps numbers and the one-invoice rule, and moves each visited client one stage on |
| Scheduler.SecondJob | BE/internal/service/billing_invoice_scheduler.go:67-152 | Whatever a second job at the same time adds is for a template client that had no invoice before the first |
| Scheduler.SecondJobExactly | BE/internal/service/billing_invoice_scheduler.go:67-152 | For distinct clients, a second job at the same time adds an invoice if and only if, before the first, some template client due tomorrow with a price had no invoice and was created in neither tomorrow's month nor the computed one |
| Scheduler.SecondJobAdds | BE/internal/service/billing_service.go:278-286 | Such a client and day: one invoice after the first job, two after the second |
| Scheduler.JobsSettle | BE/internal/service/billing_invoice_scheduler.go:67-152 | A third job adds nothing, and a second adds nothing without template clients |
| Scheduler.TemplateSecondVisit | BE/internal/service/billing_service.go:278-286 | A new template client gets a second invoice from a second visit if and only if its creation month is neither tomorrow's nor the computed one |
| Scheduler.RunKeepsUnique | BE/internal/service/billing_service.go:54-331 | Over any run of jobs, generations, payments, cancellations, overdue marks and manual invoices for uncovered periods, one invoice at most per tenant, client and period |
| Scheduler.VisitsEachOnce | BE/internal/service/billing_invoice_scheduler.go:85-112 | The clients visited are the active clients of active tenants, each as often as it is in the table |
| Scheduler.AllActiveHas | BE/internal/service/billing_invoice_scheduler.go:85-99 | A client is visited exactly when it is active and its tenant is |
| Scheduler.InvoiceScheduler.List | BE/internal/repository/client_repository.go:95-165 | The loop that skips, takes and counts returns the page of the matching rows and their number; page and size out of range fall back to 1 and 20 |
| Scheduler.PagesJoin | BE/internal/repository/client_repository.go:129-151 | The pages joined in order are the matching rows in order, once as many are read as it takes: each row is on one page |
| Scheduler.PageEmpty | BE/internal/service/billing_invoice_scheduler.go:106-108 | A page is empty exactly when the pages before it hold all rows |
| Scheduler.InvoiceScheduler.VisitTenant | BE/internal/service/billing_invoice_scheduler.go:93-151 | The page loop ends and does the job over all active clients of the tenant |
| Scheduler.InvoiceScheduler.RunScheduledJob | BE/internal/service/billing_invoice_scheduler.go:67-152 | The nested loops do the job over exactly the clients of VisitsEachOnce and count them; afterwards every due one has its invoice, and every added invoice is made for a due one |
| RateLimit.RoundTrip | BE/internal/service/network_service.go:1182-1276 | What export and import do to any two speeds: kept below 1000 Kbps download, otherwise each rounded to whole Mbps, zeros replaced by the defaults |
| RateLimit.RoundTripLossless | BE/internal/service/network_service.go:1182-1276 | Exactly which speeds survive |
| RateLimit.SecondRoundTrip | BE/internal/service/network_service.go:1182-1276 | A second round trip changes nothing, if and only if the download is nonzero or the upload is whole Mbps |
| RateLimit.ExportForm | BE/internal/service/network_service.go:1263-1276 | Two numbers of bits per second below 1000 Kbps download, else two of whole megabits, each with its M |
| RateLimit.ParseUnits | BE/internal/service/network_service.go:1236-1260 | Any whole number with G, M or K in either case, or none, and space around it, is read as bits per second |
| RateLimit.ImportMeans | BE/internal/service/network_service.go:1182-1204 | Anything but one slash imports as 10000 and 5000; one slash imports both rates in Kbps, a zero as its default |
| RateLimit.TruncDivMeans | BE/internal/service/network_service.go:1193-1194 | Integer division leaves a remainder of the dividend's sign below the divisor |
| Text.TrimMeans | BE/internal/service/network_service.go:1237-1237 | Trimming drops space on both sides, nothing else, and leaves none there |
| Text.TrimAdded | BE/internal/service/network_service.go:1237-1237 | Space added outside is taken off again |
| RemoteAccess.FirstFreeIsLeast | BE/internal/service/network_service.go:208-218 | The search returns the least free port of the range, and fails if and only if there is none |
| RemoteAccess.CreateTakesLeastFree | BE/internal/service/network_service.go:194-228 | Create with remote access and provision store the least port that no live router of any tenant holds |
| RemoteAccess.ToggleAvoidsTenantPorts | BE/internal/service/network_service.go:1311-1337 | Toggle stores the least port that no live router of the tenant holds |
| RemoteAccess.KeptExactly | BE/internal/service/network_service.go:194-228 | Any operation keeps ports distinct, per tenant or overall, if and only if the port it gives is not taken |
| RemoteAccess.RunKeepsDistinct | BE/internal/service/network_service.go:1311-1337 | Over every run of allocating operations: distinct ports within a tenant, and overall without toggles |
| RemoteAccess.ToggleClashesAcrossTenants | BE/internal/service/network_service.go:1311-1337 | A toggle can give the port of another tenant's live router |
| RemoteAccess.UncheckedPortsClash | BE/internal/service/network_service.go:173-179 | An update, and a VPN create without remote access, can store a port another live router of the tenant holds |
| RemoteAccess.SearchSucceeds | BE/internal/service/network_service.go:208-218 | The search succeeds while fewer than 9501 routers in scope hold a port |
| RemoteAccess.NetworkService.CollectUsedPorts | BE/internal/repository/router_repository.go:76-152 | The loop over the live routers in scope collects exactly their nonzero ports |
| RemoteAccess.NetworkService.FindFreePort | BE/internal/service/network_service.go:208-218 | The loop is the first-free search |
| RemoteAccess.NetworkService.CreateRouter | BE/internal/service/network_service.go:93-243 | Exactly the create operation, field by field; false, and no change, if no port is free or the rules fail |
| RemoteAccess.NetworkService.ProvisionRouter | BE/internal/service/network_service.go:256-286 | Exactly the provision operation, with the port it reports |
| RemoteAccess.NetworkService.ToggleRemoteAccess | BE/internal/service/network_service.go:1300-1382 | Exactly the toggle operation: disabling and enabling with a port keep the port, enabling without one searches the tenant's; succeeds if and only if the router ends in the requested state |
| RemoteAccess.NetworkService.UpdateRouter | BE/internal/service/network_service.go:422-520 | Exactly the update operation, which stores a requested port unchecked |
| RemoteAccess.NetworkService.DeleteRouter | BE/internal/service/network_service.go:522-543 | Marks that router deleted and changes nothing else |
| FiberMap.CapacityByFifths | BE/internal/domain/maps/entity.go:112-135 | The percentage thresholds in whole numbers: full at all ports, warning from four fifths |
| FiberMap.StepAt | BE/internal/service/maps_service.go:131-366 | How one operation moves a point's count and occupancy: together, except that over-filling leaves the count one behind |
| FiberMap.StepCounted | BE/internal/service/maps_service.go:237-366 | An operation keeps every count equal to the occupancy if and only if it places no location on a full point |
| FiberMap.RunCounted | BE/internal/service/maps_service.go:237-366 | Over every run counts stay within zero, capacity and occupancy; they equal the occupancy if nothing over-fills |
| FiberMap.DecrementNeverClamps | BE/internal/repository/odp_repository.go:137-141 | With the counts right the clamp at zero never fires |
| FiberMap.FullPointDrifts | BE/migrations/000017_create_maps_tables.up.sql:38-38 | From empty tables: two clients placed on a point with one port leave two locations, one port used and one link |
| FiberMap.CountedTotal | BE/internal/repository/odp_repository.go:131-141 | With the counts right, all used ports together are the client locations |
| Outages.RunKeepsForest | BE/internal/repository/topology_repository.go:20-30 | Over every run links go cabinet to point or point to client and no node has two parents |
| Outages.OdcCascade | BE/internal/service/maps_service.go:422-450 | A cabinet's cascade is exactly its two-hop descendants, each once, and its clients are those of the join |
| Outages.JoinMeetsCascade | BE/internal/repository/topology_repository.go:78-104 | The DISTINCT join returns exactly the clients of the cascade |
| Outages.SubtreeIs | BE/internal/repository/topology_repository.go:32-76 | The cascade read off the links: a cabinet's points and their clients, a point's clients |
| Outages.ReportThenResolve | BE/internal/service/maps_service.go:376-523 | Reporting and then resolving gives back the tables if and only if the subtree was healthy; in any case ok or capacity status inside and no change outside |
| Outages.MapsService.ReportOutage | BE/internal/service/maps_service.go:376-420 | Sets to outage the node and what the links put below it, nothing else, and records exactly those |
| Outages.MapsService.ResolveOutage | BE/internal/service/maps_service.go:474-523 | Only for the tenant's event: the node and the clients below it become ok, each point below a cabinet full, warning from four fifths, or ok by its count, and nothing else changes |
| Outages.MapsService.PropagateOdcOutage | BE/internal/service/maps_service.go:422-450 | The nested loops mark and list exactly the cascade, in order |
| Outages.MapsService.IncrementUsedPorts | BE/internal/repository/odp_repository.go:131-135 | Adds one, or fails on a full point |
| Outages.MapsService.CreateClientLocation | BE/internal/service/maps_service.go:237-278 | Stores the location if the point exists and the client has none; then counts and links it if a port is free, and fails if not; nothing else changes |
| Outages.MapsService.UpdateClientLocation | BE/internal/service/maps_service.go:309-352 | Moves the row, takes one off the old point's count and adds one to the new one's if it has room; fails on an unknown location or point, and on a full point only after the location is stored; the link stays where it was |
| Outages.MapsService.DeleteClientLocation | BE/internal/service/maps_service.go:354-366 | Removes the row and takes one off its point's count, down to zero |
| Outages.MapsService.CreateODP | BE/internal/service/maps_service.go:131-168 | A point without used ports, full exactly if it has none, and its link; fails on an unknown cabinet or a negative count |
| Outages.MapsService.UpdateODP | BE/internal/service/maps_service.go:190-219 | Sets the count and the status it gives, keeps cabinet and used ports; fails on an unknown point or fewer ports than are used |
| Outages.MapsService.DeleteODP | BE/internal/repository/odp_repository.go:119-123 | The point and the locations on it go; links stay |
| Outages.ResolvedFields | BE/internal/service/maps_service.go:474-523 | What a resolution restores, node by node, from the counts and the links alone |
| Placement.StepLinked | BE/internal/service/maps_service.go:237-366 | An operation keeps each location linked below exactly the point it is on if and only if it neither moves one to another point nor stores one on a full point |
| Placement.RunLinked | BE/internal/service/maps_service.go:237-366 | So over every run without such an operation |
| Placement.AffectedArePlaced | BE/internal/service/maps_service.go:452-468 | Then an outage on a point affects exactly the live locations on it |
| Placement.MovedClientIsMissed | BE/internal/service/maps_service.go:341-349 | After a move the client is affected by outages of the point it left and not by those of its own |
| OutageRuns.RewrittenIs | BE/internal/service/maps_service.go:376-523 | What a report or a resolution promises determines the tables after it |
| OutageRuns.OutExactly | BE/internal/service/maps_service.go:190-523 | After any report, resolution or map operation a node is out exactly when it was marked, or was out and not cleared by an update of its point or a resolution above it; new nodes start well |
| OutageRuns.ReportedStaysOut | BE/internal/service/maps_service.go:376-523 | Over every run after a report, what existed below the node stays out unless cleared or removed |
| OutageRuns.OverlapClears | BE/internal/service/maps_service.go:474-523 | Resolving the outage of a point clears it although its cabinet's outage goes on |
| VoucherAuth.AcceptMeaning | BE/internal/http/handler/radius_handler.go:94-160 | An accept is strictly before the expiry, of an active or used voucher, leaves it used with the fresh expiry its package gives, and touches nothing else |
| VoucherAuth.AcceptExactly | BE/internal/http/handler/radius_handler.go:94-160 | With ordered clock readings and a name without outer spaces, exactly when a request is accepted: active or used without active session, before the expiry, and the password, if the voucher has one, equal up to outer spaces |
| VoucherAuth.AcceptFields | BE/internal/http/handler/radius_handler.go:94-160 | For any name and readings, exactly when a request is accepted, in the fields of the two vouchers and the sessions |
| VoucherAuth.OuterSpacesConsumeAnother | BE/internal/service/voucher_service.go:780-857 | With outer spaces the voucher validated and the one consumed can differ |
| VoucherAuth.ReuseNeedsNoSession | BE/internal/service/voucher_service.go:796-807 | For a name without outer spaces, over every run that keeps its voucher, a used voucher is accepted only while no session opened under its name is active |
| VoucherAuth.ReuseWhileOpen | BE/internal/http/handler/radius_handler.go:94-160 | A used voucher is accepted while a session opened under its own name is active if and only if the name has outer spaces, its own expiry has not come, and the trimmed name's voucher is active, unexpired and has the password |
| VoucherAuth.RunKeepsTied | BE/internal/http/handler/radius_handler.go:380-451 | Over every run that keeps the trimmed name's voucher, every session opened under a name belongs to that voucher |
| VoucherAuth.SpacedNameReused | BE/internal/http/handler/radius_handler.go:380-385 | A run from the empty store after which a used voucher with an outer space is accepted again at any time during its session |
| VoucherAuth.RecreatedVoucherReused | BE/internal/service/voucher_service.go:746-776 | From a used voucher with an active session: after deletion, recreation and an accept it is used and accepted again during that session |
| VoucherAuth.RejectMeaning | BE/internal/service/voucher_service.go:787-794 | A reject changes nothing, except that a voucher past its expiry is marked expired |
| VoucherAuth.RunStatus | BE/internal/service/voucher_service.go:560-587 | Over every run without its deletion, expired is absorbing and used never returns to active or revoked |
| VoucherAuth.PastExpiryNeverAccepted | BE/internal/repository/voucher_repository.go:258-276 | Over every run with a clock that never goes back, a voucher whose expiry is reached is never accepted again and keeps its expiry |
| VoucherAuth.AcceptedSomewhere | BE/internal/http/handler/radius_handler.go:94-160 | Accepted in a run means: some request for the voucher is accepted by the store the operations before it have left |
| VoucherAuth.BusyNeverAccepted | BE/internal/repository/radius_repository.go:131-142 | A used voucher with an active session is not accepted until a Stop of that session |
| VoucherAuth.RadiusServer.ValidateVoucherForAuth | BE/internal/service/voucher_service.go:780-815 | Finds the trimmed code's voucher if and only if it is unexpired and active, or used without active session; expires a passed one |
| VoucherAuth.RadiusServer.ConsumeVoucherAtomic | BE/internal/repository/voucher_repository.go:251-298 | Consumes if and only if used or active and not expired by SQL's clock |
| VoucherAuth.RadiusServer.ConsumeVoucherForAuth | BE/internal/service/voucher_service.go:820-857 | The pre-check and the guarded update together, with the package's duration |
| VoucherAuth.RadiusServer.HandleAuth | BE/internal/http/handler/radius_handler.go:94-160 | Accepts if and only if the trimmed name's voucher is unexpired, active or used without active session, and has no password or the given one, and the name's own voucher can be consumed; an accept rewrites exactly that voucher's status, use and expiry, a reject changes nothing but a passed voucher's status, and sessions stay |
| VoucherAuth.RadiusServer.HandleAcct | BE/internal/http/handler/radius_handler.go:375-457 | A new session gets the name and the trimmed name's voucher, an existing one keeps both; it is active exactly unless the record is a Stop; no other session changes |
| VoucherAuth.RadiusServer.ToggleVoucherStatus | BE/internal/service/voucher_service.go:560-587 | Swaps active and revoked of that voucher and refuses, unchanged, everything else |
| VoucherAuth.RadiusServer.FlipIsolate | BE/internal/repository/voucher_repository.go:300-320 | Flips the isolated flag and nothing else |
| VoucherAuth.RadiusServer.CreateVoucher | BE/internal/service/voucher_service.go:341-363 | A new voucher is active, unused and not isolated; a code the tenant has is refused |
| VoucherAuth.RadiusServer.DeleteVoucher | BE/internal/service/voucher_service.go:746-757 | The voucher goes, its sessions stay without it |
| MessageLog.List | BE/internal/repository/wa_log_repository.go:138-218 | The page is the top rows of those that match below the cursor, in descending order; the next cursor is its last row |
| MessageLog.PageMeans | BE/internal/repository/wa_log_repository.go:147-184 | What a page is, column by column: the tenant's rows passing every filter, before the cursor by creation time and then id, newest first, and none left out that comes before its end |
| MessageLog.PageSplits | BE/internal/repository/wa_log_repository.go:171-176 | What matches below the next cursor is exactly what the page left out |
| MessageLog.ReadingReturns | BE/internal/repository/wa_log_repository.go:171-217 | Any reading, finished or not, has returned rows in descending order, none twice, all matching |
| MessageLog.ReadingEnds | BE/internal/repository/wa_log_repository.go:212-217 | However rows arrive, a reading has at most one read more than there are matching rows at the start or arrived late |
| MessageLog.WalkReturns | BE/internal/repository/wa_log_repository.go:171-217 | A finished walk has returned, in descending order, exactly the rows there at the start and those that arrived below the cursor in time |
| MessageLog.WalkFromStart | BE/internal/repository/wa_log_repository.go:171-217 | It returns every row there at the start once, and nothing else if and only if no matching row arrived late |
| MessageLog.NewerRowsAreNotLate | BE/internal/repository/wa_log_repository.go:171-185 | Rows newer than everything already there are never late |
| MessageLog.WalkLength | BE/internal/repository/wa_log_repository.go:212-217 | With nothing arriving late, any reading takes at most one read per page and one that is empty, and it is finished exactly when it has taken those |
| Features.ResolveHas | BE/internal/service/feature_resolver.go:35-73 | The early-return sequence decides as the precedence of global, tenant, addon and plan says |
| Features.HasMeans | BE/internal/service/feature_resolver.go:35-73 | The precedence in the data: a disabled global toggle, the tenant's toggle, an unexpired feature addon, the plan or its wildcard |
| Features.GetAllFeatures | BE/internal/service/feature_resolver.go:96-147 | The overriding loops, read at any code with default false, are Resolved at that code |
| Features.EnterPlan | BE/internal/service/feature_resolver.go:100-113 | The plan loop enters what precedes the first wildcard, and every known code from there |
| Features.AgreesExactly | BE/internal/service/feature_resolver.go:35-147 | Batch and single form disagree on a code exactly when only the plan decides it, the plan has a wildcard, does not list the code before it, and the code is not known |
| Features.WildcardDisagrees | BE/internal/service/feature_resolver.go:100-113 | Such a plan and code |
| Features.AgreesOnKnownCodes | BE/internal/service/feature_resolver.go:150-198 | They agree on every code of a plan without wildcard and on every known code of any plan |
| Features.PlanCodesAreKnown | BE/migrations/000004_create_plans.up.sql:51-79 | Every code a plan of the catalogue lists is a known code |

## Left out

- CampaignSystem.System.ListFailedRecipients: which rows a listing over the limit leaves out is not fixed; it goes by creation time, and one batch inserts all recipients of a campaign.
- Concurrency other than the campaign protocol: billing, vouchers, ports and maps are modelled one call at a time.
- Statements that fail (other than by a constraint named above), connection loss and a crash of a worker: every step succeeds; asynq's redelivery is an action of its own.
- Message logs of a campaign handler and its jitter: they do not touch the campaign tables.
- The campaign row and its recipients are inserted by one action: no task exists between the two statements.
- The order in which one service call enqueues its tasks is left open in the transition system, which allows more runs than the loop does.
- Several worker processes: the limiter is one per process, as its own comment says.
- 64-bit wrap-around of counters, amounts and rates, and `strconv.Atoi`'s range error.
- Time zones and daylight saving: one local civil calendar. A job or a generation reads the clock once, where the source reads it in each function.
- Tax as a percentage of the subtotal and the conversion of package prices: the tax amount and the price are parameters.
- GetOverdueInvoices: only that it lists pending invoices is used; who marks them is the caller's choice.
- The job's log counters for created, skipped and failed clients.
- Tables that change while a job runs, deleted tenants and clients, and ties of creation times in its paging.
- Text of cursor timestamps, case-insensitive matching of the log search (a test on the text), and changes of rows between pages other than insertion.
- NAS identifiers, addresses, iptables and VPN scripts: whether rules or scripts succeed is a parameter.
- Hard deletion of routers: it only frees ports.
- Deleting cabinets and links; points deleted with their locations are in the runs.
- Profile fields other than the two speeds; text that is not ASCII.
- Sessions of several tenants, package attributes in the reply and the log of attempts. A voucher's package duration is a parameter of the request.
- The disconnection of a deleted voucher's user on its router: the Stop it may cause is an accounting operation of its own.
- Rounding of the capacity percentage: it is computed in real arithmetic.
- HTTP, JSON, authentication, RBAC, router synchronisation, the payment matrix and the front end.
