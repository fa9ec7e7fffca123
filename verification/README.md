# Crowdfunding protocols, modelled and proved

A crowdfunding backend takes card payments through Stripe, keeps donations, subscriptions and
initiatives in Postgres, and books money in a Ledger service. None of the three can be changed
together with another, so its correctness rests on protocols of retries, replays and ordered
writes. This project models those protocols in Dafny and proves what they are for.

| file | what it models |
|---|---|
| `Donations.dfy`, `Webhook.dfy` | the donations table and the payment-intent webhook over it |
| `Payments.dfy`, `PaymentHistory.dfy` | every interleaving of donor requests, inserts, webhook deliveries, redeliveries, failures and crashes, with the webhook's UPDATE and EXISTS probe as two steps; and what an answer says about the run before it |
| `StripeErrors.dfy`, `Cancellation.dfy`, `Sweep.dfy`, `LateSubscription.dfy` | the two ways to cancel a subscription and the webhook's, interleaved; the paged sweep with at most eight cancels in flight under an arbitrary scheduler; a new subscription racing the sweep that closes its initiative |
| `Lifecycle.dfy`, `StaleEdits.dfy` | owner edits, approver decisions and the guarded attribution write, on the stored spelling of a status; first with each edit and decision in one step, then as a read and a later write of every column |
| `SfidFill.dfy`, `SfidSerial.dfy`, `Backfill.dfy`, `SfidExport.dfy` | the b2b_org SFID on a subscription, its Stripe subscription and its Stripe item: the live resolvers and any number of backfills at once; the same when no two of them overlap on a row; one backfill run with its counters; the export of matched domains |
| `LedgerStats.dfy` | recovering gross donations from the Ledger's totals, against the Ledger's own list of signed credits; the sync that stores them |
| `Paging.dfy` | filtered pages with a rewritten total count, and two kinds of client |
| `Sfid.dfy` | the Salesforce ID checksum suffix and the attribution that carries it |
| `Upserts.dfy` | tables filled by INSERT ... ON CONFLICT (id) DO UPDATE, and when a second unique index stops a batch |
| `Migration.dfy`, `MigrationRows.dfy`, `MigrationRuns.dfy`, `MigrationColumns.dfy`, `Mentorships.dfy` | the DynamoDB migration, phase by phase: foreign keys, completeness, which runs complete, what a second run does, what each record arrives with, which initiatives become mentorships |
| `Aggregation.dfy` | merging funding categories and the CSV summary, over one theory of groups |
| `Lists.dfy`, `Options.dfy` | sorting, distinctness, what a filter picks; the option type |

State that the program updates in place is a class field that methods reassign (`DonationRepository`,
`WebhookHandler`, `InitiativeSubscriptions`, `InitiativeService`, `Backfiller`, `Syncer`, `Attribution`,
`Script`). Where several parties write at once, a `World` and a list of `Step`s give every
interleaving: a step that is not enabled when its turn comes does nothing, so a theorem about
`Run(w, steps)` for all `steps` is about all runs. Calls into Stripe, the Ledger, the lookup
service and the database are parameters that may answer anything the theorem does not exclude.

## Assumptions

Each is a `requires`, a guard of a step, or the shape of a definition, and is named where it is used.

- A single SQL statement is atomic. `NoLostSuccessWhenAtomic` alone assumes that an UPDATE and the
  probe after it have nothing between them; `InsertBetweenUpdateAndProbeLosesSuccess` shows why.
- In `Lifecycle` an owner's edit and an approver's decision read and write the initiative in one
  step. `StaleEdits` drops that: `WriteIsAtomicIff` says when a write does what the whole request
  would, and `FreshRunsAreAtomic` that runs of such writes are the runs of `Lifecycle`.
- Stripe remembers an idempotency key for as long as requests with it are made (`OneDonationPerKey`).
- Stripe never bills a subscription it has ended, and a "missing" or "incomplete_expired" answer
  means the subscription cannot be billed (`Cancellation.DeadAfter`). Stripe reports a subscription
  deleted or terminal only if it is.
- In `Sweep` the list that the sweep pages through keeps its order and its rows while the sweep runs;
  `LateSubscription` lets rows appear at any time, and takes the sweep to have read those that were
  there when it began. The Ledger's list of transactions keeps still while a client pages through it.
- uuid5 does not collide, and a uuid4 is new (`Upserts.Uuid`).
- A row under the ID that the migration makes of a user ID was written by the migration, and nothing
  has changed its username or legacy ID since; no statement of the service does (`OwnNames`). The
  unique indexes hold when a run begins (`Indexed`), and the values it writes meet the other column
  constraints (NOT NULL, lengths).

## Where the code and its documentation part

- **A failed payment can be lost.** A `payment_intent.payment_failed` event that arrives before the
  donation is inserted is answered 200, and the donation is inserted and stays pending
  (`FailureBeforeInsertIsLost`; `LostFailureIff` and `FailureAckedHow` say when). Only success
  events wait for their row.
- **A success can be lost to a race.** If the insert commits between the webhook's UPDATE and its
  EXISTS probe, the delivery is answered 200 as already processed while the row is pending. A
  donation never enters succeeded exactly when every UPDATE of a success event for it ran before its
  row was inserted, whatever those events were answered (`NeverEnteredIff`).
- **A late failure undoes a success.** It takes a succeeded donation to failed, and the next
  redelivery of the success posts it to the Ledger again, under the same deduplication key
  (`LateFailurePostsTwice`). A donation's status is that of the last UPDATE to move it (`StatusIsLastMove`).
- **Edits and decisions overwrite what they did not read.** Neither is guarded: an edit can put back
  an old attribution or reopen a published initiative, and a decision can publish a declined one or
  change the attribution of a published one (`StaleEditLosesAttribution`, `StaleEditReopens`,
  `StaleApprovalPublishesDeclined`, `StaleApprovalRevertsAttribution`), or put back a slug that would
  be refused (`StaleEditRestoresSlug`). What survives is that
  nothing is published without an approval (`PublishedWasApprovedAnyway`).
- **Owners can lock a status.** The owner transition table is looked up by the stored spelling, while
  requests are compared ignoring case and stored as spelled: `Hidden` is accepted and can never be
  changed again (`OwnerMayIff`, `OwnerMayStoreMixedCase`, `MixedCaseIsStuck`).
- **The two cancel paths differ.** A 400 naming incomplete_expired is done for the sweep and an error
  for the user's Cancel (`PathsDifferIff`).
- **SFIDs can disagree.** If the lookup ever matches a domain with two SFIDs, whatever they are and
  whenever, there is a run without a single failure in which a live resolver and a backfill overlap
  on a row, and the row, the item and the subscription end up with different SFIDs
  (`ChangedAnswerDisagrees`). They agree in every run if and only if it never does
  (`AlwaysAgreesIff`); and for any answers if no two workers overlap on a row (`ApartWorkersAgree`).
- **A canceled row can become active again.** The status UPDATE of an invoice event is not guarded, so
  an event that comes late or twice takes a canceled row back (`LatePaidInvoiceReactivates`). Nothing
  else does, and Stripe never bills it again (`CanceledRowsStayDead`).
- **A closed initiative can have a billable subscription.** Create reads "published" once, long before
  it asks Stripe. After a decline Stripe may bill exactly the subscriptions whose rows the sweep did
  not find (`ClosedStillBills`, `SubscribedAfterDecline`).
- **The rewritten total does not stop clients from stopping early.** It serves a client that counts the
  rows it has, but that client stops only if no row was dropped before its last page
  (`CountingClientStopsIff`). The frontend compares offset + limit with the total instead, and stops
  early exactly as `FrontendStopsIff` says, losing rows exactly as `FrontendCompleteIff` says;
  `FrontendLosesADonation` is six credits long.
- **An 18-character SFID is taken as it is.** Its checksum is not verified or upper-cased, so the two
  spellings of one record meet only if the long one is spelled right (`SpellingsAgreeIff`).
- **Entities are reclassified too.** The mentorship UPDATE is described as being about projects, but
  any initiative with a goal named mentee and a positive amount matches (`MentorshipIff`,
  `EntityBecomesMentorship`).
- **The migration is not safe to re-run, and may not complete at all.** Its upserts look for conflicts
  on the ID alone, while usernames, legacy IDs, slugs, Jobspring IDs and a goal's initiative and name
  are unique too. A violation rolls back its phase and ends the run. `CompletesIff` says exactly when
  a run completes. Two user IDs with one username, such as `auth0|lewis` and `lewis`, stop it before
  anything is stored (`SameNameAborts`), and so does a user who has signed in to the new service
  before (`NameTakenAborts`); a re-run stops once the service has replaced a migrated goal
  (`ReplacedGoalAborts`), and can stop even if nothing was touched (`SecondRunMayAbort`).
- **Organizations are not idempotent.** What a second run reaches it leaves as it was, except that an
  organization without an ID gets a new UUID in every run (`SecondRun`).

## Model

| member | source | states |
|---|---|---|
| `Donations.InsertReplays` | backend/internal/infrastructure/db/donation_repository.go:135-176 | an insert keeps every row, replaying it any number of times leaves one row for the payment intent, and the replay finds the stored row unchanged |
| `Donations.MoveIsExact` | backend/internal/infrastructure/db/donation_repository.go:178-205 | the webhook's UPDATE touches at most the one row of the payment intent: its status becomes the target, its charge ID the event's unless that is empty, and its other columns stay; a replay changes nothing |
| `Donations.DonationRepository.Create` | backend/internal/infrastructure/db/donation_repository.go:135-176 | an error changes nothing; otherwise the intent has exactly one row and the caller gets that row |
| `Donations.DonationRepository.UpdateByPaymentIntentID` | backend/internal/infrastructure/db/donation_repository.go:178-216 | updated means the row changed, already processed means it was in the status before, not found means there is none: each if and only if |
| `Donations.DonationRepository.SetB2BOrgSFID` | backend/internal/infrastructure/db/donation_repository.go:218-234 | a row without an SFID gets the one given, a stored SFID is never overwritten, and nothing else changes |
| `Webhook.WebhookHandler.HandlePaymentIntentSucceeded` | backend/internal/handler/webhook_handler.go:150-246 | when the row moves, when a missing row is retried, and that the Ledger is posted to exactly when this delivery moved the row of a v2 event that names a user and an initiative: once, with the event's initiative as project, its user, its amount, its charge or else its intent as source, and the row's SFID |
| `Webhook.WebhookHandler.HandlePaymentIntentFailed` | backend/internal/handler/webhook_handler.go:287-310 | the row moves to failed with no charge ID and a missing row is reported as not found |
| `Webhook.WebhookHandler.Dispatch` | backend/internal/handler/webhook_handler.go:96-148 | 200 exactly when nothing more is expected of the delivery, else 500; the row moves as the handlers say, and the one post of a delivery that moved a v2 success has that event's fields, column by column, and no other delivery posts |
| `Webhook.LostFailureIff` | backend/internal/handler/webhook_handler.go:163-310 | for every event, an acknowledged delivery leaves its row out of its status exactly when the row is not inserted yet and the event does not wait for it, as no failure event does; the insert after it leaves the donation pending |
| `Payments.RunKeepsInv` | backend/internal/service/donation_service.go:202-388 | over every run one row per payment intent, one intent per idempotency key, and books that balance |
| `PaymentHistory.DecidedHow` | backend/internal/infrastructure/db/donation_repository.go:186-215 | over every run, a delivery decided for 200 had its UPDATE move the row, or its UPDATE move nothing and, later and still undisturbed, its probe find a row or an event that waits for none |
| `PaymentHistory.NoLostSuccess` | backend/internal/handler/webhook_handler.go:121-190 | a v2 success answered 200 had its row moved to succeeded, or the service acknowledges blindly, or its own probe found no row when the event was past a positive window at that moment, or the row was inserted between its own UPDATE and its own probe |
| `PaymentHistory.NeverEnteredIff` | backend/internal/infrastructure/db/donation_repository.go:186-196 | over every run and whatever the answers, a donation never enters succeeded if and only if every success UPDATE for it ran before its row was inserted |
| `PaymentHistory.AtomicUpdatesNeverRace` | backend/internal/infrastructure/db/donation_repository.go:186-215 | in runs in which each probe directly follows its UPDATE nothing is inserted between them |
| `PaymentHistory.NoLostSuccessWhenAtomic` | backend/internal/handler/webhook_handler.go:121-190 | then, with a zero window and no blanket acknowledgement, 200 means moved |
| `PaymentHistory.InsertBetweenUpdateAndProbeLosesSuccess` | backend/internal/infrastructure/db/donation_repository.go:198-215 | the run in which that hypothesis fails: 200, never moved, pending |
| `PaymentHistory.FailureAckedHow` | backend/internal/handler/webhook_handler.go:287-310 | over every run, a failure event answered 200 moved its row, or found it failed, or found no row, or was overtaken between its two statements by an insert or a success |
| `PaymentHistory.FailureBeforeInsertIsLost` | backend/internal/handler/webhook_handler.go:287-310 | the run of the third case: answered 200, then inserted as pending |
| `PaymentHistory.StatusIsLastMove` | backend/internal/infrastructure/db/donation_repository.go:186-196 | after any run a donation's status is that of the last event whose UPDATE moved it, or pending |
| `Payments.PostingBooks` | backend/internal/handler/webhook_handler.go:163-246 | over every run Ledger posts never exceed entries into succeeded; the difference is deliveries in between or crashed, and events never posted; entries exceed exits by whether the row is succeeded |
| `Payments.EveryEntryPosted` | backend/internal/handler/webhook_handler.go:195-246 | with every delivery answered and complete v2 metadata, posts equal entries into succeeded |
| `Payments.EveryPostIsTrue` | backend/internal/handler/webhook_handler.go:195-246 | over every run, every post has project, user, amount and source of the event of a delivery that moved its row, and an SFID, if any, that is the row's |
| `Payments.EveryRowIsAsked` | backend/internal/service/donation_service.go:202-388 | over every run, every row's amount was asked for by a request with its payment intent, and its charge ID, if any, is the intent's or that of an event that moved the row |
| `PaymentHistory.AtMostOnePost` | backend/internal/handler/webhook_handler.go:163-246 | a donation that no failure event finds succeeded is posted at most once, however often it is delivered |
| `PaymentHistory.LateFailurePostsTwice` | backend/internal/handler/webhook_handler.go:163-310 | the run in which one does, and the donation is posted twice with one deduplication key |
| `Payments.RowsOnlyGrow` | backend/internal/infrastructure/db/donation_repository.go:139-196 | no step removes a row, changes whose it is, empties its charge ID or changes its SFID, and only the webhook changes a status |
| `Payments.OneDonationPerKey` | backend/internal/service/donation_service.go:348-385 | two finished requests share a row if and only if they share an idempotency key |
| `Payments.UndisturbedIsDispatch` | backend/internal/handler/webhook_handler.go:96-246 | a delivery run without interference does to rows, posts and answer what the handler's contract says: the step machine and the code agree |
| `Payments.RetryConverges` | backend/internal/handler/webhook_handler.go:174-190 | redelivered once its row exists, a success is answered 200 and its row is succeeded |
| `Cancellation.PathsDifferIff` | backend/internal/service/subscription_service.go:380-400 | both paths proceed only when Stripe cannot bill the subscription, and part on exactly one kind of error |
| `Cancellation.NeverCanceledYetBillable` | backend/internal/service/subscription_service.go:345-360 | over every interleaving of user cancels, sweeps, webhooks, creations and Stripe's own endings, no row says canceled while Stripe can bill it |
| `Cancellation.NextKeepsInv` | backend/internal/handler/webhook_handler.go:472-521 | each step keeps that, and keeps every cancel past its Stripe call dead in Stripe |
| `Cancellation.EventMarks` | backend/internal/handler/webhook_handler.go:472-521 | a deletion, or an update with a cancellation time and a status canceled or incomplete_expired, marks every row of its subscription canceled and no other; other events mark none |
| `Cancellation.CancelMarks` | backend/internal/service/subscription_service.go:345-400 | a cancel that Stripe accepts, or whose error its caller tolerates, ends with exactly its row marked and its subscription not billable |
| `Cancellation.CanceledRowsStayDead` | backend/internal/handler/webhook_handler.go:333-344 | over every run a canceled row leaves that status only by an invoice event for its subscription, and Stripe never bills that again |
| `Cancellation.LatePaidInvoiceReactivates` | backend/internal/handler/webhook_handler.go:333-344 | the run in which one does |
| `Sweep.SequentiallyMeans` | backend/internal/service/initiative_service.go:1124-1146 | canceling rows one after the other marks exactly those rows and ends exactly the live Stripe IDs among them |
| `Sweep.AdvanceProgress` | backend/internal/service/initiative_service.go:1122-1149 | each move of any schedule keeps at most eight cancels in flight and every row where its own cancel has got to, and uses up work |
| `Sweep.AnyScheduleIsSequential` | backend/internal/service/initiative_service.go:1117-1152 | any schedule that ends without error leaves the rows and Stripe as canceling in sequence does |
| `Sweep.InitiativeSubscriptions.RunPage` | backend/internal/service/initiative_service.go:1122-1149 | a page ends; rows change only to canceled and only when dead in Stripe; without failure it succeeds |
| `Sweep.InitiativeSubscriptions.CancelAll` | backend/internal/service/initiative_service.go:1111-1153 | success over any number of rows, multiples of 100 included, means every row canceled and dead; failure leaves no false row; a later sweep without failure finishes |
| `Sweep.PageJoins` | backend/internal/service/initiative_service.go:1117-1152 | page after page is the whole list in sequence |
| `LateSubscription.ClosedStillBills` | backend/internal/service/subscription_service.go:157-303 | in every run of creations around sweeps Stripe may bill a closed initiative's subscriptions exactly when their rows were not there when the sweep listed them: none if and only if every Create that got one had inserted it by then |
| `LateSubscription.ListedThen` | backend/internal/service/initiative_service.go:1117-1153 | the listed rows are those of the moment the last sweep began |
| `LateSubscription.ClosedRefuses` | backend/internal/service/subscription_service.go:157-180 | over every run from a closed initiative no Create gets past its check |
| `LateSubscription.SubscribedAfterDecline` | backend/internal/service/subscription_service.go:157-303 | the run in which a declined initiative gets a billable subscription |
| `Lifecycle.ValidateOwnerStatusTransition` | backend/internal/service/initiative_service.go:1162-1181 | accepts a known status found, ignoring case, under the stored spelling, and so exactly the five listed pairs of stored status and request |
| `Lifecycle.OwnerMayIff` | backend/internal/service/initiative_service.go:1155-1181 | which is the documented five transitions ignoring case, if and only if the stored status is in lower case |
| `Lifecycle.InitiativeService.Update` | backend/internal/service/initiative_service.go:779-917 | the status changes only by an allowed request, and by every one if nothing fails; declined or hidden is stored only once every subscription is dead and marked; a refused or failed edit leaves the status; the result is that of the lifecycle's step |
| `Lifecycle.InitiativeService.ProcessApproval` | backend/internal/service/initiative_service.go:1021-1068 | a submitted or pending initiative, in any case, becomes published by approve and declined by decline whenever nothing fails, and no other is decided; a decline is stored only once every subscription is dead and marked; the result is that of the lifecycle's step |
| `Lifecycle.FoldMeans` | backend/internal/domain/models/initiative.go:43-55 | two spellings are the same status exactly when they have the same letters, in either case or as one of the two characters beyond ASCII that fold to one |
| `Lifecycle.ParseMeans` | backend/internal/domain/models/initiative.go:79-87 | an action is read in any case with any blanks around it |
| `Lifecycle.SpacedActionParses` | backend/internal/service/initiative_service.go:1027-1053 | but acted on as it was given: such an action is accepted and decides nothing |
| `Lifecycle.InitiativeService.WriteAttribution` | backend/internal/infrastructure/db/initiative_repository.go:983-1009 | the attribution is written if and only if the status is submitted when the write happens |
| `Lifecycle.StepRules` | backend/internal/service/initiative_service.go:1039-1053 | each step keeps the invariant, never re-enters submitted, never leaves declined |
| `Lifecycle.PublishedWasApproved` | backend/internal/service/initiative_service.go:1021-1068 | in every run from creation published or hidden implies an earlier approval |
| `Lifecycle.LeavingSubmittedIsFinal` | backend/internal/service/initiative_service.go:944-995 | after an initiative leaves submitted it never returns, and its attribution never changes, not even by a request that read it before |
| `Lifecycle.EveryChangeIsListed` | backend/internal/service/initiative_service.go:1155-1181 | every status change of every run is one of the five owner pairs or a decision on a reviewable initiative |
| `Lifecycle.MixedCaseIsStuck` | backend/internal/service/initiative_service.go:1162-1181 | a decided status not in lower case never changes again in any run |
| `Lifecycle.OwnerMayStoreMixedCase` | backend/internal/service/initiative_service.go:779-785 | and an owner can store one |
| `StaleEdits.WriteIsAtomicIff` | backend/internal/infrastructure/db/initiative_repository.go:503-530 | an edit or decision that was read earlier leaves status, attribution, editor and every other column the UPDATE sets as the whole request run at the write would, if and only if attribution and the columns it does not set are as it read them, the status is, or is one from which it leads to the same place, and a slug it sets is well formed or the one in the row |
| `StaleEdits.AtomicMeans` | backend/internal/service/initiative_service.go:737-917 | a whole request leaves the columns, status and editor it names, and every other column as it was |
| `StaleEdits.WriteMeans` | backend/internal/infrastructure/db/initiative_repository.go:727-760 | a held one leaves the attribution, and the columns it does not name, as they were when it was read |
| `StaleEdits.SourcesOf` | backend/internal/service/initiative_service.go:1167-1181 | two statuses share an owner transition only as the two sources of declined |
| `StaleEdits.FreshRunsAreAtomic` | backend/internal/service/initiative_service.go:737-917 | runs with only such writes end with the row of the atomic run that has each request at its write |
| `StaleEdits.FreshRunsKeepTheRules` | backend/internal/service/initiative_service.go:944-1055 | so in them leaving submitted is final, attribution then fixed, declined terminal |
| `StaleEdits.PublishedWasApprovedAnyway` | backend/internal/service/initiative_service.go:1021-1068 | in all runs, stale or not, published or hidden implies an approval |
| `StaleEdits.StaleEditLosesAttribution` | backend/internal/infrastructure/db/initiative_repository.go:744-756 | a run in which an edit puts back the attribution an accepted request had changed |
| `StaleEdits.StaleApprovalPublishesDeclined` | backend/internal/service/initiative_service.go:1031-1062 | a run in which a declined initiative is published |
| `StaleEdits.StaleApprovalRevertsAttribution` | backend/internal/service/initiative_service.go:1031-1062 | a run in which the attribution of a published initiative changes |
| `StaleEdits.StaleEditRestoresSlug` | backend/internal/service/initiative_service.go:769-778 | a run in which an edit puts back a slug that the same request would be refused |
| `StaleEdits.StaleEditReopens` | backend/internal/service/initiative_service.go:737-917 | a run in which an edit that names no status puts a published initiative back to submitted |
| `SfidFill.FindCurrentItem` | backend/cmd/b2b-org-backfill/stripe.go:44-57 | the stored item if the subscription still has it, else one of its items |
| `SfidFill.StripeFirst` | backend/internal/service/subscription_service.go:305-313 | over every interleaving and failure a row has an SFID only if Stripe accepted one on the subscription and an item (no item only if none is stored), or the subscription cannot renew |
| `SfidFill.StepKeepsInv` | backend/cmd/b2b-org-backfill/backfill.go:95-132 | each step keeps that for rows and for every worker about to store |
| `SfidFill.StoredIsKept` | backend/cmd/b2b-org-backfill/store.go:73-80 | a stored SFID never changes in any run |
| `SfidFill.FilledRowsAgreeWithStripe` | backend/internal/infrastructure/clients/stripe_client.go:613-632 | if the lookup has no two answers for a domain, every filled row, its subscription and its items hold the same SFID after any run |
| `SfidFill.ChangedAnswerDisagrees` | backend/cmd/b2b-org-backfill/stripe.go:33-41 | for any two answers to one domain at any two times, a run with no failure in which the three disagree |
| `SfidFill.AlwaysAgreesIff` | backend/internal/service/b2b_org.go:22-42 | so the three agree in every run if and only if no domain has two answers |
| `SfidExport.FilledDonationsAgree` | backend/internal/service/donation_service.go:373-375 | under that condition every filled donation holds its domain's answer, after any run of live resolvers and backfills |
| `SfidExport.WriteMatches` | backend/cmd/b2b-org-backfill/store.go:121-140 | one line for each domain with one SFID, the others returned, none of either lost |
| `SfidExport.PairsMean` | backend/cmd/b2b-org-backfill/store.go:82-113 | a domain and an SFID are a pair of the query exactly when a donation or a subscription has both |
| `SfidExport.ExportMeans` | backend/cmd/b2b-org-backfill/store.go:82-113 | a domain is written with f if and only if f is the one SFID of its filled rows in both tables, and returned if and only if they have several |
| `SfidExport.ExportLeavesOutNone` | backend/cmd/b2b-org-backfill/store.go:82-113 | under that condition nothing is returned, and every matched domain of either table is written with the SFID of all its filled rows |
| `SfidSerial.ApartWorkersAgree` | backend/internal/service/subscription_service.go:305-313 | for any answers and failures, if no backfill starts on a row another worker is at, every filled row that Stripe bills holds the SFID of its subscription and of its current item |
| `SfidSerial.StepKeepsSerialInv` | backend/cmd/b2b-org-backfill/stripe.go:20-42 | each step keeps that for rows, and for each worker what it has patched so far |
| `Backfill.UnmatchedDomains` | backend/cmd/b2b-org-backfill/store.go:19-41 | each domain with an unfilled row, once |
| `Backfill.UnmatchedMeans` | backend/cmd/b2b-org-backfill/store.go:53-71 | the listed subscriptions are the domain's unfilled ones, each once |
| `Backfill.ConvergedMeans` | backend/cmd/b2b-org-backfill/backfill.go:60-91 | what it means to have converged: every donation and subscription of a matched domain is filled |
| `Backfill.FilledGiftsCount` | backend/cmd/b2b-org-backfill/store.go:43-51 | the count returned is the drop in unfilled donations |
| `Backfill.Backfiller.PatchLiveSubscription` | backend/cmd/b2b-org-backfill/stripe.go:20-42 | live means item and subscription hold the SFID; not live means ended and untouched; an error leaves at most the item patched, never the subscription alone |
| `Backfill.ClearedMeans` | backend/cmd/b2b-org-backfill/backfill.go:111-133 | the four reasons in columns, the last with the row's own item if the subscription has it |
| `Backfill.Backfiller.PatchStripe` | backend/cmd/b2b-org-backfill/backfill.go:111-133 | the row is to be filled only if it is canceled, or has no Stripe ID, or Stripe ended its subscription, or its metadata and its item's carry the SFID; the counter raised says which; what it asks of Stripe is what the worker of `SfidFill` asks |
| `Backfill.Backfiller.FillSubscriptions` | backend/cmd/b2b-org-backfill/backfill.go:93-106 | every listed row is filled, excused by one of those four reasons, or counted as a Stripe failure |
| `Backfill.Backfiller.Run` | backend/cmd/b2b-org-backfill/backfill.go:60-109 | fills only with the row's own match, and a subscription only if it is canceled, has no Stripe ID, was ended or carries that SFID in Stripe; partitions domains and subscriptions among the counters, changes nothing on a dry run, leaves only Stripe failures behind; without failures it converges if and only if every subscription it is to fill that Stripe may still bill has an item, and then changes nothing |
| `LedgerStats.MapBalance` | backend/cmd/ledger-stats-sync/syncer.go:169-232 | the stored sponsors are exactly the raw ones with an ID, in order, with their own IDs and totals and the Ledger's or the profile's name; supporters counts the distinct IDs with a positive total among them; raised and debited are as `GrossRecovery` takes them |
| `LedgerStats.EnrichedMeans` | backend/cmd/ledger-stats-sync/syncer.go:234-268 | each raw sponsor with an ID is kept in its place, with its ID, its total, and a name and avatar from the Ledger or the profile |
| `LedgerStats.GrossRecovery` | backend/cmd/ledger-stats-sync/syncer.go:156-203 | against one list of signed credits: total ≤ raised ≤ sum of positive credits, the latter reached if and only if nothing is positive, or no sponsor mixes signs and no unattributed credit is negative |
| `LedgerStats.NetIsKeptIff` | backend/cmd/ledger-stats-sync/syncer.go:174-208 | raised minus debited is total minus the absolute debit exactly when raised is not clamped |
| `LedgerStats.ClampedOnlyByNobody` | backend/cmd/ledger-stats-sync/syncer.go:196-203 | clamping needs a negative unattributed credit |
| `LedgerStats.ManyPayers` | backend/cmd/ledger-stats-sync/syncer.go:184-199 | adding back negative sponsor totals never overshoots the sponsors' positive credits, and meets them exactly when none mixes signs |
| `LedgerStats.FlattenSponsors` | backend/internal/service/initiative_service.go:174-204 | exactly the donors, each once, in descending order, none without a positive total, and no person with an ID |
| `LedgerStats.DonorsMeans` | backend/internal/service/initiative_service.go:174-204 | its donors are the sponsors with a positive total, each once |
| `LedgerStats.ListMeans` | backend/internal/service/initiative_service.go:174-204 | an organization is listed with its ID, a person without, both with an avatar |
| `LedgerStats.SupportersAtMostListed` | backend/cmd/ledger-stats-sync/syncer.go:211-231 | the supporter count is at most the length of that list, with equality exactly when no donor ID repeats |
| `LedgerStats.BuildBalanceIndex` | backend/cmd/ledger-stats-sync/syncer.go:109-120 | the index agrees with a scan for the last balance of each non-empty project ID |
| `LedgerStats.BalanceForMeans` | backend/cmd/ledger-stats-sync/syncer.go:109-120 | of several balances of one project it is the last |
| `LedgerStats.Syncer.Run` | backend/cmd/ledger-stats-sync/syncer.go:50-107 | fails exactly when one of its reads or its write does, and then changes nothing; otherwise total is matched plus skipped, matched is upserted, and exactly the active initiatives with a balance get the statistics of their last one |
| `Paging.FetchTransactions` | backend/internal/infrastructure/clients/ledger.go:195-268 | the page asked of the Ledger, with the defaults for bad limits and offsets |
| `Paging.PageMeans` | backend/internal/infrastructure/clients/ledger.go:195-268 | page p holds the rows from limit * (p - 1) up to the next page or the end |
| `Paging.AlignedOffset` | backend/internal/infrastructure/clients/ledger.go:195-214 | the offset to page conversion is exact for every multiple of the limit |
| `Paging.KeepInPlace` | backend/internal/service/initiative_service.go:1296-1303 | filtering over the page's own array keeps exactly the surviving rows in order and leaves the tail alone |
| `Paging.KeptPicks` | backend/internal/service/initiative_service.go:1296-1303 | what is kept is at increasing positions of the page, exactly those whose row survives |
| `Paging.GetTransactions` | backend/internal/service/initiative_service.go:1274-1316 | donations are those of the page that have a positive amount and match, each as often as in the page and in its order, with the rewritten total; other types are passed on |
| `Paging.GetCategoryTransactions` | backend/internal/service/initiative_service.go:1322-1376 | organizations are the page's matching positive rows of organizations, individuals its others, each as often as in the page and in its order, with the total for both |
| `Paging.TotalTellsMore` | backend/internal/service/initiative_service.go:1476-1488 | the total exceeds offset + kept exactly while the Ledger has more pages |
| `Paging.LoadedSoFar` | backend/internal/service/initiative_service.go:1292-1306 | after any number of pages a client has each kept row so far exactly once, in order |
| `Paging.CountingClientIsComplete` | backend/internal/service/initiative_service.go:1476-1488 | a client that pages while it has fewer rows than the total has every kept row exactly once when it stops |
| `Paging.CountingClientStopsIff` | backend/internal/service/initiative_service.go:1476-1488 | it stops exactly at its last page and only if no earlier row was dropped |
| `Paging.FrontendStopsIff` | frontend/app/composables/initiatives/useInitiativeTransactions.ts:22-25 | the frontend stops at the last page and at every page that kept something and dropped at least as many rows as are left |
| `Paging.FrontendCompleteIff` | frontend/app/composables/initiatives/useInitiativeTransactions.ts:22-25 | it ends with every kept row exactly once if and only if no such page has a kept row beyond it |
| `Paging.FrontendLosesADonation` | frontend/app/composables/initiatives/useInitiativeTransactions.ts:9-25 | six credits, one of them a disbursement, of which it never shows the last donation |
| `Sfid.CanonicalSFID` | backend/internal/domain/models/initiative.go:166-186 | the loops over bits compute the checksum suffix |
| `Sfid.MaskBits` | backend/internal/domain/models/initiative.go:176-184 | each bit of a chunk's index is the case of one letter |
| `Sfid.SuffixMeans` | backend/internal/domain/models/initiative.go:166-186 | the three characters are the chunks' numbers, as upper-case letters and then digits |
| `Sfid.SurvivesCaseFolding` | backend/internal/domain/models/initiative.go:166-186 | from any case variant of the 18-character form the 15-character ID is recovered |
| `Sfid.NeverCollides` | backend/internal/domain/models/initiative.go:166-170 | so IDs that differ only by case stay different after folding |
| `Sfid.CanonicalTwice` | backend/internal/domain/models/initiative.go:188-197 | canonicalizing twice changes nothing |
| `Sfid.Attribution.Validate` | backend/internal/domain/models/initiative.go:211-251 | which attributions are accepted and the spelling stored for each |
| `Sfid.AcceptedIsStable` | backend/internal/domain/models/initiative.go:199-251 | what was stored is accepted again unchanged |
| `Sfid.SpellingsAgreeIff` | backend/internal/domain/models/initiative.go:150-186 | the two spellings of a record become one entity exactly when the long one has the right checksum |
| `Upserts.UpsertTwice` | backend/db/scripts/migrate_dynamo_to_postgres.py:41-53 | upserting the same rows again changes nothing, whatever was there, even with repeated IDs and columns kept from the first |
| `Upserts.ExecutedIsUpserted` | backend/db/scripts/migrate_dynamo_to_postgres.py:351-357 | a batch that no unique index aborts leaves the upserted table, with its unique indexes intact |
| `Upserts.ExecutedWritesIff` | backend/db/scripts/migrate_dynamo_to_postgres.py:946-977 | a batch with unique indexes on overwritten columns completes if and only if no row brings a value that another ID holds when its turn comes |
| `Upserts.ExecutedInsertsIff` | backend/db/scripts/migrate_dynamo_to_postgres.py:989-1007 | a batch with a unique index on kept columns completes if and only if no row inserts ones that another ID has |
| `Migration.Script.MigrateUsers` | backend/db/scripts/migrate_dynamo_to_postgres.py:292-357 | the table becomes the batch of users and placeholders in whatever order these come, unless a username or legacy ID aborts it and it stays; every non-empty user ID becomes known |
| `Migration.Script.CollectPlaceholders` | backend/db/scripts/migrate_dynamo_to_postgres.py:1500-1517 | the placeholders are the referenced IDs the users table lacks |
| `Migration.Script.MigrateOrganizations` | backend/db/scripts/migrate_dynamo_to_postgres.py:365-407 | organizations of known owners, with a new UUID where none is given |
| `Migration.Script.MigrateInitiatives` | backend/db/scripts/migrate_dynamo_to_postgres.py:428-919 | initiatives and goals are upserted with created_on kept, and then reclassified; nothing changes if a slug, a Jobspring ID or a goal's initiative and name aborts the phase |
| `Migration.Script.Migrate` | backend/db/scripts/migrate_dynamo_to_postgres.py:1473-1580 | a whole run, phase by phase up to the first that is aborted |
| `Migration.Script.BuildPledgeRows` | backend/db/scripts/migrate_dynamo_to_postgres.py:1258-1324 | a donation or subscription is skipped only for an unknown user or initiative, and an unknown organization becomes NULL |
| `MigrationRuns.CompletesIff` | backend/db/scripts/migrate_dynamo_to_postgres.py:1527-1580 | a run completes if and only if no two known users become one username, no other stored user holds a known user's, no initiative brings a slug or a Jobspring ID that another holds when its turn comes, and no goal is inserted for an initiative and name that another goal ID has; otherwise only the phases before the failing one are kept |
| `MigrationRuns.UsersCompleteIff` | backend/db/scripts/migrate_dynamo_to_postgres.py:309-356 | its first part, for any users, placeholders and order of these |
| `MigrationRuns.SameNameAborts` | backend/db/scripts/migrate_dynamo_to_postgres.py:211-222 | `auth0|lewis` and `lewis` in one source: nothing is stored |
| `MigrationRuns.NameTakenAborts` | backend/db/migrations/001_initial.up.sql:35-48 | nor is anything when another row holds a known user's username |
| `MigrationRuns.ReplacedGoalAborts` | backend/db/migrations/001_initial.up.sql:118-133 | for any run that completed, a run after the service has replaced one of the goals it inserted does not complete |
| `MigrationRuns.OrdersAgree` | backend/db/scripts/migrate_dynamo_to_postgres.py:345-350 | in whatever order the placeholders come, the users are the same |
| `MigrationRuns.SecondRun` | backend/db/scripts/migrate_dynamo_to_postgres.py:41-53 | after a run that completed, a second one changes no table but the organizations, and those exactly when a migrated one has no ID; it completes exactly when no initiative brings a slug or Jobspring ID that another now holds, and so when each initiative's rows bring one of each |
| `MigrationRuns.SecondRunMayAbort` | backend/db/scripts/migrate_dynamo_to_postgres.py:465-469 | two runs on one source of which only the first completes |
| `MigrationRows.MigrationIsClosed` | backend/db/scripts/migrate_dynamo_to_postgres.py:1260-1321 | a run, completed or not, keeps every foreign key of users, organizations, initiatives, goals, donations and subscriptions |
| `MigrationRows.NoInitiativeSkipped` | backend/db/scripts/migrate_dynamo_to_postgres.py:480-500 | in a run that completes every project and entity with an ID and a named owner is migrated |
| `MigrationColumns.UserArrives` | backend/db/scripts/migrate_dynamo_to_postgres.py:292-357 | in a run that completes a user arrives with ID, username and profile |
| `MigrationColumns.PlaceholderArrives` | backend/db/scripts/migrate_dynamo_to_postgres.py:330-357 | one that is only mentioned, with ID and username |
| `MigrationColumns.UsernameMeans` | backend/db/scripts/migrate_dynamo_to_postgres.py:211-222 | one provider prefix is taken off a username |
| `MigrationColumns.OrgArrives` | backend/db/scripts/migrate_dynamo_to_postgres.py:365-407 | an organization arrives with its owner and its columns |
| `MigrationColumns.ProjectArrives` | backend/db/scripts/migrate_dynamo_to_postgres.py:465-530 | a project with its owner, name, slug, Jobspring ID and data, as a project or a mentorship, with its first created_on |
| `MigrationColumns.EntityArrives` | backend/db/scripts/migrate_dynamo_to_postgres.py:700-840 | an entity likewise, under its own type, which for `initiative` is general fund |
| `MigrationColumns.NoGoalSkipped` | backend/db/scripts/migrate_dynamo_to_postgres.py:533-583 | every goal is emitted with its initiative, name and amount: an entity's all, a project's if they have an amount or a detail |
| `MigrationColumns.SlugsMeet` | backend/db/migrations/011_unique_initiative_slug.up.sql:30 | two initiatives clash exactly in a slug or a Jobspring ID that both have |
| `MigrationRows.NoPledgeSkipped` | backend/db/scripts/migrate_dynamo_to_postgres.py:1260-1321 | and every donation and subscription of a named user to a migrated initiative arrives with its own user, initiative and data, and its organization or NULL |
| `MigrationRows.RowForMeans` | backend/db/scripts/migrate_dynamo_to_postgres.py:1260-1321 | the columns of that row, from the record's |
| `MigrationRows.JoinedApart` | backend/db/scripts/migrate_dynamo_to_postgres.py:158-160 | two (user, target) pairs never share a row ID when targets have no bar |
| `MigrationRows.BarsCollide` | backend/db/scripts/migrate_dynamo_to_postgres.py:158-160 | and can when they have |
| `Mentorships.MentorshipIff` | backend/db/scripts/migrate_dynamo_to_postgres.py:901-911 | after a run that completes a migrated initiative is a mentorship exactly when the source's last word on its mentee goal is a positive amount, or an old goal not written by the run is, or its last record is of that type |
| `Mentorships.GoalRowsMentee` | backend/db/scripts/migrate_dynamo_to_postgres.py:557-583 | the amount stored for a record's mentee goal is the one the source gives it last |
| `Mentorships.EntityBecomesMentorship` | backend/db/scripts/migrate_dynamo_to_postgres.py:901-911 | an event with such a goal becomes a mentorship |
| `Aggregation.GroupsAddUp` | frontend/server/services/statistics.service.ts:28-46 | the groups' sums add up to the total: nothing lost, nothing counted twice |
| `Aggregation.FirstSeenMeans` | backend/internal/handler/donation_handler.go:230-239 | the order of groups is the order in which each first occurs |
| `Aggregation.LargestMeans` | frontend/server/services/statistics.service.ts:39-42 | the name kept is that of the first variant with the largest amount |
| `Aggregation.MergeFundingCategoriesByName` | frontend/server/services/statistics.service.ts:28-46 | one entry for each normalized name, with its sums and that name, in descending order |
| `Aggregation.TwoVariants` | frontend/server/services/statistics.service.ts:28-46 | two variants in numbers: sums, the first's icon, and the name of the one that raised more or else of the first |
| `Aggregation.MergingConserves` | frontend/server/services/statistics.service.ts:22-27 | amounts raised, goals and supporters are conserved |
| `Aggregation.SummarizeByOrganization` | backend/internal/handler/donation_handler.go:224-252 | one row for each name in first-seen order, with its count, its cents and the ID of its first donation |
| `Aggregation.TwoDonations` | backend/internal/handler/donation_handler.go:224-252 | two donations in numbers: the first's ID, both counted, their cents added |
| `Aggregation.SummaryConserves` | backend/internal/handler/donation_handler.go:230-239 | the rows hold every donation and every cent once |

## Left out

- UnmatchedDomains: does not state the SQL's ORDER BY; the order of domains changes nothing a run promises.
- NoPledgeSkipped: takes each source table to hold one record for a user and target, as its DynamoDB key makes it, and targets without a bar; `BarsCollide` shows what the latter is for.
- MigrateInitiatives: models the goals and no other child table; those are keyed and upserted the same way, and a clash in the unique keys that two of them have (a program's skills, contact types) would abort the phase as one of goals does; an entity's goal without a name, which the script calls `goal_<index>`, is taken as already named.
- Dispatch: covers the payment-intent events; the subscription events and the invoice events' status write are steps of `Cancellation`, and what else the latter do is stamp a first payment and send mail.
- FlattenSponsors: does not promise an order among equal totals, as slices.SortFunc does not.
- AsUuid: stripping and UUID parsing are parameters, as URL parsing is of Validate.
- ProjectArrives: like UserArrives, OrgArrives and EntityArrives about a record whose ID no other record is migrated under; of several the last is stored (`Upserts.UpsertedAt`).
- CompletesIff: a row's NOT NULL columns and lengths are taken to be met.
- WriteIsAtomicIff: follows updated_by through edits and decisions and not through the attribution route, which sets it too; child tables and the unique index on slugs, which a write may violate on account of another initiative, are not part of the row.
- ClosedStillBills: has no other way for a subscription to end, as any would only remove from what Stripe may bill.
- SecondRun: compares the columns the script writes; `updated_on`, which the database's set_updated_on triggers advance on every UPDATE, is not among them.
- MentorshipIff: takes goal names to have no bar, a project's budgets to have the script's seven names, and no ID to be blank.
- ApartWorkersAgree: takes each Stripe subscription to belong to one row and to keep its items, and Create to store one of them.
- Sorted: is an insertion sort, standing for the library sorts; only what they promise is used.
- Widths of integers: cents and counts are unbounded; the program uses 64 bits and JavaScript numbers, which the amounts involved do not reach.
- DonationService.Create before its insert (tier minimum, organization claims, affiliation) and InitiativeService.Create: input validation and best-effort publishing, with no property over several steps.
- SubscriptionService.Create's replacement of a missing Stripe product: a single retry.
- mentorship-sync and its direct status writes, the Reimbursement Service token cache.
- Grouped: leaves the export query's ORDER BY out, and takes any one of a domain's SFIDs where the query takes the least; a line is only written if there is one.
- GetMyTransactions and GetAllMyTransactions refuse pages with another user's rows; what they do otherwise is GetTransactions.
- Avatars, emails, truncation of Stripe metadata, CSV escaping, dollar formatting, logging and tracing: cosmetic or best-effort.
- HTTP routing, JSON, signatures, authentication, authorization and FGA publishing: handlers start from a parsed event and an authorized caller.
- Inserts concurrent with a backfill run or a migration: `Backfill` and `Migration` have the tables to themselves; `SfidFill` covers new rows and status changes during backfills.
