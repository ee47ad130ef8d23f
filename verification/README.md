# Verified model of the billing service's payment engine

The service takes crypto and card payments for marketplace orders, pays sellers out, and bills stores
for subscriptions. This project models the parts that move or count money, and proves what they keep:

- **Event queue** (`EventQueue.dfy`, `QueueRuns.dfy`, `EventHandling.dfy`, `Processors.dfy`,
  `LateProcessors.dfy`): the
  `event_store` table with its attempt counter, schedule and statuses; the repository as a class whose
  methods change the table row by row; every run of calls; one processor that drains the queue tick by
  tick; and any number of processors under a shared clock, where a processor that is silent for longer
  than the stuck threshold writes no more, or than any other deadline.
- **Payouts** (`Payouts.dfy`, `PayoutRuns.dfy`, `PayoutCompletion.dfy`): the handler of
  `PayoutInitiated` as a sequence of calls, each of which may succeed, fail, or take effect with its
  reply lost, and after each of which the process may die; interleaved in single calls with another
  delivery, or with all other processors of the queue.
- **Amounts** (`Amounts.dfy`, `PgNumerics.dfy`): 128-bit amounts, the base-10000 NUMERIC codec, and the
  conversion between minimal and super units.
- **Invoices** (`ExchangeRates.dfy`, `InvoicePrices.dfy`, `InvoiceLedger.dfy`, `InvoiceCreation.dfy`,
  `InvoiceService.dfy`, `InvoiceRaces.dfy`): the rates of orders, the price of an invoice, the refresh of
  rates, the ledger of received transactions, the settlement that marks an invoice paid and publishes
  `InvoicePaid`, and the payment callback and recalculation that combine them. Card invoices share the
  tables; what is proved about payment is about crypto invoices, whatever card payments do.
- **Subscriptions** (`SubscriptionTables.dfy`, `SubscriptionPayments.dfy`, `SubscriptionRuns.dfy`,
  `Subscriptions.dfy`): creating rows for stores that have to pay, and collecting what is overdue.
- **Orders** (`Orders.dfy`, `OrderRefunds.dfy`, `OrderService.dfy`): the payment state of orders, and
  what Stripe refunds, with requests that may overlap and fail at any call.
- **Roles** (`UserRoles.dfy`): the role table and its cache, with a cache backend that may fail.

Each repository call or database transaction is one step. A method that changes a table is proved
equal to a function of the old table; what the service promises is proved about those functions, over
every run. Clocks, gateway and Stripe answers, rows locked by others, and failures are parameters that
may take any value. A `BigDecimal` is an exact `real`; sequences stand for tables in insertion order.

Where a promise fails, the project says exactly when:

- A refund is made at Stripe before `Declined` is written. When requests on an order do not overlap, an
  order that was paid out has been refunded exactly as often as a refund was lost, that is, took effect
  with its answer lost or its record not written (`OrderRefunds.RefundedAndPaidExactlyIf`). Then no
  overlap is needed: every fiat order that awaits its capture can be refunded and paid out
  (`OrderRefunds.UnrecordedRefundIsPaidOut`); an order can be paid out if and only if its recorded state
  leads there (`OrderRefunds.PayableExactlyIf`).
- In every run, overlapping or not, the refunds of an order are those lost, those recorded and those
  about to be (`OrderRefunds.RefundsAreAccounted`). Without overlap all but one of them were lost
  (`OrderRefunds.RefundedTwiceExactlyIf`); two declines that overlap refund an order twice if and only if
  both calls take effect, and it reads `Declined` all the same
  (`OrderRefunds.OverlappingDeclinesRefundTwiceExactlyIf`).
- Order requests that overlap: a late write is a legal change if and only if what it saw is still so, it
  changes nothing, or it asks for the refund of what was at most captured
  (`OrderRefunds.LateWriteMovesExactlyIf`, and for two requests
  `OrderRefunds.OverlappingWritesMoveExactlyIf`); a capture that overlaps a decline pays a refunded
  order out if and only if it writes last (`OrderRefunds.OverlapPaysRefundedExactlyIf`).
- Processors that write up to some deadline after their claim: a write in time can be accepted for
  somebody else's attempt, with the event in other hands, if and only if resets work, an event has a
  second attempt, and the deadline is longer than the stuck threshold
  (`LateProcessors.LateWriteGoesAstrayExactlyIf`). With `max_processing_attempts = 1`, as in
  config/development.toml:51, no event is ever held twice, however late its processor is
  (`LateProcessors.NeverHeldTwice`).
- Two overlapping deliveries of a payout pay it twice if and only if at some moment both have looked up
  in vain and both creations take effect (`PayoutOverlap.PaysTwiceExactlyIf`). The queue's exclusion
  rules that out for processors that keep within the threshold (`PayoutRuns.PayoutAtMostOnce`).
- Marking one payout completed marks all of them. In every run, a payout whose event is completed is
  unpaid if and only if its latest delivery read no row, or a marked row, while there was no transaction
  (`PayoutCompletion.CompletedUnpaidExactlyIf`): two payouts delivered one after the other without any
  failure are enough (`PayoutCompletion.MarkedAndNeverPaid`). A row can be missing because the event is
  published before it.
- `increase_amount_captured` reads before its transaction. A late commit keeps the ledger conserved if
  and only if nothing was captured in between (`InvoiceRaces.CommitConservesExactlyIf`), and paid
  invoices covered if and only if its own is not paid or paid with no more than the sum it writes
  (`InvoiceRaces.CommitCoversExactlyIf`, and for two callbacks around a settlement
  `InvoiceRaces.OverlapCoversExactlyIf`).
- A settlement does not look at `paid_at` again when it writes. Under an isolation that lets another
  settlement commit in between, the invoice keeps its single event if and only if none did
  (`InvoiceRaces.CommitPublishesOnceExactlyIf`); two that both read first publish it twice
  (`InvoiceRaces.OverlapPublishesTwice`).
- Charges come before the transaction that records them. An overdue row that a run has picked is picked
  by a later run if and only if no landing of it came in between
  (`SubscriptionRuns.PickedAgainExactlyIf`), and charged again whenever the client takes the money
  (`SubscriptionRuns.ChargedAgainExactlyIf`, `SubscriptionRuns.ChargedTwiceHappens`); if every run lands
  before the next one charges, none is charged twice (`SubscriptionRuns.OrderlyRunsChargeOnce`).
- A product quantity is sign-extended to 128 bits. A payment is the store's value times the products it
  is for if and only if the value is 0 or none of its rows has a negative quantity
  (`SubscriptionPayments.PaymentIsValueTimesQuantityExactlyIf`).
- Errors of the role cache are swallowed, so an entry can survive its removal; an operation keeps the
  cache right if and only if the removal works, nothing is cached for its user, or it changes no row
  (`UserRoles.CoherentExactlyIf`). An operation that clears the cache before its rows are committed, with
  a listing in between, leaves it right if and only if the cache refused the listing's entry, the old
  list was empty, or no row changes (`UserRoles.ListBetweenCoherentExactlyIf`). A listing itself queries
  first and stores later; in whatever order its two effects and the operation's two fall, the cache is
  right afterwards if and only if nothing was stored, the store came before the removal, the query after
  the commit, or no row changes (`UserRoles.RaceCoherentExactlyIf`).
- A stuck threshold of a day or more makes every reset, and so every tick, fail
  (`EventHandling.InvalidThresholdStalls`).
- A recorded transaction that is delivered again for a paid invoice changes nothing, and is answered with
  success if and only if adding it once more would not overflow: the overflow is checked before the
  duplicate (`InvoiceService.InboundTxRecords`).

## Model

| member | source | states |
|---|---|---|
| EventStoreRepo.EventStore.AddEvent | src/repos/event_store.rs:47-63 | Appends one pending row with no attempts; its id is fresh; no other row changes |
| EventStoreRepo.EventStore.AddScheduledEvent | src/repos/event_store.rs:65-85 | As `AddEvent`, and the row holds the time asked for, before which it is not due |
| EventStoreRepo.EventStore.SelectClaimable | src/repos/event_store.rs:99-106 | The subquery returns the picked ids, which `PickedAreFirst` characterises |
| EventStoreRepo.EventStore.GetEventsForProcessing | src/repos/event_store.rs:87-128 | Only rows that are pending, unlocked and not scheduled for later are picked, at most `limit`; they become in progress with one more attempt, stamped now; every other row stays |
| EventStoreRepo.EventStore.ResetStuckEvents | src/repos/event_store.rs:130-179 | Fails exactly for a threshold of 86400 seconds or more; else exactly the unlocked rows in progress whose stamp is more than the threshold old go back to pending, or to failed when out of attempts |
| EventStoreRepo.EventStore.CompleteEvent | src/repos/event_store.rs:181-221 | Refused with the table unchanged unless the row exists and is in progress; else only its status and stamp change |
| EventStoreRepo.EventStore.FailEvent | src/repos/event_store.rs:223-269 | As `CompleteEvent`; the row fails for good exactly when its attempts have reached the limit |
| EventQueue.PickedAreFirst | src/repos/event_store.rs:99-106 | The picked rows are pending, due and unlocked, in id order, at most `limit`; a claimable row is passed over only if `limit` smaller ids were picked |
| QueueRuns.QueueInvariant | src/repos/event_store.rs:47-269 | In every reachable table attempts are between 0 and max(1, the configured number), or at most 1 from 2^31 on; pending rows are new or below the limit, failed rows have reached it, and a claim cannot overflow the counter |
| QueueRuns.QueueHistory | src/repos/event_store.rs:47-269 | Between any two moments of a run no row is lost, payload and schedule stay, attempts never fall, completed and failed rows are frozen |
| QueueRuns.ClaimsAreOnTime | src/repos/event_store.rs:87-114 | In every run an attempt is counted only by a claim, once, of a row that was pending and due at the time of the claim |
| QueueRuns.AddedEventIsKept | src/repos/event_store.rs:65-114 | From its addition on an event keeps the payload and the schedule it was added with, and no claim before the scheduled time touches it |
| EventHandling.ProcessEvents | src/event_handling/mod.rs:125-181 | One tick resets, claims one row, and completes or fails it as its handler ended; each of the three database calls may fail or lose its reply, which ends the tick with that error and the row where it is |
| EventHandling.RunTicks | src/event_handling/mod.rs:92-113 | The loop goes on after a failed tick and leaves the table of all ticks |
| EventHandling.TickWorksOnFirst | src/event_handling/mod.rs:125-181 | With all due and none in progress a tick works on the pending row with the least id and on nothing else |
| EventHandling.QueueDrains | src/event_handling/mod.rs:125-181 | After as many ticks as there are attempts left every event is terminal, whatever the handlers do; if all fail, not one tick sooner |
| EventHandling.DrainsInOrder | src/event_handling/mod.rs:125-181 | At every moment of a drain, events that are terminal have no smaller id still pending |
| EventHandling.InvalidThresholdStalls | src/repos/event_store.rs:130-140 | If the threshold is a day or more no tick ever changes the table |
| Processors.TimedMutualExclusion | src/repos/event_store.rs:87-165 | In every run of any processors at most one live processor holds any event |
| Processors.LiveFinishAccepted | src/repos/event_store.rs:181-269 | In every run a live processor's complete or fail is accepted and ends its own attempt |
| Processors.OverdueWriteHitsAnotherAttempt | src/repos/event_store.rs:130-221 | If resets work and an event has a second attempt, for every silence longer than the threshold there is a run where the event is in other hands and the late write would be accepted |
| LateProcessors.LateWriteGoesAstrayExactlyIf | src/repos/event_store.rs:130-269 | Over all runs of processors that write up to a deadline after their claim, a write in time can be accepted for another attempt, with the event in other hands, if and only if the threshold is a time of day, the attempt limit is at least 2, and the deadline is longer than the threshold |
| LateProcessors.NeverHeldTwice | src/repos/event_store.rs:87-165 | With a single attempt, or without a working reset, no two processors ever hold one event, however late they are |
| LateProcessors.RunKeepsAttempts | src/repos/event_store.rs:87-269 | However late processors write, the queue invariant holds, every claim is of an attempt the event has had, and no attempt is claimed twice |
| Processors.ProcessorsRunTheQueue | src/event_handling/mod.rs:125-181 | Whatever any processors do, their table is one that repository calls lead to, so the queue invariant holds of it |
| PayoutHandling.Services.HandlePayoutInitiated | src/event_handling/handlers.rs:524-558 | One delivery, for any fate of its calls: at most one transaction is created, only for an uncompleted payout without one, to its wallet with its gross amount, currency and fee; a missing or completed payout is answered with success at once; when all calls succeed the delivery does, and success means missing, completed before, or paid and completed now |
| PayoutHandling.Services.PayOut | src/event_handling/handlers.rs:560-576 | With the row as it was read, whatever it is now: looks the transaction up by payout id and creates it, with the row's own data, only if there is none |
| PayoutHandling.Services.CreatePayoutTx | src/event_handling/handlers.rs:596-639 | Creates a transaction with the payout's wallet, gross amount, currency and fee exactly if the account is found and the call takes effect; a lost reply leaves it |
| PayoutHandling.Services.MarkPayoutAsCompleted | src/repos/payouts.rs:235-264 | If the payout exists and the call takes effect, marks it and, the update having no filter, every other one; changes nothing else |
| PayoutRuns.PayoutAtMostOnce | src/event_handling/handlers.rs:524-639 | Over every run of deliveries, failures, lost replies, deaths and retries on any processors, no payout has two external transactions, and each goes to its payout's wallet with its gross amount, currency and blockchain fee |
| PayoutRuns.OneHandlerPerPayout | src/event_handling/mod.rs:125-181 | Two live processors on the same payout are the same processor |
| PayoutRuns.HandlersRunTheProcessors | src/event_handling/mod.rs:125-181 | The queue under the payout handlers is a run of processors, and its table satisfies the queue invariant |
| PayoutOverlap.PaysTwiceExactlyIf | src/event_handling/handlers.rs:560-639 | Two deliveries interleaved in any way, with any outcomes, pay twice if and only if at some moment both have looked up in vain and both creations take effect |
| PayoutOverlap.OverlapPaysTwice | src/event_handling/handlers.rs:560-576 | For every unpaid payout there is such an interleaving |
| PayoutOverlap.BothAdd | src/event_handling/handlers.rs:596-639 | Once neither delivery looks up any more, the transactions grow by one for each whose calls allow it |
| PayoutCompletion.CompletedUnpaidExactlyIf | src/event_handling/handlers.rs:538-555 | In every run a completed payout event is unpaid if and only if the latest delivery read no row, or a marked row, while there was no transaction; a marked row means that another payout was paid |
| PayoutCompletion.MarkedAndNeverPaid | src/repos/payouts.rs:235-264 | Two payouts delivered one after the other without any failure: both events are completed and the second payout is never paid |
| PayoutCompletion.DeliveryIsHandler | src/event_handling/mod.rs:125-181 | An undisturbed delivery in a run claims the event, does what the handler does, and finishes as it ended |
| Amounts.SuperUnitRoundTrip | src/models/amount.rs:74-109 | To super units and back loses exactly the remainder below 10^10 for ETH and STQ, and nothing for BTC and fiat |
| Amounts.ScaleIsGrains | src/models/amount.rs:89-109 | The super-unit value is the whole number of finest fractions, the rest dropped |
| Amounts.OneSuperUnit | src/models/amount.rs:74-109 | One ETH or STQ is 10^18 minimal units and its finest fraction 10^10 of them, one BTC is 10^8, one euro, dollar or ruble 100 |
| Amounts.FromSuperUnitTruncates | src/models/amount.rs:74-87 | Converting back truncates toward zero and panics exactly if the result is not a 128-bit amount |
| Amounts.ToSuperUnitMonotone | src/models/amount.rs:89-109 | A larger amount never converts to less |
| Amounts.CoveredPriceConverts | src/services/invoice.rs:1280-1293 | A price covered in super units converts without panic, to no more than what was captured |
| PgNumerics.ToBase10000.Next | src/models/amount.rs:178-193 | Yields the digits of the number in base 10000, least significant first, and then nothing |
| PgNumerics.CollectDigits | src/models/amount.rs:237-244 | Collects all digits in order |
| PgNumerics.U128ToPgDecimal | src/models/amount.rs:237-244 | Collecting, skipping and reversing in place compute the encoding that the round trips are about |
| PgNumerics.DropZeros | src/models/amount.rs:240 | The loop drops exactly the leading zeros |
| PgNumerics.ReverseDigits | src/models/amount.rs:241 | Swapping from both ends reverses the buffer in place |
| PgNumerics.PgDecimalToU128 | src/models/amount.rs:199-235 | The loop with its checked additions and multiplications rejects and returns exactly what the denoted value says; a negative number, a NaN, a nonzero scale and a negative weight are each rejected, in that order, with their own error |
| PgNumerics.DecoderExact | src/models/amount.rs:199-235 | For scale 0 and weight at least 0 the decoder returns v exactly if no digit is fractional and the digits denote v; with an exponent up to 38 it rejects exactly if not, or if v needs more than 128 bits |
| PgNumerics.DecodeEncoding | src/models/amount.rs:178-244 | Every amount decodes to itself after encoding; weight 0 to 9, exponent 0 to 36 |
| PgNumerics.EncodeDecoding | src/models/amount.rs:199-244 | Every canonical numeric whose value fits is encoded back to the same digits and weight |
| PgNumerics.EncodingIsCanonical | src/models/amount.rs:237-244 | Every encoding is canonical: no zero digit at either end, and weight 0 for zero |
| ExchangeRates.OrderExchangeRates.GetActiveRateForOrder | src/repos/order_exchange_rates.rs:81-103 | Finds the active rate of the order, if any |
| ExchangeRates.OrderExchangeRates.GetAllRatesForOrder | src/repos/order_exchange_rates.rs:105-125 | All rates of the order, newest first |
| ExchangeRates.OrderExchangeRates.AddNewActiveRate | src/repos/order_exchange_rates.rs:127-178 | Expires the active rate and appends the new one, which is then the active rate; keeps one active rate per order |
| ExchangeRates.OrderExchangeRates.ExpireCurrentActiveRate | src/repos/order_exchange_rates.rs:180-207 | Afterwards the order has no active rate and no other order's rate changed; answers the row it expired |
| ExchangeRates.OneActiveRate | src/repos/order_exchange_rates.rs:127-264 | In every reachable table every order has at most one active rate |
| ExchangeRates.NewRateIsActive | src/repos/order_exchange_rates.rs:127-178 | A new rate is the active one of its order; the other orders keep theirs |
| ExchangeRates.DeletionsAreExact | src/repos/order_exchange_rates.rs:209-264 | Deleting by id or by order takes away exactly these rates |
| InvoicePrices.PriceMeans | src/models/invoice_v2.rs:349-368 | An order is priced exactly if it needs no exchange or has an active rate; the price exchanged back at that rate is what the seller asks |
| InvoicePrices.TotalIsSumOfPrices | src/models/invoice_v2.rs:410-429 | With one active rate per order the total is the sum over all orders of what each asks, exchanged at its active rate |
| InvoicePrices.TotalPriceAdds | src/models/invoice_v2.rs:410-429 | The total of two lists of orders together is the sum of their totals |
| InvoicePrices.MissingMeansIncomplete | src/models/invoice_v2.rs:391-392 | A rate is missing exactly if some order needs an exchange and has no active rate |
| InvoicePrices.SamePrice | src/services/invoice.rs:545-550 | With one active rate per order the active rates alone give the same total, missing flag, cashback and per-order amounts as the whole history |
| InvoicePrices.TwoActiveRatesDiffer | src/models/invoice_v2.rs:352-355 | With two different active rates of one order the two readings pick different ones |
| InvoicePrices.TotalPriceNonnegative | src/models/invoice_v2.rs:317-432 | No total is negative |
| RateRefresh.RefreshRates | src/services/invoice.rs:1182-1197 | The stream asks for each order in turn and keeps the quotes in order; it fails exactly if the refresh of some order does |
| RateRefresh.RefreshCompletesRates | src/services/invoice.rs:1200-1251 | Once saved, every order has exactly one active rate: the one it had if that is a dummy or the gateway calls it unchanged, the gateway's if it calls it new; without a rate the dummy 1 if no exchange is needed, else the quote |
| RateRefresh.RefreshFailsExactlyIf | src/services/invoice.rs:1200-1251 | A refresh fails exactly if the gateway does not answer for an order that needs it, or an order without a rate is sold for a fiat currency |
| RateRefresh.RefreshLeavesOthers | src/services/invoice.rs:964-978 | Saving a refresh leaves the rates of other orders alone and adds no second active rate |
| RateRefresh.NoRateIsMissing | src/services/invoice.rs:1182-1251 | The price computed after a saved refresh has no missing rate |
| InvoiceRuns.LedgerConservation | src/repos/invoices_v2.rs:124-185 | In every reachable state each crypto invoice's captured amount is the sum of its recorded transactions |
| InvoiceRuns.RedeliveryChangesNothing | src/repos/invoices_v2.rs:124-185 | A transaction once received is refused at every later time, for any account and amount, and changes nothing |
| InvoiceRuns.PaidExactlyOnce | src/services/invoice.rs:1253-1309 | In every reachable state there is exactly one `InvoicePaid` event for a paid crypto invoice and none for an unpaid one or an id without invoice, and its final amount is at most its captured amount |
| InvoiceRuns.NeverPanics | src/services/invoice.rs:1286-1293 | No settlement in any run reaches the failing unwrap |
| InvoiceRuns.PaidIsFinal | src/repos/invoices_v2.rs:187-220 | From any state on, nothing is lost, what a crypto invoice captured only grows, and once paid its date and final amounts never change |
| InvoiceRuns.RunKeepsInv | src/services/invoice.rs:208-281 | Creation for crypto and card buyers, callbacks, card payments, rate changes, settlements, unlinking and all other queue traffic keep the ledger invariant |
| InvoiceRaces.HalvesMakeReceive | src/repos/invoices_v2.rs:124-185 | The read and the transaction, with nothing between, are the one step of the ledger |
| InvoiceRaces.CommitConservesExactlyIf | src/repos/invoices_v2.rs:135-180 | A commit keeps the ledger conserved if and only if nothing was captured since its read, or the invoice is paid by card |
| InvoiceRaces.CommitCoversExactlyIf | src/repos/invoices_v2.rs:135-180 | A commit keeps every paid crypto invoice covered if and only if its own is unpaid, or paid with at most the sum it writes |
| InvoiceRaces.OverlapCoversExactlyIf | src/repos/invoices_v2.rs:135-180 | Two callbacks read alike, one commits, the invoice is settled, the other commits: all stay covered if and only if it is unpaid then, or for at most what the second alone would have captured |
| InvoiceRaces.OverlapUncoversPaidInvoice | src/repos/invoices_v2.rs:135-180 | A concrete run of two overlapping callbacks that leaves a paid invoice with less captured than its final amount |
| InvoiceRaces.HalvesMakeSettle | src/services/invoice.rs:1253-1309 | The reads and the writes of a settlement, with nothing between, are the one step of the ledger |
| InvoiceRaces.CommitPublishesOnceExactlyIf | src/services/invoice.rs:1277-1305 | A settlement's writes keep one `InvoicePaid` event per paid crypto invoice if and only if nobody settled it since the reads |
| InvoiceRaces.OverlapPublishesTwice | src/services/invoice.rs:1265-1305 | Two settlements of a crypto invoice that both read before either writes leave two `InvoicePaid` events |
| InvoiceRaces.OverlapPublishesTwiceHappens | src/services/invoice.rs:1265-1305 | A concrete invoice for which any two settlements can be such |
| InvoiceService.InboundTxSettles | src/services/invoice.rs:772-938 | After the callback of a linked unpaid invoice whose rates could be refreshed and saved, the amount is recorded once, every order has the rate the gateway's answer calls for, and the invoice is paid if and only if all that was captured covers the sum of the orders' prices at these rates |
| InvoiceService.InboundTxRecords | src/services/invoice.rs:825-938 | In every other case too the amount is recorded once, except on overflow, which is checked even for a recorded transaction; a paid invoice is done; a failed refresh or save is an error that leaves the invoice unpaid |
| InvoiceService.InboundTxRefuses | src/services/invoice.rs:797-835 | An unsigned callback, an unknown account, a malformed amount and an unlinked account each leave everything as it was; the second and the last are answered with success |
| InvoiceService.RefreshOfFailsExactlyIf | src/services/invoice.rs:1182-1251 | The refresh of an invoice fails exactly for a card buyer, or if that of one of its orders does |
| InvoiceService.RedeliveredCallback | src/services/invoice.rs:825-844 | Delivering a recorded transaction again changes no captured amount and no paid invoice; for a paid invoice nothing at all |
| InvoiceService.RecalcSettles | src/services/invoice.rs:485-594 | Recalculating a paid invoice changes nothing and shows its final price; a failed refresh changes nothing; else an unpaid invoice is paid exactly if no rate is missing and the sum of its orders' prices is covered |
| InvoiceService.SettlementDecides | src/services/invoice.rs:1253-1309 | A settlement pays exactly if no rate is missing and the sum of the orders' prices is covered; then it sets the sum in minimal units, no cashback and the date and adds one event, and otherwise it changes nothing |
| InvoiceService.CallsAreRuns | src/services/invoice.rs:485-938 | Callback and recalculation are runs of ledger steps, so all results about runs hold after them |
| InvoiceService.ReachableIsOk | src/services/invoice.rs:208-281 | Every state that ledger steps lead to satisfies the invariant that the results about single calls ask for |
| InvoiceService.BillingService.IncreaseAmountCaptured | src/repos/invoices_v2.rs:124-185 | Both tables change or neither; overflow, unknown account and duplicate leave both unchanged |
| InvoiceService.BillingService.SetAmountPaid | src/repos/invoices_v2.rs:187-220 | Sets the two final amounts and the date of one invoice, and no other modelled field or row |
| InvoiceService.BillingService.GetOrderActiveRates | src/services/invoice.rs:1104-1121 | Each order of the invoice with its active rate, in order |
| InvoiceService.BillingService.GetInvoicePrice | src/services/invoice.rs:1140-1179 | For an unpaid invoice the sum of its orders' prices at their active rates, with a rate missing exactly if an order needs one and has none; for a paid one its final amounts |
| InvoiceService.BillingService.CalculateInvoicePriceAndSetFinalPriceIfPaid | src/services/invoice.rs:1253-1309 | The transaction is the ledger's settlement, never panics, and leaves the invoice paid exactly if it was or the sum of its orders' prices is covered |
| InvoiceService.BillingService.HandleInboundTx | src/services/invoice.rs:772-938 | The callback step by step is `InboundTx`, errors included: a bad signature is refused, unknown accounts are answered with success, malformed amounts are not, and the database may fail after any saved rate |
| InvoiceService.BillingService.SaveRates | src/services/invoice.rs:968-977 | Saves the quotes one by one; those before a failure stay |
| InvoiceService.BillingService.RecalcInvoice | src/services/invoice.rs:485-594 | The recalculation step by step is `Recalc`, and leads from reachable to reachable states; it answers with nothing exactly if there is no such invoice, and a missing or paid one is answered without any write |
| InvoiceService.BillingService.CreateInvoice | src/services/invoice.rs:208-281 | For crypto and card buyers all rows are inserted or none; the expiry event stays even when the transaction is rolled back |
| InvoiceCreation.CreationExactlyIf | src/services/invoice.rs:208-281 | Creation always schedules the expiry; exactly if no id, account or order id is taken it adds the unpaid invoice and its orders, with their amounts as given and their quoted rates active, and otherwise nothing else |
| InvoiceCreation.CardPaymentMarks | src/repos/invoices_v2.rs:222-255 | A card payment sets captured and final amount, cashback and date of its card invoice and changes nothing else |
| InvoiceService.BillingService.UnlinkAccount | src/repos/invoices_v2.rs:257-286 | Clears the account of one invoice and nothing else |
| SubscriptionTables.SubscriptionRepo.GetUnpaid | src/repos/subscription.rs:112-119 | Exactly the unpaid rows, those of each store in table order |
| SubscriptionPayments.SubscriptionsToPay | src/services/subscription_payment.rs:319-340 | Keeps a store exactly if one of its unpaid rows is older than the period, with exactly its unpaid rows in order |
| SubscriptionPayments.OldestDecides | src/services/subscription_payment.rs:334-337 | The oldest unpaid row decides whether a store is overdue |
| SubscriptionPayments.OverdueMeans | src/services/subscription_payment.rs:319-340 | A store is overdue exactly if it has an unpaid row created more than the period ago |
| SubscriptionTables.UnpaidOfMembers | src/repos/subscription.rs:112-119 | The unpaid rows of a store are exactly its rows without a payment |
| SubscriptionTables.UnpaidOfAscends | src/services/subscription_payment.rs:326-332 | They stay in the order of their ids |
| SubscriptionPayments.CalculateTotalAmount | src/services/subscription_payment.rs:442-463 | Fails exactly if the true sum needs more than 128 bits, else returns it |
| SubscriptionPayments.TotalIsExact | src/models/amount.rs:130-134 | The sum is the value times the number of products, and 2^128 times the value more for every negative quantity |
| SubscriptionPayments.TotalIsValueTimesQuantityExactlyIf | src/services/subscription_payment.rs:442-463 | The sum is the value times the number of products if and only if the value is 0 or no quantity is negative |
| SubscriptionPayments.NegativeQuantityOverflows | src/models/amount.rs:130-134 | One negative quantity makes the total overflow if the value is above 1 |
| SubscriptionPayments.CreatePaymentPreparations | src/services/subscription_payment.rs:203-305 | Succeeds exactly if every store has a subscription, a fitting total and an owner; then one preparation per store, of its own rows and total, asked of its owner's Stripe customer or of the account behind its own wallet, and failed exactly if there is none |
| SubscriptionPayments.CollectedFaithfully | src/services/subscription_payment.rs:342-440 | Every outcome yields a payment of the store's total; it is recorded as collected if and only if the store's client succeeded, while money is taken even if the reply is lost; a charge id is kept exactly for a collected charge, a transaction id for every crypto payment |
| SubscriptionPayments.CollectAll | src/services/subscription_payment.rs:144-151 | Each preparation is charged once, in turn, and finished as its client answered |
| SubscriptionPayments.LinkSubscriptions | src/services/subscription_payment.rs:170-176 | Linking row by row links exactly the rows of the store that were unpaid when picked, whatever has been added or linked since |
| SubscriptionPayments.WritePayments | src/services/subscription_payment.rs:152-180 | The final transaction inserts the payments in order and links the rows that were picked for them, whatever has been added or linked since |
| SubscriptionPayments.WrittenAt | src/services/subscription_payment.rs:165-177 | A row that was picked ends with the payment of its store even if another run linked it meanwhile; every other row is as before |
| SubscriptionPayments.CollectPayments | src/services/subscription_payment.rs:128-151 | Fails before any charge exactly if some overdue store cannot be prepared; else one payment per overdue store, and the money taken is that of its client |
| SubscriptionPayments.PaySubscriptions | src/services/subscription_payment.rs:99-184 | Charges happen unless some store cannot be prepared. If the final transaction commits, every picked row has exactly one new payment, of its own store, which amounts to the store's value times the rows linked to it, failed charges included, and no other row changes; if it fails the money is taken and the tables are as before |
| SubscriptionPayments.NothingStaysOverdue | src/services/subscription_payment.rs:319-340 | After a run no store is overdue at that time |
| SubscriptionPayments.SecondRunChangesNothing | src/services/subscription_payment.rs:99-184 | A second run at the same time changes no row and adds no payment |
| SubscriptionPayments.PaymentIsValueTimesQuantityExactlyIf | src/services/subscription_payment.rs:99-184 | A new payment is the value times the products of the rows linked to it if and only if the value is 0 or none of these rows has a negative quantity |
| SubscriptionRuns.HalvesMakePayment | src/services/subscription_payment.rs:128-181 | Charging and then committing, with nothing between, is a successful payment run |
| SubscriptionRuns.PickedAgainExactlyIf | src/services/subscription_payment.rs:128-181 | Over all runs that may overlap and fail, a row once picked is picked again if and only if no landing of it came in between and its store is still overdue; if the row itself was overdue, if and only if none landed |
| SubscriptionRuns.ChargedAgainExactlyIf | src/services/subscription_payment.rs:128-181 | An overdue row that was charged is charged again by a later run whose client takes the money if and only if no landing of it came in between |
| SubscriptionRuns.LandingIsPayment | src/services/subscription_payment.rs:165-177 | Every landing, also one that links rows paid in the meantime, leaves paid rows paid and the rest of each row alone, as the runs of `Subscriptions` ask of a payment |
| SubscriptionRuns.StaysOverdue | src/services/subscription_payment.rs:334-337 | A row that was overdue keeps its store overdue for as long as it is unpaid |
| SubscriptionRuns.GivingUpChargesAgain | src/services/subscription_payment.rs:152-181 | A run that charges and fails to write leaves the tables as they were, so the next one can charge the same rows |
| SubscriptionRuns.ChargedTwiceHappens | src/services/subscription_payment.rs:128-181 | For every period, a run in which a store with one overdue row is charged twice for it |
| SubscriptionRuns.OrderlyRunsChargeOnce | src/services/subscription_payment.rs:128-181 | If every run lands before the next one charges, no row is picked twice |
| Subscriptions.FindUpdateOrCreateStoreSubscription | src/services/subscription.rs:144-170 | A missing store is created on trial from now with 3 euro cents, a missing trial start is set to now, nothing else changes |
| Subscriptions.CreateSubscriptions | src/services/subscription.rs:64-125 | The loop with its labelled `continue` is the fold `CreateAll`, and never fails |
| Subscriptions.NeverEmptyTrial | src/services/subscription.rs:84-88 | The "empty trial start" error cannot be reached |
| Subscriptions.CreateAllIsRight | src/services/subscription.rs:78-121 | A call only appends unpaid rows, stamped now, for stores that are not free and are marked as paying or began their trial long enough ago; it moves no started trial |
| Subscriptions.RowsAreAskedFor | src/services/subscription.rs:79-119 | Each new row is for the store and the quantity of some request |
| Subscriptions.DayIsADay | src/services/subscription.rs:110-115 | Two times are of one day exactly if they lie between the same midnights |
| Subscriptions.CreatedExactlyIfDue | src/services/subscription.rs:78-121 | After a call a store has an unpaid row of today exactly if it had one, or was requested and is marked as paying or on a trial that is over; repeats make no difference |
| Subscriptions.OneUnpaidSubscriptionPerDay | src/services/subscription.rs:102-117 | In every reachable state no store has two unpaid rows of one calendar day |
| Subscriptions.EveryRowWasDue | src/services/subscription.rs:83-100 | Every row of every reachable table was created by a call at a time its store was not free, and was marked as paying or past its trial |
| Subscriptions.TrialStartIsFinal | src/services/subscription.rs:144-170 | From any point of a run on, a trial start once set never changes |
| Orders.OrdersClimb | src/services/order.rs:334-349 | While requests on one order do not overlap, between any two moments each order stays or climbs its rank along legal changes |
| Orders.AllowedChanges | src/services/order.rs:334-349 | The six changes of state that may be asked for, and no other |
| Orders.NeverRecordedRefundedAndPaid | src/services/order.rs:50-135 | Then no order is recorded at one moment as refunded or declined and at another as paid to the seller |
| OrderRefunds.RefundsAreAccounted | src/services/order.rs:210-282 | In every run, however requests overlap, the refunds made at Stripe for an order are those lost, those recorded, and one for each request about to record |
| OrderRefunds.RefundedTwiceExactlyIf | src/services/order.rs:210-282 | When requests do not overlap at most one refund is not lost, so an order is refunded more than once exactly if one was lost and another was made |
| OrderRefunds.OverlappingDeclinesRefundTwiceExactlyIf | src/services/order.rs:210-282 | Two declines that both read `Initial` refund the order twice if and only if both refund calls take effect, and it reads `Declined` all the same |
| OrderRefunds.RecordedMeansDeclined | src/services/order.rs:266-280 | At most one refund is recorded for an order, which is declined from then on |
| OrderRefunds.RefundedAndPaidExactlyIf | src/services/order.rs:210-282 | An order that was paid out has been refunded exactly as often as a refund was lost; so it is refunded and paid if and only if it is paid and some refund took effect without being recorded |
| OrderRefunds.UnrecordedRefundIsPaidOut | src/services/order.rs:258-280 | Every run with a fiat order that awaits its capture goes on, without overlap, to refund the buyer and pay the seller |
| OrderRefunds.PayableExactlyIf | src/services/order.rs:334-349 | An idle order can be paid out by requests that do not overlap if and only if its recorded state leads to `PaidToSeller` |
| OrderRefunds.LateWriteMovesExactlyIf | src/services/order.rs:266-280 | A late write is a legal change if and only if the state it saw or its target is the current one, or it asks for the refund of what is at most captured |
| OrderRefunds.OverlappingWritesMoveExactlyIf | src/services/order.rs:284-332 | Two requests that saw the same state both write legally if and only if they write the same, or the second asks for the refund of what the first captured |
| OrderRefunds.OverlapPaysRefundedExactlyIf | src/event_handling/handlers.rs:427-522 | When the capture handler and a decline overlap, the refunded order can still be paid out if and only if the capture writes last |
| Orders.FeeMeansNotInitial | src/event_handling/handlers.rs:499-509 | A recorded Stripe fee implies that the order has left `Initial`, even when requests overlap |
| Orders.PathsLead | src/services/order.rs:334-349 | A path of legal changes leads where the lead relation says |
| Orders.LeadsHasPath | src/services/order.rs:334-349 | Wherever the lead relation says, there is a path of legal changes |
| Orders.AttemptIsSerial | src/services/order.rs:50-168 | A request on an idle order, with any outcomes of its calls, continues a run without overlap |
| Orders.LoneAttempt | src/services/order.rs:50-168 | A lone request makes its planned calls in order until one does not succeed |
| OrderService.OrderTable.OrderCapture | src/services/order.rs:50-91 | Refused unless `Initial`; with a successful call a crypto order is captured, a fiat order only queues its capture event |
| OrderService.OrderTable.OrderDecline | src/services/order.rs:93-135 | Refused unless `Initial`; for a fiat order Stripe refunds if and only if the first call takes effect, and the order is declined if and only if that succeeded and the second takes effect; a crypto order is only marked |
| OrderService.OrderTable.UpdateOrderState | src/services/order.rs:137-168 | Changes the state exactly along the allowed pairs, if the write takes effect |
| OrderService.OrderTable.HandlePaymentIntentCapture | src/event_handling/handlers.rs:427-522 | Captures an untouched order if the first write takes effect and records its fee if the second does; any other order is answered with success and unchanged, so a captured order without a fee stays so |
| UserRoles.UserRolesRepo.ListForUser | src/repos/user_roles.rs:94-119 | Answers what is cached, or else the names of the user's rows, which it caches unless there are none; with a coherent cache it answers the table and stays coherent |
| UserRoles.UserRolesRepo.CreateRole | src/repos/user_roles.rs:122-131 | Clears the cache entry, then inserts unless a constraint refuses |
| UserRoles.UserRolesRepo.DeleteRole | src/services/user_roles.rs:67-75 | Deletes all rows of that user and role; a refusal comes after the deletion and rolls it back, but the cache entry is gone |
| UserRoles.UserRolesRepo.DeleteRolesOfUser | src/repos/user_roles.rs:149-157 | Deletes and returns exactly the rows of that user |
| UserRoles.UserRolesRepo.DeleteRoleById | src/repos/user_roles.rs:160-171 | Deletes the row and clears its user's entry, or reports that there is none |
| UserRoles.CacheAgrees | src/repos/user_roles.rs:94-171 | After any history of listings, creations, deletions and evictions whose removals work, a listing answers what the table holds |
| UserRoles.CoherentExactlyIf | src/repos/acl/roles_cache.rs:32-40 | An operation keeps the cache right if and only if its removal works, nothing is cached for its user, or it changes no row |
| UserRoles.OnlyTargetChanges | src/repos/user_roles.rs:122-171 | An operation changes the list of its own user exactly if a row is accepted or goes, and no other user's list |
| UserRoles.RolesOfMembers | src/repos/user_roles.rs:99-105 | The roles listed for a user are the names of his rows, one for each |
| UserRoles.TableIsConstrained | migrations/2018-07-04-090000_create_roles/up.sql:1-8 | In every run no two rows share their id, nor user, name and data unless that is null, and exactly a row that keeps this is accepted |
| UserRoles.ListBetweenCoherentExactlyIf | src/repos/user_roles.rs:122-157 | An operation that clears the cache before its rows are committed, with a listing in between, leaves the cache right if and only if the listing was not stored, the old list was empty, or no row changes; otherwise later listings answer the old list |
| UserRoles.DeleteByIdToleratesListing | src/repos/user_roles.rs:160-171 | Deleting by id reaches the cache after its row is gone, so a whole listing in between does no harm |
| UserRoles.RaceCoherentExactlyIf | src/repos/user_roles.rs:94-171 | For every operation and every order of its removal and commit and a listing's query and store, the cache is right afterwards if and only if nothing was stored, the store came before the removal, the query after the commit, or no row changes |

## Left out

- Interleaved database transactions other than those above: in the runs of the ledger a callback's
  receipt and a settlement are one step each, as are a creation of subscriptions and, in the histories
  of `UserRoles.CacheAgrees`, every role operation and listing.
- SubscriptionPayments.CollectAll: Stripe is asked for the total cast to 64 bits
  (src/client/stripe/mod.rs:131), so for totals of 2^64 and above it takes less than the payment says.
- InvoiceService.BillingService.SetAmountPaid: the source also sets the invoice's `status`, which is not
  part of this model.
- InvoiceService.BillingService.HandleInboundTx: how a signature is checked and an account found by its
  wallet address; both answers are parameters.
- PgNumerics.DecoderExact: an exponent above 38 overflows the unchecked power of ten, as the comment at
  src/models/amount.rs:229 concedes; the model answers `PowOverflow` there and not what the build does.
- Subscriptions.OneUnpaidSubscriptionPerDay: a new row's `created_at`, which the database fills in, is
  taken to be the time the call read.
- PayoutRuns.PayoutAtMostOnce: a payout id is taken to be fresh when its event is published, and the
  creation of payouts is reduced to that; the handlers of other events end in any way.
- OrderRefunds.RefundedAndPaidExactlyIf: "paid out" is what the order records; the payout itself is
  modelled by its own handler and not tied to the order.
- Serial ids that a rolled-back transaction skips.
- The precision of `BigDecimal` division and of `f64` rates: rates are positive exact numbers.
- The handling of card payments beyond their effect on the invoice, the deletion of card invoices (a
  crypto invoice cannot be deleted), and version 1 invoices.
- The Stripe fee computation: its value is a parameter of the capture handler.
- The service that creates and updates store subscriptions, except that it never moves a trial start.
- Fees, payment intents, the saga and stores clients, and the mock payments client.
- Access control, except where a role is deleted before the check; routing, configuration, connection
  and thread pools, JSON and enum mappings, search filters.
