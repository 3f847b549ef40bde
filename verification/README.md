# rpay: a verified model of the payment gateway

rpay takes signed payment requests from merchants, sends the buyer to a payment provider, and tells the merchant
when the provider reports that the order is paid. This project models the parts of it where a mistake costs money,
and proves properties of that model with Dafny 4.11:

* **Orders under concurrency** (`orders`, `interleaving`, `laws`, `store`, `runs`, `draining`, `memories`,
  `uniqueness`, `refunds`, `courses`). A row of `pay_order`
  changes by single SQL statements and one transaction. `Orders.Apply` gives each statement its meaning on the table,
  the class `OrderStore.Store` holds the table and its methods are proved against that meaning, and
  `Interleaving` runs any number of handlers step by step, each transaction locking, reading, buffering and committing.
  Every interleaving is proved equal to the serial run in commit order. On top of that stand the laws of whole runs:
  wins and refunds count the paid flag, the reported paid amount is conserved, retries are bounded, nothing deadlocks,
  and it is said exactly when the retry loop drains, when order numbers stay unique, and when refunds are recorded as
  often as the provider pays them.
* **Callbacks and submission** (`callbacks`, `submit`). The handlers are methods over the store. What they decide is
  proved sound and complete against a grammar of amounts that does not mention the parser, in every reachable state.
* **Texts that must survive a trip** (`money`, `canonical`, `form`, `query`, `wxpay_v2`, `wxpay_v2_trip`, `session`, `pem`,
  with `text` below them). Printers and parsers are proved inverse exactly on their domains, sign strings injective,
  and signatures are proved to verify after the XML and the query string trip.

Cryptography, clocks, random draws, provider answers and lossy UTF-8 decoding are parameters. The laws of whole runs
quantify over all initial tables, all numbers of handlers and all step sequences of `Interleaving`, the draining of
retries and the uniqueness of orders included; `Submission.SerialSubmitsAreUnique` alone speaks of lists of whole
submissions, because it is about the method `Submit`. Verify the project with `dafny verify dfyconfig.toml`.

Where comments and code of the repository differ, the model follows the code:

* The comment on `mark_paid` (src/store.rs:204-206) speaks of the step from unpaid to paid. The code refuses status 1
  only, so closed and refunded orders become paid as well. The counting and money laws hold for that behaviour.
* The comment in `wxpay_v3_notify` (src/web.rs:795-798) speaks of the enabled channels. The query behind it reads all
  channels, and the scan tries disabled ones too.
* `submit` looks for an order and then creates it in two statements, and `(out_trade_no, uid)` is a plain index
  (database/schema.sql:114). `Uniqueness.UniqueExactly` says exactly when a pair keeps one order, and
  `Uniqueness.InterleavedSubmitsDuplicate` is the run in which it does not.
* `submit` stores a new order before it finds out that no channel takes it (`Submission.RefusalKeepsOrder`), and
  `set_channel` does not look at the status, so a paid order can change its channel (`ChannelDrift`).
* The callback handlers answer success even when the payment transaction failed (`CallbackRuns.AcknowledgedUnpaid`).
* `pending_notifications` has a limit and no order, and `notify_merchant` gives up without a trace when the merchant
  has no key, so twenty such orders can keep the others waiting (`Draining.Starves`).
* A callback address with a fragment, or with fields of its own, does not deliver the signed parameters alone
  (`CallbackQueries.AddressCondition`).

## Model

| member | source | states |
|---|---|---|
| Orders.ApplyAt | src/store.rs:207-255 | a statement changes only the row of its own trade number, except for expiry, which rewrites every row by the same rule |
| Orders.SumPut | src/store.rs:857-857 | the sum behind a statistic changes by exactly the difference of the one row that a statement rewrites |
| Orders.SumPointwise | src/store.rs:857-857 | tables whose rows contribute the same have the same sum, whatever order the sum is taken in |
| Orders.ExpiryCloses | src/store.rs:604-613 | expiry closes an unpaid order exactly when more than its minutes of sixty seconds have passed since it was added, and changes nothing else |
| Orders.NewOrderExpires | src/web.rs:684-690 | the expiry of the server closes an unpaid new order exactly when more than 1800 seconds have passed since it was created |
| Orders.PendingAfterAttempt | src/store.rs:236-266 | after a recorded attempt a paid order is selected again exactly if the attempt failed, was not the fifth, and more than ten seconds have passed |
| Orders.EditRestarts | src/store.rs:830-846 | an edit to status 1 leaves the order paid with an attempt left; a counter below five and a known end time stay |
| Interleaving.StepKeepsLocks | src/store.rs:213-232 | every step of every handler keeps the lock discipline: each active transaction still holds what it read, in the current version |
| Interleaving.CommitIsAtomic | src/store.rs:207-234 | a transaction that locked, read and buffered publishes on commit exactly what its statement would do alone at that moment, with the same answer |
| Interleaving.ScanIsAtomic | src/store.rs:604-613 | an expiry that has locked the whole table closes exactly the unpaid orders that are too old and counts exactly those |
| Interleaving.Serialisable | src/store.rs:207-234 | in every interleaving, the table, the rows that were read and the answers are those of the committed statements run one at a time in commit order |
| Progress.StatementRuns | src/store.rs:207-234 | a statement on an order that nobody has locked can be run through to its commit at once; it then has its whole effect, and leaves no lock behind |
| Progress.EveryTransactionCanCommit | src/store.rs:207-234 | no deadlock: every state that any interleaving reaches can be continued so that every active transaction commits, the expiry scan too, none aborted and no other handler moved |
| RunInvariants.RunFits | src/web.rs:500-513 | in every run handlers only ever execute statements that their own control flow allows, with channels unchanged |
| RunInvariants.StatementKeepsRows | src/web.rs:205-224 | every statement that a handler may issue keeps the amount invariant of all orders; what the limits in it mean is `Channels.LimitsAreKept` |
| RunInvariants.AmountsHold | src/web.rs:141-224 | in every interleaved run without deletions each order has no channel and no amounts, or has `realmoney` = `getmoney` = `money` and a channel of its type whose limits admit it; each refund returns exactly the order's money; each win of an amount-checked callback named exactly it |
| Channels.LimitsAreKept | src/web.rs:205-219 | the test of the limits passes an amount exactly if every limit that spells a 64-bit amount, read by the grammar of digits, is kept: not less than `paymin`, not more than `paymax` |
| LimitLaws.LimitsHold | src/web.rs:141-224 | in every interleaved run without deletions each order has no channel and no amounts, or has its submitted money as both amounts and a channel with its id and type whose limits, as they are spelled, the money keeps |
| Accounting.CountingLaw | src/store.rs:207-234 | for every order in every run, winning `mark_paid` calls minus recorded refunds equals the change of the paid flag, over all callbacks, expiry and refunds |
| Accounting.PaymentSticks | src/store.rs:604-613 | once any payment call on an order committed, no expiry and no other statement makes it unpaid, unless it is refunded or edited by hand |
| Accounting.ExactlyOneWins | src/store.rs:204-234 | of any number of concurrent payment calls on an order that is not paid, exactly one is told that it won |
| Accounting.StatementFlow | src/store.rs:819-828 | each committed statement moves the paid amount by its win or its refund and by nothing else |
| Accounting.MoneyConservation | src/store.rs:848-876 | in every run without admin edits the reported paid amount changes by the money of all winning payments minus all recorded refunds |
| Delivery.NotifyCounts | src/store.rs:236-266 | the notify counter counts the recorded failures until the first recorded success; after it the counter stays at 99 or more and the order is never selected again |
| Delivery.RetriesAreBounded | src/web.rs:667-682 | in every run the single retry task records at most five attempts per order, and one waiting in its queue has fewer than five behind it |
| Delivery.CallbackAttemptsFollowWins | src/web.rs:505-513 | callback handlers record at most one attempt for each payment that was won |
| Delivery.BoundedDelivery | src/web.rs:595-682 | at most five retry attempts, and at most five plus the number of wins in all, are recorded for an order |
| OrderStore.TradeNoShape | src/store.rs:1134-1138 | trade numbers are nineteen digits, and two of them are equal only if second and suffix are |
| OrderStore.Store.CreateOrder | src/store.rs:128-164 | adds one unpaid order under the first of at most five drawn numbers that is free, and fails without a change exactly when all five are taken |
| OrderStore.Store.FindExistingOrder | src/store.rs:113-126 | finds an order of the merchant with this number if and only if there is one |
| OrderStore.Store.SetChannel | src/store.rs:166-182 | sets type, channel and both amounts of one order and nothing else |
| OrderStore.Store.MarkPaid | src/store.rs:207-234 | the locked read and update agree with the atomic statement: refused on status 1 only; a transaction or buyer that is given replaces the stored one, and one that is not given leaves it |
| OrderStore.Store.RecordNotifyAttempt | src/store.rs:236-255 | a success sets 99, a failure adds one, both stamp the time |
| OrderStore.Store.PendingNotifications | src/store.rs:258-266 | returns distinct pending orders, all of them or exactly the limit |
| OrderStore.Store.ExpirePendingOrders | src/store.rs:604-613 | closes exactly the unpaid orders past the limit and answers their number |
| OrderStore.Store.OrderSetRefunded | src/store.rs:819-828 | refunds an order if and only if it is paid at that moment |
| OrderStore.Store.OrderUpdateStatus | src/store.rs:830-846 | the admin edit; status 1 restarts notification that had run out or was done |
| Notification.NotifyMerchant | src/web.rs:595-665 | sends the address with the signed query of the stored order and records one attempt, or sends and records nothing when order or key is missing |
| CallbackQueries.SentTells | src/web.rs:570-587 | the sent parameters, field by field: the merchant's number, our trade number as `trade_no` and its own as `out_trade_no`, type, name, the stored money, the success status, `param` exactly if the order has one, the digest of it all under its key, and nothing else |
| CallbackQueries.MerchantReadsOrder | src/web.rs:604-621 | the merchant that parses the query of a notification or redirect, to an address without fragment and fields of its own, reads exactly those fields of the order, with that signature |
| CallbackQueries.QueryIsBetween | src/web.rs:585-592 | the query component stands between the first question mark and the fragment (RFC 3986, section 3) |
| Notification.OrderCallbackSurvives | src/web.rs:604-621 | for every stored order the merchant that parses the callback gets exactly the sent parameters if and only if they fit the limits, and the signature verifies with its key; what they say is `CallbackQueries.SentTells` |
| CallbackQueries.StoredCallbackSurvives | src/web.rs:604-621 | the callback of every order that the columns can hold comes through whole: its query always fits the limits |
| CallbackQueries.AddressCondition | src/web.rs:585-592 | the query component of an address with the signed text behind it carries exactly the signed parameters if and only if the address has no fragment and no field of its own; behind a fragment only the address's own query arrives |
| CallbackQueries.RedirectSurvives | src/web.rs:555-593 | the same for every stored order and every stored address |
| Notification.CallbackMoney | src/web.rs:610-610 | the amount in a callback reads as exactly the stored fen |
| Notification.RetryTick | src/web.rs:667-682 | one turn of the retry loop selects the smaller of 20 and all pending orders and, among whatever statements others run ahead of each request and during it, records one attempt for each selected order that is still there and has a key, in order, and nothing else |
| Draining.QuietKeepsLeft | src/store.rs:236-255 | no statement but a win or an edit to status 1 adds attempts to any order, and recording one uses one up |
| Draining.QuietRunLowers | src/store.rs:236-255 | quiet statements of any handlers, in any order, lower the sum over paid orders of max(0, 5 - notify) by one for each order among any set that gets an attempt or is deleted |
| Draining.TurnSettles | src/web.rs:678-680 | a turn of the code settles every selected order whose merchant has a key, whatever others do meanwhile |
| Draining.TickLowers | src/web.rs:667-682 | a turn of the code, mixed with quiet statements of others, lowers the sum by at least the number of selected orders with a key |
| Draining.RoundLowers | src/web.rs:667-682 | the same inside the runs of the concurrent gateway, between the retry task's reading and any later state; keyless orders are never added |
| Draining.SelectsKeyed | src/store.rs:258-266 | when fewer than twenty orders with attempts left are keyless and the pauses of all those orders are over, a turn selects an order with a key as long as one has attempts left |
| Draining.KeylessNeverDrains | src/web.rs:596-597 | over whole runs with any number of turns, while attempts are recorded for orders with a merchant key only, a pending order without one keeps its counter, time and status and stays pending, whatever else is run on it, unless it is refunded, edited by hand or deleted |
| Draining.Starves | src/web.rs:671-680 | twenty keyless orders can fill every turn, for ever, and then nothing else is ever notified |
| Draining.RetryDrains | src/web.rs:667-682 | in every run, with fewer than twenty keyless orders: after as many rested turns as keyed attempts were left, mixed with any quiet statements of others even inside a turn, no order of a merchant with a key is pending at any time |
| Draining.DrainsExactly | src/web.rs:667-682 | the exact condition: enough turns always drain the orders of merchants with keys if and only if fewer than twenty keyless orders have attempts left, or there is nothing to drain |
| Draining.TurnsExist | src/web.rs:667-682 | from every state without locks any number of such turns can follow |
| Callbacks.PayAndNotify | src/web.rs:505-513 | marks the order paid and notifies its merchant exactly if this call won and the merchant has a key: the returned message is there exactly then, and the counter and time of the order change exactly then |
| Callbacks.PaymentEffect | src/web.rs:505-513 | afterwards the order is paid exactly if the payment committed or it was paid before; its whole submission is the same, and no other order has changed |
| Callbacks.PaymentNotifies | src/web.rs:505-513 | if the payment commits on an order that was not paid and whose merchant has a key, the counter is 99 after a delivery and one higher otherwise, and the time of the attempt is now; in every other case both stay |
| Callbacks.PaymentRecords | src/store.rs:224-231 | a win stores the given transaction and the given buyer each in its own column, and the time; what is not given stays |
| Callbacks.AlipayRecords | src/web.rs:500-509 | a winning Alipay callback stores `trade_no` as transaction and `buyer_id`, or else `buyer_open_id`, as buyer |
| Callbacks.AlipayNotify | src/web.rs:468-515 | the table changes exactly for genuine success callbacks whose amount fits, and the answer is `fail` exactly for those that are not genuine or whose success names another amount; what is genuine is `Callbacks.AlipayOrderIsGenuine` |
| Callbacks.AlipayOrderIsGenuine | src/alipay.rs:167-180 | the handler takes a callback for genuine exactly if its body parses without a repeated key, names a stored order, and its `sign` is a valid RSA signature of its other fields under the keys of the channel with the order's id |
| Callbacks.AlipayPaysExactly | src/web.rs:468-513 | sound and complete, without the handler's own tests: it pays exactly on callbacks that are signed with the keys of their order's channel, carry one of the two success statuses, and spell the submitted fen |
| Callbacks.WxpayV2Notify | src/web.rs:732-774 | the table changes exactly for signed success callbacks with the right fee; other reports are acknowledged without a change |
| Callbacks.WxpayV2OrderIsKnown | src/web.rs:736-748 | the handler finds order and key exactly if the scanned document names a stored order and the channel with its id has a readable configuration |
| Callbacks.WxpayV2PaysExactly | src/web.rs:732-769 | sound and complete, without the handler's own tests: it pays exactly on callbacks whose `sign` is the digest of their other fields and the key of their order's channel, that report success twice, and whose fee reads as the submitted fen |
| Callbacks.WxpayV3Notify | src/web.rs:778-839 | the loop over the channels does what the first channel with a verdict decides, and nothing if there is none |
| Callbacks.ScanOrderIndependent | src/web.rs:799-838 | with pairwise distinct key ids every permutation of the channels gives the same answer and effect as the one matching channel alone |
| Callbacks.V3PaysExactly | src/web.rs:799-832 | one channel decides for payment exactly on notifications that carry the serial of its platform key and that key's signature over time stamp, nonce and body, that its secret decrypts, and that report the payment of an order of its own for exactly its money |
| Callbacks.V3Acknowledges | src/web.rs:812-827 | one channel answers without paying exactly on verified and decrypted notifications of its own order: success if they report no payment, failure if they report another amount |
| Callbacks.V3ScanPaysExactly | src/web.rs:799-838 | with distinct key ids the scan over all channels pays an order exactly when one channel verified, decrypted, owns the order, reports success and names exactly the submitted fen |
| Callbacks.OneVerdict | src/wxpay_v3.rs:176-192 | the key id gate lets at most one channel decide |
| CallbackRuns.CallbacksAreExactInRuns | src/web.rs:486-509 | in every state that any interleaving reaches, the Alipay and WeChat v2 handlers pay exactly on genuine success callbacks that name the submitted fen |
| CallbackRuns.V3IsExactInRuns | src/web.rs:799-838 | and so does the WeChat v3 handler with its scan, when key ids are distinct |
| CallbackRuns.VerifiedCallbackPays | src/web.rs:765-772 | for all schedules: once a callback passed its tests, whatever its handler and the others do in between, if its payment statement commits and the order is still there, the order is paid at that commit, and the handler goes on to notify exactly if the row that it had locked was not paid |
| CallbackRuns.VerifiedAmountStays | src/web.rs:757-769 | and at that commit the order is there and the verified amount still names its money, if nothing was deleted |
| CallbackRuns.VerifiedCallbackCanPay | src/web.rs:765-772 | some continuation always gets the payment through, whatever locks others hold |
| CallbackRuns.AcknowledgedUnpaid | src/web.rs:505-514 | for all schedules: when the handler of a callback that passed its tests answers success, the order is unpaid exactly if it is gone, or its payment failed and nobody else had got it paid |
| CallbackRuns.GoneOnlyByDelete | src/store.rs:797-803 | an order that was there and is gone was deleted in between |
| CallbackRuns.FailedPaymentIsLost | src/web.rs:505-514 | the run in which a genuine callback is answered with success and its order stays unpaid |
| CallbackRuns.GenuineCallbackGetsThrough | src/web.rs:505-513 | for all schedules, every callback that the Alipay, WeChat v2 or WeChat v3 handler would accept in a reachable state pays its order at the commit of its payment statement |
| Channels.SupportsNamesExpected | src/web.rs:757-761 | comparing a callback with the printed stored amount is comparing fen: printing and reading back loses nothing |
| Submission.SignedSubmissionIsRead | src/web.rs:103-153 | fields that an active merchant signs with its own key are read exactly if the amount can be read, as the fen that it denotes |
| Submission.ReadMeansSigned | src/web.rs:103-153 | whatever is read carries the signature of an active merchant's own key and an amount; which fields the signature covers is `SignContent.MerchantContentCovers` |
| Submission.TamperedIsRefused | src/web.rs:136-139 | with a digest without collisions, a request that carries a signature made with the merchant's key is read only if it agrees with what was signed on every non-empty field other than `sign` and `sign_type` |
| Submission.Submit | src/web.rs:88-227 | a request that is not well formed changes nothing; a well-formed one reuses its unpaid order or creates one, then sets a channel within limits (`Submission.LimitsDecide`, `Submission.ChannelIsLowest`) |
| Submission.RefusalKeepsOrder | src/web.rs:179-219 | a submission that is not dispatched leaves the table as it was if and only if the pair had an order already or none could be created; otherwise the new order stays, without a channel |
| Submission.UnknownTypeIsStored | src/web.rs:180-203 | a new order of an unknown payment type is stored, and then refused |
| Submission.HandleRequest | src/web.rs:160-226 | refused as changed or finished, refused for lack of a free number, or goes on with exactly one order of its pair |
| Submission.LimitsDecide | src/web.rs:205-226 | a submission that goes on to a channel is answered that its request is bad exactly if a limit of the channel, as it is spelled, is broken; otherwise it is dispatched to this channel |
| Submission.ChannelIsLowest | src/store.rs:85-111 | the channel is the enabled one with the lowest id among those of the requested type |
| Submission.NewOrderSays | src/store.rs:139-152 | a new order holds the submitted fields in their columns, is unpaid, and has no attempt, end time, transaction, buyer or refund |
| Submission.SubmitOnlyAdds | src/web.rs:160-198 | other orders stay as they were; at most one order is added, with nineteen characters, and only when the pair had none |
| Submission.SubmitKeepsUnique | src/web.rs:160-198 | a submission that is not interleaved keeps at most one order per merchant and order number |
| Submission.SubmitKeepsAmounts | src/web.rs:200-226 | keeps the amount invariant; what goes on to a provider has the submitted fields, amount and a channel whose limits, as they are spelled, the amount keeps |
| Submission.ResubmissionReusesOrder | src/web.rs:164-179 | an identical resubmission of an unpaid order is accepted, under its old number, exactly when the money text is canonical |
| Memories.MemoriesHold | src/web.rs:160-166 | in every run, whoever is about to create an order searched a committed table without one of its pair, whoever is about to set a channel read its order unpaid or created it, and whoever refunds read its order paid |
| Memories.PaidUnlessLost | src/store.rs:819-846 | an order that was paid is paid later exactly unless a refund, an edit or a deletion took it away and nothing paid it again |
| ChannelDrift.RefundChannel | src/admin.rs:857-864 | without edits and deletions, the channel that a refund reads is the one at the win exactly if no statement in between sets it, or the last one that does sets the same |
| ChannelDrift.LateChannelWasReadEarly | src/web.rs:164-224 | whoever sets the channel after the win had read the order, or created it, before the win |
| ChannelDrift.ChannelMovesAfterWin | src/web.rs:221-224 | the run in which a paid order gets another channel |
| Uniqueness.UniqueExactly | src/web.rs:160-198 | in every interleaved run without deletions, no state has two orders of one merchant and order number if and only if no committed insert looked for its order before another insert of the pair committed |
| Uniqueness.InterleavedSubmitsDuplicate | src/web.rs:160-198 | the run that fails, step by step: two handlers look for a new pair, then both create it, and two orders are left |
| Submission.SerialSubmitsAreUnique | src/web.rs:88-227 | in every run of non-interleaved submissions and any other statements no pair has two orders |
| Refund.OrderRefund | src/admin.rs:849-889 | goes on to the update if and only if the order was there and paid, the channel with its id is an Alipay channel, and the provider agreed; the table then is what the update makes of it as it is after whatever ran meanwhile. A refusal of the provider leaves what ran meanwhile, and every earlier stop the table as it was |
| Refund.RefundTakesMoneyOnce | src/admin.rs:868-881 | whatever ran during the provider call, the refund is recorded exactly if the order is still paid, takes exactly its money out of the paid amount, and cannot be recorded again |
| Courses.RefundRefines | src/admin.rs:857-886 | in every run, when the update of an agreed refund commits, the table becomes what the update makes of the table that the refund read and the statements that committed since, and the refunded amount is the one that it read |
| Courses.RefusedRefund | src/admin.rs:868-878 | a refund that the provider refuses ends without a statement |
| Courses.PaymentCourse | src/web.rs:500-513 | the steps of a callback of an unpaid keyed order in the concurrent gateway, up to the recorded notification, leave the table as the method of the handlers does |
| Courses.SubmitCourse | src/web.rs:160-226 | the steps of a submission of a new pair leave an unpaid order with its own money as amounts and its channel |
| RefundCalls.RefundBooks | src/admin.rs:849-889 | in every run the provider returned the money of an order once for each recorded refund, each refund statement that came too late, each that failed, and each still to come |
| RefundCalls.LateIsOvertaken | src/store.rs:819-828 | a refund statement comes too late exactly if, since its handler read the order paid, another refund, an edit or a deletion took it away and nothing paid it again |
| RefundCalls.ReturnedAsRecorded | src/admin.rs:879-886 | the money was returned exactly as often as recorded if and only if no refund statement is overtaken in that way, none failed, and none is still to come |
| RefundCalls.ReturnedTwice | src/admin.rs:857-876 | two refunds that both read the paid order have its money returned twice |
| Money.ParseOfSpelling | src/protocol.rs:185-199 | every spelling of an amount reads as the fen it denotes, or as nothing if that exceeds 64 bits |
| Money.ParseDomain | src/protocol.rs:185-199 | reading fails exactly on texts outside digits+ ('.' digits{0,2})? and on values beyond the largest i64 |
| Money.ReadBackPrinted | src/protocol.rs:185-203 | reading a printed amount gives it back if and only if it is not negative |
| Money.PrintBackRead | src/protocol.rs:185-203 | printing a read text gives the text back if and only if it is canonical |
| Money.PrintedIsCanonical | src/protocol.rs:201-203 | printed amounts have two fraction digits and no spare zero |
| Money.AgreesWithPrinted | src/web.rs:517-524 | `amounts_differ` is false against a printed amount exactly for the spellings of that amount |
| SortedMap.SortedKeys | src/protocol.rs:21-28 | the iteration lists every key once, in ascending order |
| SortedMap.SortedUnique | src/protocol.rs:21-28 | a set of keys has only one ascending order |
| SignContent.SignedKeys | src/protocol.rs:24-24 | what survives the filter is exactly the non-empty fields outside the skipped keys, still ascending |
| SignContent.SignatureFieldsIgnored | src/protocol.rs:44-54 | adding `sign` and `sign_type` does not change the sign string |
| SignContent.ContentInjective | src/protocol.rs:21-42 | for keys without `=` and `&` and values without `&`, equal sign strings mean equal signed fields, and conversely |
| SignContent.MerchantContentCovers | src/protocol.rs:21-28 | for separable fields, two merchant sign strings are equal if and only if the maps agree on every non-empty field other than `sign` and `sign_type` |
| SignContent.AlipayContentCovers | src/protocol.rs:35-42 | the same for requests to Alipay, whose sign string leaves out `sign` alone |
| SignContent.MerchantSignatureBinds | src/protocol.rs:44-54 | with a digest without collisions and keys of one length, a signature verifies if and only if the key is the one that made it and those fields are the signed ones |
| SignContent.SignTextOfTwo | src/protocol.rs:21-49 | the written form: `k=v` in ascending order of keys, joined by `&`, with the key right behind |
| WxpayV2.Sign | src/wxpay_v2.rs:20-32 | the loop's buffer is the Alipay content, then `&` unless it is empty, then the key |
| WxpayV2.ToXml | src/wxpay_v2.rs:50-64 | the loop prints one CDATA element per field in ascending order |
| WxpayV2.ParseFlatXml | src/wxpay_v2.rs:68-95 | the scanner terminates on every text and computes the recursive meaning of its turns |
| WxpayV2Trip.ReadsValue | src/wxpay_v2.rs:85-92 | behind a tag, the printed value is read back whole, with spaces, empty or with `]]>` inside, and reading goes on right after its closing tag |
| WxpayV2Trip.TakenAtTag | src/wxpay_v2.rs:78-92 | whatever text follows an opening bracket, a value that is read never holds its own closing tag |
| WxpayV2Trip.CloseOccursOnlyAtEnd | src/wxpay_v2.rs:84-86 | the first closing tag after a printed value is its own, across CDATA, unless the value holds it |
| WxpayV2Trip.TakesElement | src/wxpay_v2.rs:71-92 | a printed element is taken off the front with exactly its key and value, whatever follows |
| WxpayV2Trip.ScannedFields | src/wxpay_v2.rs:68-95 | on every text at all, each scanned tag is well formed and no scanned value holds its own closing tag |
| WxpayV2Trip.XmlRoundTrip | src/wxpay_v2.rs:50-95 | for well-formed keys, scanning a printed map gives the map back if and only if no value holds the closing tag of its key |
| WxpayV2Trip.TakesPlainElement | src/wxpay_v2.rs:68-95 | an element without CDATA is read with its trimmed text, whatever follows |
| WxpayV2Trip.ReadsPlainDocument | src/wxpay_v2.rs:68-95 | a document of plain elements is read field by field, each value trimmed |
| WxpayV2Trip.PrintedText | src/wxpay_v2.rs:50-64 | the written form of a printed field |
| WxpayV2Trip.SignedText | src/wxpay_v2.rs:20-32 | the written form of the signed text: the fields in ascending order and the key as a last one |
| WxpayV2Trip.RequestFields | src/wxpay_v2.rs:142-158 | a unified order request holds each value under its own name, and `openid` exactly if there is one |
| WxpayV2Trip.RequestArrives | src/wxpay_v2.rs:142-158 | the provider reads the whole signed request unless a value holds its own closing tag |
| WxpayV2Trip.SignedRequestSurvives | src/wxpay_v2.rs:20-39 | a signed map verifies after it was printed and scanned |
| WxpayV2Trip.UnifiedOrderSurvives | src/wxpay_v2.rs:142-158 | every unified order request verifies on arrival unless a value holds its own closing tag |
| Form.ParseUniqueParams | src/web.rs:69-86 | the loop with its seen set computes the recursive check of the decoded pairs |
| Form.AcceptsExactly | src/web.rs:69-86 | accepts exactly the lists of distinct keys with fields of admissible size, and loses nothing on the way into the map |
| Form.EncodedForm | src/web.rs:585-587 | the written form of every byte in a query (WHATWG URL Standard, section 5.2) |
| Form.QueryRoundTrip | src/web.rs:585-587 | parsing a serialised map succeeds if and only if it fits the limits, and then gives the map back |
| Form.SignedCallbackSurvives | src/web.rs:616-621 | signed parameters come back from their query if and only if they fit, and verify |
| Session.RoundTrip | src/session.rs:46-69 | a token decodes to its subject and role exactly when the subject has no dot and the expiry has not passed |
| Session.TokenText | src/session.rs:46-51 | the written form of a token: subject, role, expiry and the code over these three, joined by dots |
| Session.PayloadInjective | src/session.rs:48-48 | dot-free subjects give different payloads for different sessions |
| Session.DecodesExactly | src/session.rs:53-69 | a token decodes to a subject and role exactly when it is a correctly signed, unexpired payload that begins with them |
| Pem.WrapsIntoLines | src/protocol.rs:84-108 | full lines of 64 characters and a last one of at most 64, which joined are the compacted key |
| Pem.WrapIsNormalForm | src/protocol.rs:77-108 | wrapping a wrapped key again, bare or inside any of the three headers, gives it back |
| Pem.HeadersAreRemoved | src/protocol.rs:84-108 | wrapping gives the same for a wrapped key and for the same key in each of the three headers, written out |
| Text.FindIsFirst | src/wxpay_v2.rs:71-86 | a search finds the first occurrence, and nothing exactly if there is none |
| Text.SplitOfJoin | src/protocol.rs:27-27 | splitting a joined list gives the list back when no part holds the separator |
| Text.ParseOfPrint | src/session.rs:64-64 | every i64 reads back from its decimal text |
| Text.ParseI64Reads | src/web.rs:758-758 | reading a number gives n exactly if n fits 64 bits and the text is its digits, perhaps with leading zeros, behind an optional sign |

## Left out

- HTTP routing, the content type test of `submit`, cookies, HTML pages and the QR page: user interface with little state. `submit` starts from the parsed parameters.
- Calls to payment providers (`dispatch_pay`, Alipay refund, PayPal, Stripe, `unified_order` sending, WeChat v3 `create_order`): their answers are parameters.
- PayPal and Stripe handlers are modelled in runs only as payment calls without an amount test; their currency conversion uses floating point and is not part of this model.
- MD5, HMAC, RSA and AES-GCM are function parameters: only determinism is used, and the output alphabet where a printer needs it. Constant-time comparison is equality.
- JSON channel configurations and decrypted resources are read by function parameters. Request texts are strings whose characters are UTF-8 bytes in `Form` and Unicode scalars elsewhere; the two agree on ASCII.
- SQL text, collation and case folding, `CURDATE`, and the columns that no modelled operation reads (`date`, `payurl`, `ip`, `profitmoney` and others).
- Database failures other than an aborted transaction, a duplicate key and a value that does not fit its column; in particular a commit whose outcome is unknown. A failing `set_channel` in `submit` is ignored by the code and appears in `Interleaving` as an abort.
- Amounts stored in DECIMAL(10,2) are the subset type `Amount` below 10^10 fen, and strict SQL mode is taken: what does not fit is refused by the insert. The notify counter does not overflow its column.
- Rows affected are rows matched, as the database driver asks the server to report.
- Locks are exclusive per key, absent keys can be locked, and a running table scan keeps new keys out; deadlock detection appears only as an abort that may happen at any time.
- Channel and merchant edits during a run: channels are fixed in `Interleaving`, as the invariant about limits needs.
- Admin status edits and deletions: they are steps of the machine, and the laws that they break by design name the runs without them.
- Uniqueness of merchant and order number under interleaved submissions: the code does not provide it; deletions, after which a pair may be created again, are outside `Uniqueness.UniqueExactly`.
- Signed redirects are not claimed to belong to paid orders: the return handlers do not test that.
- The order filters of `order_stats`: the paid amount is taken over all orders.
- The page and batch operations of the admin, the merchant portal, login, registration, password hashing, deployment.
- Draining.RetryDrains: speaks of turns in which every selected order with a key gets its attempt recorded or is deleted, at times when the pause of every order with attempts left is over; wins and edits to status 1, which add attempts, are outside.
- Draining.Starves: the database may choose the same twenty orders every time; nothing is said of how it chooses.
- CallbackRuns.VerifiedCallbackCanPay: some continuation gets the payment through; that the scheduler takes one is not assumed.
- Notification.RetryTick: the answers of the merchants, the pauses and the statements of other handlers are parameters.
- CallbackRuns.AcknowledgedUnpaid: providers that send the callback again are not modelled.
- ChannelDrift.RefundChannel: edits by hand and deletions of the order are outside.
- Callbacks.PayAndNotify: the statements that others run during the request to the merchant appear in `Interleaving` only.
- Callbacks.WxpayV2Notify: the message texts of refusals are not stated.
- WxpayV2Trip.XmlRoundTrip: keys that hold `]` are outside the statement; the end of CDATA can complete their closing tag.
- WxpayV2Trip.UnifiedOrderSurvives: one direction; whether a request that does not come back whole still verifies depends on the digest.
- Money.ReadBackPrinted: the smallest i64, whose absolute value overflows, is outside the domain of the printer.
- Session.RoundTrip: the expiry is a wrapping 64-bit sum, as in a release build.
- Pem.WrapIsNormalForm: ASCII keys only; on other texts the code can split a character and stop.
- Pem.WrapsIntoLines: ASCII keys only, for the same reason.
