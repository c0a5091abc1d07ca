# Verified model of the subscription, wallet, quiz and course services

This project models the stateful core of the backend in Dafny and proves what its design relies on. Tables are
sequences or maps, money and scores are exact reals, time is an integer that never runs backwards. In the models of
attribution, withdrawals, subscriptions, gates and bank account calls every database transaction (or single read or
write) is one atomic step, and the theorems are about all interleavings of such steps that meet the assumptions below.
The payment model takes an addition or a deletion of a bank account in one piece; `AccountAccesses` takes them apart.
Course operations are one step each. Where the code updates objects in place, a class with the same updates is proved
to take those steps.

| files | what they model |
|---|---|
| `Attribution`, `AttributionRules`, `AttributionSafety`, `OrderIndependence`, `AuditProcessor` | auditing a subscription event while its SecureD notification arrives early, in between or late; the retry job; the marketer's postback |
| `Deliveries` | repeated deliveries of one ICell request and the unique link from audit record to stored request |
| `LostPostbacks` | conversions that never get their postback |
| `TransactionIds`, `JsStrings` | the two parsers of PREFIX-CLICK-SOURCE transaction ids, over JavaScript's `split` |
| `Payment`, `Ledger`, `Withdrawals`, `Overdraft`, `OverdraftTight`, `BankAccounts`, `PaymentService` | wallets, their history, withdrawal requests, webhooks, bank accounts |
| `AccountAccesses`, `OverlappingAccounts` | bank account calls access by access: in order one at a time, and how overlapping ones go wrong |
| `Rewards` | the payout of the quiz pool, as a job that can be cut off and repeated |
| `Subscriptions`, `SubscriptionLives`, `Cancellation`, `OverlappingActivations`, `MeteredGates`, `GateBoundsTight`, `GateAccounts`, `SubscriptionService` | activation, cancellation, expiry and the two check-then-count interceptors |
| `Course`, `CourseEffects`, `CourseProgress`, `CourseService` | enrollments, lesson rows, cached progress, the progress report |
| `Grading`, `Selection`, `Sorting`, `Catalogue`, `Durations` | retried quiz grading, seeded question and quote selection, keyword lookup, duration text |
| `Common` | shared datatypes and sequence functions |

## What is assumed

- Attribution: no retry attempt starts before the event's own processing is over (`Prompt`; the job is queued with a
  delay of five seconds). `EarlyRetrySendsTwice` shows that without it two postbacks are possible.
- Withdrawals: session ids are not null (`RealSessions`); the overdraft bound further assumes positive amounts, no
  second completion webhook for a completed request, and at most `k` open withdrawals (`OrderlyRun`).
- Bank accounts: calls of one user follow one another and run to their end (in `BankAccounts` by construction, in
  `AccountAccesses` as `SerialRun`). `FirstAdditionsCanLeaveNone` and `StaleDeletionLeavesTwo` show that overlapping
  calls can leave no default and two defaults; `DefaultIffCountedEarly` and `RemovalIsSoundIff` say exactly when.
- Subscriptions: activations of one key (user, product, service) follow one another, whether they complete or throw
  halfway (`SerialRun`). `OverlapMakesTwo` shows that without it every key can have two live subscriptions,
  and `AnyNumberOfLives` any number.
- Gates: at most `k` requests in flight on one subscription or for one user (`LimitedRun`). Status writes may be lost;
  `QuietActiveHasAccess` says exactly what a lost one does.
- Courses: operations one at a time, lessons of a course fixed.

## Where the code and its promises differ

- `README.md` promises order-independent processing. It holds exactly for known marketer prefixes: with an unknown one
  the event's transaction throws when the SecureD notification is already stored
  (`OrderIndependence.OrderIndependentIffMarketerKnown`).
- `README.md` promises that duplicate requests are not processed twice. No delivery is recognised as a duplicate: each
  is stored, and auditing it looks up any stored request with the same fields, which can have one record only. So
  identical deliveries end with anything from one record to one each (`Deliveries.AnyNumberIsPossible`);
  `Deliveries.WhenDeliveryIsRecorded` says exactly when a delivery is sure to get, or sure not to get, a record.
- A lookup that fails is taken for an empty one. If that happens at the second read after the first one found the
  notification, the record has a marketer, no notification and no retry (`OrderIndependence.OutcomeUnderLookupFaults`).
- The daily quotes are to be `count` many. The loop compares its counter with the length of the array it shrinks and
  stops half way (`Selection.DrawDeliversCount` gives the exact condition).
- Unsubscribing is to end the live subscription. The query also returns ended rows that are still marked active, and can
  cancel one of those instead (`Cancellation.CancellationEndsLiveIff`, `Cancellation.CancellationCanMissLive`).
- A completion webhook without a session id completes a request whose transfer was never accepted
  (`Withdrawals.UnacceptedRequestCompletesIffNullSession`).
- A payout that meets a winner without a wallet stops there, and each repetition pays the winners before that one again
  (`Rewards.BlockedPayoutRepeats`). It pays exactly the pool if and only if every winner has a wallet
  (`Rewards.PayoutIsThePoolIff`), and with repetitions only if they credit as many attempts as have won
  (`Rewards.RetriesPayThePoolIff`).
- Deleting a bank account is to be refused while it has open withdrawal requests. The foreign key refuses it for closed
  ones too, so an account once used can never be deleted (`BankAccounts.DeletedIffNeverUsed`).
- A used-up subscription is to be marked exhausted. If that write fails nothing repeats it, and the subscription stays
  active (`MeteredGates.QuietActiveHasAccess`, `GateBoundsTight.LostMarkLeavesActive`).
- A conversion is to be reported to its marketer. If an access behind the commit fails and no retry job was queued, or
  the job's last attempt fails, it never is (`LostPostbacks.SentUnlessLost`).
- The postback parser cuts the click id if it ends in the marketer's prefix (`TransactionIds.RoundTrip`).

## Model

| member | source | states |
|---|---|---|
| AttributionRules.NewestIsFound | src/modules/secure-d/secure-d-retry.processor.ts:96-121 | a lookup that does not fail returns the newest notification with the event's phone number, transaction id and the product in front of the plan's underscore, and nothing only if there is none |
| AttributionRules.ConvertedReportsSuccess | src/modules/subscription/audit/subscription-audit.processor.ts:130-133 | a notification converts if and only if its activation is "1" and its description is the letters of "success" in either case |
| AttributionRules.OperationsAre | src/common/constants/icell.ts:3-24 | SN and ES subscribe, five operations renew, thirteen unsubscribe, and no other does |
| AttributionRules.ResolvedIsMarketerOf | src/modules/subscription/audit/marketer-attribution.resolver.ts:14-72 | the marketer is the one whose prefix stands in front of the first dash of the transaction id, if there is one |
| AttributionRules.NewRecordOpens | src/modules/subscription/audit/subscription-audit.processor.ts:107-208 | every column of a new record, its comment included: the newest notification, converted if that reports success, not yet acquired or churned |
| AttributionSafety.FireSends | src/modules/subscription/audit/postback.service.ts:16-59 | a call of the postback service sends what is due even when its own bookkeeping fails, and changes nothing but the comment |
| AttributionSafety.ReadsKeepSafe | src/modules/subscription/audit/subscription-context.builder.ts:163-206 | the accesses before the commit, whichever fails, leave no record and send nothing |
| AttributionSafety.CommitKeepsSafe | src/modules/subscription/audit/subscription-audit.processor.ts:107-211 | the record becomes visible with marketer, link and conversion in agreement with its notification |
| AttributionSafety.FlaggingKeepsSafe | src/modules/subscription/audit/subscription-audit.processor.ts:485-511 | writing the flags keeps the record in agreement with its notification |
| AttributionSafety.DirectPostbackKeepsSafe | src/modules/subscription/audit/subscription-audit.processor.ts:368-395 | the direct postback goes out only for a record no job is waiting for |
| AttributionSafety.RetryLinkKeepsSafe | src/modules/subscription/audit/subscription-audit.processor.ts:426-462 | linking late, attempts that die halfway included, keeps the record in agreement with its notification |
| AttributionSafety.RetryPostbackKeepsSafe | src/modules/secure-d/secure-d-retry.processor.ts:123-178 | the postback of the job is the first one for its record |
| AttributionSafety.StepKeepsSafe | src/modules/secure-d/secure-d-retry.processor.ts:27-178 | every access of either path, every arrival and every other audit keeps the invariant, with any fault |
| AttributionSafety.RunsAreSafe | src/modules/subscription/audit/subscription-audit.processor.ts:268-423 | the invariant holds in every state of every prompt run with any faults |
| AttributionSafety.CompletedIsSent | src/modules/secure-d/secure-d-retry.processor.ts:51-92 | a completed attribution has the marketer named by the transaction id, converted, acquired and churned as notification and operation say, and has sent exactly the request that is due, with address, payout and ids |
| AttributionSafety.PostbackSafety | src/modules/subscription/audit/subscription-audit.processor.ts:368-395 | over the direct path and all attempts at most one postback is sent; once attribution is complete exactly one if the linked notification has activation "1" and a description reading "success" and the marketer has a usable address, none otherwise |
| AttributionSafety.ThreeAttempts | src/modules/subscription/audit/subscription-context.builder.ts:331-345 | in every run the job begins at most three attempts, fewer as long as it waits, and gives up only after the third |
| AttributionSafety.OtherBearersClaimNothing | src/modules/subscription/audit/subscription-audit.processor.ts:118-135 | an event that did not come through SecureD gets no marketer, notification, conversion or acquisition, is churned exactly for an unsubscription, sends nothing and queues no retry |
| AttributionSafety.RefusedEventsLeaveNothing | src/modules/subscription/audit/subscription-audit.processor.ts:140-151 | an incomplete event, or one of an unknown user, leaves no record, retry or postback in any run |
| LostPostbacks.SentUnlessLost | src/modules/subscription/audit/subscription-audit.processor.ts:345-395 | whatever fails, a recorded event whose record has a successful notification and a reachable marketer has in the end sent exactly its one request, unless an access behind the commit threw with no job to take over or the job's last attempt failed; nothing is sent then, or for any other record |
| LostPostbacks.OneFaultLosesPostback | src/modules/subscription/audit/subscription-audit.processor.ts:350-369 | for every notification with activation "1" and "success" of a reachable marketer one failing access leaves a conversion recorded, a postback due, none sent and no job |
| OrderIndependence.RunsAreClean | src/modules/secure-d/secure-d-retry.processor.ts:27-92 | where at most lookups fail the job gives up exactly when its third read finds nothing, and a record without its notification but with a marketer is exactly the mark of a lost second read |
| OrderIndependence.AnyOrderSameOutcome | README.md:133-145 | with a known marketer every interleaving ends linked, with the marketer of the prefix, converted if the notification has activation "1" and "success", acquired for SN or ES, churned for an unsubscription, unless the notification misses the third attempt's read, and only then not |
| OrderIndependence.OutcomeUnderLookupFaults | src/modules/subscription/audit/subscription-audit.processor.ts:78-105 | with failing lookups the attribution is the intended one if and only if the third retry's read does not come up empty and the second read does not fail after the first one found the notification |
| OrderIndependence.SecondLookupCanLoseLink | src/modules/subscription/audit/subscription-audit.processor.ts:98-104 | the second exception is real for every known marketer: one failed lookup leaves a marketer without notification and no retry |
| OrderIndependence.OutcomeFollowsLink | src/modules/subscription/audit/subscription-audit.processor.ts:107-211 | with several notifications for the event, and no read lost, the columns are those determined by the linked one |
| OrderIndependence.MissingLeavesNothingClaimed | src/modules/secure-d/secure-d-retry.processor.ts:44-92 | an event whose notification never comes in time is marked so, has no marketer, link, conversion or acquisition, and sends nothing |
| OrderIndependence.UnknownMarketerAborts | src/modules/subscription/audit/subscription-context.builder.ts:163-206 | with an unknown prefix and the notification stored first, no run ever records the event |
| OrderIndependence.OrderIndependentIffMarketerKnown | README.md:133-145 | the outcome is independent of the order of arrival if and only if the marketer's prefix is known |
| OrderIndependence.EarlyRetrySendsTwice | src/modules/subscription/audit/subscription-context.builder.ts:316-356 | without the job's delay every converting notification of a reachable marketer has a run that sends two postbacks |
| OrderIndependence.PostbackCarriesIds | src/modules/subscription/audit/postback.service.ts:16-123 | the one postback of a completed attribution goes to the marketer's address with its payout and carries the click and source ids of the transaction id |
| AuditProcessor.AuditStore.ProcessNotification | src/modules/secure-d/secure-d.service.ts:11-39 | a SecureD notification is stored, nothing is sent, and the tables stay safe |
| AuditProcessor.AuditStore.BuildContext | src/modules/subscription/audit/subscription-context.builder.ts:66-99 | the first read of the SecureD table: incomplete events are refused, and found notifications without a known marketer throw; the marketer is set exactly if a notification is found |
| AuditProcessor.AuditStore.CreateRecord | src/modules/subscription/audit/subscription-audit.processor.ts:107-211 | the transaction from the second read on: without a user nothing is recorded, a missing marketer queues the job, the commit makes the record visible with every column as its reads say |
| AuditProcessor.AuditStore.ProcessPostback | src/modules/subscription/audit/postback.service.ts:16-59 | the request that is due goes out, with address, payout and ids, whatever happens to its note; the note says success exactly if the request succeeded |
| AuditProcessor.AuditStore.UpdateFlags | src/modules/subscription/audit/subscription-audit.processor.ts:485-511 | the three flags are written, and nothing else, unless the access throws |
| AuditProcessor.JudgementIs | src/modules/subscription/audit/acquisition-churn.processor.ts:20-72 | an acquisition is a subscription of a named marketer for which some SecureD record of the same number and transaction is linked to its notification |
| AuditProcessor.AuditStore.ReadAndSend | src/modules/subscription/audit/subscription-audit.processor.ts:355-390 | the record read again decides on the postback, and only its comment can change |
| AuditProcessor.AuditStore.ProcessAfterTransaction | src/modules/subscription/audit/subscription-audit.processor.ts:345-423 | judging, flagging, reading again and sending are the last direct accesses; acquired for a subscription of a named marketer of which a linked record exists, churned for an unsubscription |
| AuditProcessor.AuditStore.ProcessSubscriptionEvent | src/modules/subscription/audit/subscription-audit.processor.ts:268-423 | whichever accesses fail, the processing ends, the tables are safe, at most one postback is out, and a completed attribution has sent exactly what is due |
| AuditProcessor.AuditStore.LinkRecord | src/modules/subscription/audit/subscription-audit.processor.ts:426-462 | late link, marketer and comment; an unknown marketer leaves the column alone |
| AuditProcessor.AuditStore.ProcessWithAttribution | src/modules/secure-d/secure-d-retry.processor.ts:123-178 | linking, judging, flagging and sending are the job's accesses; it ends or goes back into the queue |
| AuditProcessor.AuditStore.ProcessRetry | src/modules/secure-d/secure-d-retry.processor.ts:27-92 | an attempt ends exactly if it finds the notification and no write fails, else counts as failed, three being the last; it keeps the tables safe with at most one postback, and one that ends has linked the newest notification, set all columns and sent exactly what is due |
| AuditProcessor.AloneIsRun | src/modules/subscription/audit/subscription-audit.processor.ts:268-423 | undisturbed processing is a prompt run of the protocol |
| AuditProcessor.AttemptIsRun | src/modules/secure-d/secure-d-retry.processor.ts:27-178 | so is an attempt made after it |
| Deliveries.RecordsInEveryRun | src/modules/subscription/audit/subscription-audit.processor.ts:155-191 | every audit record has a stored request of its own, identical requests never have more records than deliveries, and one that was ever audited keeps a record |
| Deliveries.WhenDeliveryIsRecorded | src/modules/subscription/audit/subscription-audit.processor.ts:155-191 | auditing a delivery is sure to make a record if and only if no identical request has one, and sure to be refused if and only if all identical ones have |
| Deliveries.AnyNumberIsPossible | src/modules/subscription/audit/subscription-audit.processor.ts:155-191 | n identical deliveries can leave any number of records from one to n |
| TransactionIds.RoundTrip | src/modules/subscription/audit/postback.service.ts:61-81 | the prefix of PREFIX-CLICK-SOURCE is always recovered, click and source exactly if the click id does not end in the prefix |
| TransactionIds.PrefixIsIncluded | src/modules/subscription/audit/marketer-attribution.resolver.ts:14-18 | the prefix the resolver reads occurs in the id, so the parser's other branch is never taken for it |
| TransactionIds.IdsAreDashFree | src/modules/subscription/audit/postback.service.ts:61-81 | whatever text arrives as a transaction id, the click and source ids read from it contain no dash |
| TransactionIds.IdsCut | src/modules/subscription/audit/postback.service.ts:61-81 | what the parser returns for a click id that does end in the prefix |
| TransactionIds.PartialIds | src/modules/subscription/audit/postback.service.ts:61-81 | an id without a source gives an empty source, the prefix alone no ids |
| TransactionIds.IdsWithoutPrefix | src/modules/subscription/audit/postback.service.ts:61-81 | for a prefix that does not occur the second and third piece are taken, and nothing for missing ones |
| Payment.Target | src/modules/payment/payment.service.ts:479-492 | a webhook is about a request with its session id and reference, and about none only if there is none |
| Payment.Apply | src/modules/payment/payment.service.ts:325-534 | every step keeps wallets and withdrawals referring to existing wallets |
| Ledger.StepKeepsLedger | src/modules/payment/payment.service.ts:325-534 | every step keeps each wallet's rows a gapless chain from zero to its balance |
| Ledger.LedgerAccountsForBalances | src/modules/payment/payment.service.ts:325-534 | in every reachable state the rows of a wallet chain up to its balance, which is credits less withdrawals |
| Ledger.ChainLinks | src/modules/payment/payment.service.ts:355-365 | in a chain each row's balanceAfter is the next row's balanceBefore |
| Withdrawals.OneRowPerCompletion | src/modules/payment/payment.service.ts:494-532 | the WITHDRAWAL rows of a request are its accepted completion webhooks, repeated ones included |
| Withdrawals.RequestsInEveryRun | src/modules/payment/payment.service.ts:442-532 | a session id stands exactly on processing and completed requests; ledger rows exist exactly for completed ones and number their accepted completions |
| Withdrawals.StatusMovesForward | src/modules/payment/payment.service.ts:442-532 | along every run status only moves forward, FAILED and COMPLETED are final, wallet, amount and reference stay |
| Withdrawals.TargetIsUnique | src/modules/payment/payment.service.ts:479-485 | references are unique, so a webhook addresses at most one request |
| Withdrawals.UnacceptedRequestCompletesIffNullSession | src/modules/payment/payment.service.ts:479-502 | a webhook completes a pending or failed request if and only if it has its reference and no session id |
| Overdraft.CheckKeepsSolvent | src/modules/payment/payment.service.ts:373-389 | balance less open withdrawals stays above the bound when a withdrawal passes the check |
| Overdraft.OtherStepsKeepPotential | src/modules/payment/payment.service.ts:391-534 | no other step lowers balance less open withdrawals |
| Overdraft.OverdraftIsBounded | src/modules/payment/payment.service.ts:384-534 | with at most k open withdrawals of at most limit each no balance falls below -(k-1)*limit, so with one at a time none is negative |
| OverdraftTight.BoundIsTight | src/modules/payment/payment.service.ts:384-534 | for every k, limit and margin some run brings a balance within the margin of that bound |
| BankAccounts.AddingKeepsDefaults | src/modules/payment/payment.service.ts:79-104 | an addition in one piece keeps exactly one default per user |
| BankAccounts.SettingKeepsDefaults | src/modules/payment/payment.service.ts:192-227 | setting keeps exactly one default per user |
| BankAccounts.DeletingKeepsDefaults | src/modules/payment/payment.service.ts:250-309 | a deletion in one piece keeps exactly one default per user with accounts, whichever successor is found |
| BankAccounts.DeletingKeepsTargets | src/modules/payment/payment.service.ts:262-288 | no withdrawal request loses its account |
| BankAccounts.AccountsInEveryRun | src/modules/payment/payment.service.ts:61-323 | where no two bank account calls of a user overlap: in every reachable state a user with accounts has exactly one default and every request points at an account of its own user |
| BankAccounts.AddingIs | src/modules/payment/payment.service.ts:79-104 | a number the user has changes nothing; any other becomes a verified account, the default one exactly if it is the first |
| BankAccounts.SettingIs | src/modules/payment/payment.service.ts:192-227 | an account of the user becomes the default one, none of the user's others is, and nothing else changes; any other id changes nothing |
| BankAccounts.DeletingIs | src/modules/payment/payment.service.ts:250-309 | an unreferenced account of the user goes, the successor of a default one becomes default, and nothing else changes |
| BankAccounts.DeletedIffNeverUsed | src/modules/payment/payment.service.ts:262-288 | an account goes if and only if no request of any status ever used it, although the check looks for open ones only |
| BankAccounts.UsedAccountsStay | src/modules/payment/payment.service.ts:262-288 | an account once used stays for ever |
| AccountAccesses.OneDefaultInSerialRuns | src/modules/payment/payment.service.ts:61-323 | with additions and deletions taken apart into their accesses: whatever other users do meanwhile, a user whose calls follow one another to their end has exactly one default between calls |
| AccountAccesses.RemovalIsSoundIff | src/modules/payment/payment.service.ts:249-309 | a deletion leaves one default whichever account succeeds if and only if the default flag it read is still right, or nothing remains, or just the default account does |
| AccountAccesses.UsedAccountsRemain | src/modules/payment/payment.service.ts:262-288 | however calls overlap, an account a request came to refer to stays |
| AccountAccesses.LastAccessEndsCall | src/modules/payment/payment.service.ts:79-309 | the last access of a call, or one that throws, ends it and no other call |
| OverlappingAccounts.DefaultIffCountedEarly | src/modules/payment/payment.service.ts:79-104 | however a user's additions overlap or throw there is at most one default, and in the end there is one if and only if some addition counted before the second insertion and did not throw |
| OverlappingAccounts.FirstAdditionsCanLeaveNone | src/modules/payment/payment.service.ts:79-104 | from any state a user's first two additions can leave two accounts without a default |
| OverlappingAccounts.StaleDeletionLeavesTwo | src/modules/payment/payment.service.ts:249-309 | from any state with three accounts, deleting the default one while another is made default can leave two defaults |
| OverlappingAccounts.AloneAdditionIsStep | src/modules/payment/payment.service.ts:79-104 | the accesses of an undisturbed addition add up to the one step the payment model takes |
| OverlappingAccounts.AloneDeletionIsStep | src/modules/payment/payment.service.ts:249-309 | so do those of a deletion |
| PaymentService.StepKeepsConsistent | src/modules/payment/payment.service.ts:61-534 | every step keeps ledger, default accounts and, with real session ids, requests in order |
| PaymentService.WebhookCompletes | src/modules/payment/payment.service.ts:479-532 | a completion takes the amount of the request with its session id and reference from that request's wallet and books it, and nothing else changes; without such a request nothing does |
| PaymentService.Service.OpenUserWallet | src/modules/auth/auth.service.ts:119-125 | a user without one gets an empty wallet, nobody a second one, and the tables stay in order |
| PaymentService.Service.CreditUserWallet | src/modules/payment/payment.service.ts:325-367 | balance and ledger row, or, without a wallet, no change at all; ledger, accounts and requests stay in order |
| PaymentService.Service.CheckBalance | src/modules/payment/payment.service.ts:373-389 | the call goes on exactly if the user has a wallet with more than the amount; the tables stay in order |
| PaymentService.Service.CreateRequest | src/modules/payment/payment.service.ts:391-428 | the pending request, if there is a verified account and the reference is new; the tables stay in order |
| PaymentService.Service.AnswerTransfer | src/modules/payment/payment.service.ts:442-467 | the request becomes processing with a session id, or failed; requests stay in order if the session id is real |
| PaymentService.Service.HandleWebhook | src/modules/payment/payment.service.ts:470-534 | a signed completion completes the request it finds, takes the amount and books it, anything else changes nothing; the ledger stays chained and, with a real session id, requests in order |
| PaymentService.Service.AddBankInformation | src/modules/payment/payment.service.ts:61-124 | a new number is added, as default if it is the user's first; exactly one default remains |
| PaymentService.Service.SetDefaultBankAccount | src/modules/payment/payment.service.ts:186-241 | an account of the user becomes the only default one of that user; every other field and account stays; any other id changes nothing |
| PaymentService.Service.DeleteBankAccount | src/modules/payment/payment.service.ts:243-323 | an unreferenced account goes, a deleted default is succeeded, and exactly one default remains |
| PaymentService.FirstIsAlone | src/modules/payment/payment.service.ts:87-102 | counting one account after the insertion means there was none before |
| Rewards.Users | src/modules/quiz/quiz.service.ts:464-480 | the keys of the winners map are the winning users, each once |
| Rewards.GroupByUser | src/modules/quiz/quiz.service.ts:464-480 | the loop fills the map with every user's attempts in order and their count |
| Rewards.PayListIsPermutation | src/modules/quiz/quiz.service.ts:464-506 | grouping by user partitions the winning attempts |
| Rewards.PayListOrder | src/modules/quiz/quiz.service.ts:464-506 | attempts are credited user by user in the order in which the users first won, and each user's in the order in which they were won |
| Rewards.OfUserAppend | src/modules/quiz/quiz.service.ts:464-480 | a further attempt goes behind its user's others |
| Rewards.PerAttempt | src/modules/quiz/quiz.service.ts:485-493 | the percentage arithmetic gives every attempt the same share, pool over attempts |
| Rewards.PayOutRows | src/modules/quiz/quiz.service.ts:499-507 | one ledger row per paid attempt, in order, on the winner's wallet and with the attempt's id |
| Rewards.PayOutTotal | src/modules/quiz/quiz.service.ts:499-507 | a run cut after j credits has raised the wallets by j shares together |
| Rewards.PayOutIsRun | src/modules/quiz/quiz.service.ts:499-507 | a payout is a run of the payment system, so the ledger theorems cover it |
| Rewards.CompletePayoutIsThePool | src/modules/quiz/quiz.service.ts:444-513 | a complete payout credits every winning attempt exactly once with pool over attempts, under its title and id, and raises the wallets by exactly the pool |
| Rewards.PayoutIsThePoolIff | src/modules/quiz/quiz.service.ts:444-513 | a payout that does not die pays exactly the pool if and only if every winner has a wallet |
| Rewards.AttemptsPayThePoolIff | src/modules/quiz/quiz.service.ts:444-513 | cut and repeated attempts, each capped by the first winner without a wallet, pay exactly the pool together if and only if their credits number the winning attempts |
| Rewards.RetriesPayThePoolIff | src/modules/quiz/quiz.service.ts:444-513 | with a wallet for every winner that is when the sum of min(credits survived, winning attempts) is the number of winning attempts |
| Rewards.AttemptsPayAtMost | src/modules/quiz/quiz.service.ts:444-513 | r job attempts, however they are cut, pay at most r pools |
| Rewards.BlockedPayoutRepeats | src/modules/payment/payment.service.ts:332-347 | how much a blocked payout pays: r attempts over a list whose place j has no wallet pay r*j shares |
| Rewards.CreditAttempts | src/modules/quiz/quiz.service.ts:498-507 | the inner loop pays a user's attempts up to a failure and keeps the ledger chained |
| Rewards.ProcessQuizWinningRewards | src/modules/quiz/quiz.service.ts:444-513 | the nested loops pay the grouped list at pool over attempts up to the first winner without wallet or the crash, and keep the ledger chained |
| Subscriptions.LastLive | src/common/interceptors/subscription-access.interceptor.ts:24-36 | the newest live row that passes the filter, and none only if there is none |
| Subscriptions.DueRows | src/modules/subscription/subscription.service.ts:363-374 | the sweep finds all and only active rows ended by its cutoff |
| SubscriptionLives.StepAges | src/modules/subscription/subscription.service.ts:65-182 | no step returns a row to ACTIVE or changes its key, end or limit |
| SubscriptionLives.StepKeepsLives | src/modules/subscription/subscription.service.ts:65-149 | every step, activations thrown out halfway included, keeps at most one live row per key and what activations under way know |
| SubscriptionLives.AtMostOneLive | src/modules/subscription/subscription.service.ts:87-136 | no serial run, whatever else interleaves or fails, has two live rows of a key |
| SubscriptionLives.ActivationLeavesItsOwn | src/modules/subscription/subscription.service.ts:108-136 | right after an activation its own row is the only live one of the key if the result code is 0, and none is live otherwise |
| SubscriptionLives.NothingRevives | src/modules/subscription/subscription.service.ts:65-182 | a row that is not ACTIVE never becomes so again |
| SubscriptionLives.SweepSparesLive | src/modules/subscription/subscription.service.ts:362-382 | a row about to be expired ended at least two days ago, however late the write |
| SubscriptionLives.SweepQueuesDue | src/modules/subscription/subscription.service.ts:362-379 | the sweep expires all and only active rows that ended by the midnight two days before the last one |
| SubscriptionLives.SubscriptionLastsItsDays | src/modules/subscription/subscription.service.ts:108-136 | a paid subscription is live exactly while it is ACTIVE and its validity days from the activation have not run out |
| Cancellation.CancellationEndsLiveIff | src/modules/subscription/subscription.service.ts:151-175 | cancelling ends the live row for every row the query may pick if and only if no ended row of the key is still active beside it |
| Cancellation.FindsNothingIff | src/modules/subscription/subscription.service.ts:157-167 | the query comes up empty exactly when no row of the key is active |
| Cancellation.CancellationCanMissLive | src/modules/subscription/subscription.service.ts:151-175 | a reachable state where cancelling leaves the live row |
| OverlappingActivations.OverlapMakesTwo | src/modules/subscription/subscription.service.ts:87-136 | in every state, every key without a live row gets two from two overlapping activations |
| OverlappingActivations.OverlapAddsOne | src/modules/subscription/subscription.service.ts:87-136 | two overlapping activations of any key in any state leave one live row more than there was |
| OverlappingActivations.ActivationKeepsCount | src/modules/subscription/subscription.service.ts:87-136 | an activation on its own never heals that: a key with n > 0 live rows keeps n |
| OverlappingActivations.AnyNumberOfLives | src/modules/subscription/subscription.service.ts:87-136 | with never more than two activations in flight a key can have any number of live rows |
| MeteredGates.StepKeepsAccess | src/common/interceptors/subscription-access.interceptor.ts:38-60 | counted plus admitted accesses stay within the limit plus k-1 |
| MeteredGates.StepKeepsQuiz | src/common/interceptors/quiz-attempt.interceptor.ts:16-54 | the quiz balance less admitted requests stays at or above 1-k |
| MeteredGates.OvershootIsBounded | src/common/interceptors/subscription-access.interceptor.ts:38-109 | in every reachable state accessCount is at most maxAccess+k-1 and a quiz balance at least 1-k |
| MeteredGates.GateAdmitsIff | src/common/interceptors/subscription-access.interceptor.ts:24-43 | a request is admitted on a row if and only if that is the user's newest active row that has not ended and has accesses left |
| MeteredGates.QuietActiveHasAccess | src/common/interceptors/subscription-access.interceptor.ts:45-60 | with no exhaustion mark outstanding an ACTIVE subscription has accesses left if and only if no mark of it was lost |
| MeteredGates.MetersAreExact | src/common/interceptors/quiz-attempt.interceptor.ts:49-80 | over any run a quiz balance is what was granted less the counted requests, and an access count is the number of counted requests |
| GateBoundsTight.AccessBoundIsTight | src/common/interceptors/subscription-access.interceptor.ts:89-109 | for every k some run reaches 9999999+k-1 accesses |
| GateBoundsTight.QuizBoundIsTight | src/common/interceptors/quiz-attempt.interceptor.ts:56-80 | for every k some run reaches a quiz balance of 1-k |
| GateBoundsTight.LostMarkLeavesActive | src/common/interceptors/subscription-access.interceptor.ts:54-59 | a lost mark does leave a used-up subscription active with nothing left to mark it, one request at a time being enough |
| GateAccounts.RequestsAreAccounted | src/common/interceptors/subscription-access.interceptor.ts:89-109 | the requests in flight on a subscription are those its gate let through less those counted or failed |
| GateAccounts.QuizRequestsAreAccounted | src/common/interceptors/quiz-attempt.interceptor.ts:56-80 | so are a user's quiz requests in flight |
| GateAccounts.WritesAreAccounted | src/modules/subscription/subscription.service.ts:151-182 | every EXHAUSTED, CANCELLED or EXPIRED is decided by exactly its cause and written once for each decision, unless it is lost |
| GateAccounts.ActivationsGrantOnce | src/modules/subscription/subscription.service.ts:108-146 | in every run an activation creates at most one row and grants its attempts at most once, and not without having created it |
| SubscriptionService.Service.HandleSubscriptionActivation | src/modules/subscription/subscription.service.ts:65-149 | an undisturbed activation is its four steps, replaces exactly the current row, appends the new one column by column, adds the quiz attempts, keeps at most one live row per key, and leaves exactly its own live if it was paid for, else none |
| SubscriptionService.ActivationIs | src/modules/subscription/subscription.service.ts:87-136 | the current row of the key is replaced and the new one put behind: active for result code 0 and else failed, ending after its days of 86400000 milliseconds if it has any, with 9999999 accesses |
| SubscriptionService.ActivatedEffect | src/modules/subscription/subscription.service.ts:87-146 | those steps replace the newest live row, append the new one and add the quiz attempts |
| SubscriptionService.ActivatedLives | src/modules/subscription/subscription.service.ts:87-136 | after them the key has exactly the paid row live, or none, and no key has two |
| SubscriptionService.Service.DeactivateSubscription | src/modules/subscription/subscription.service.ts:151-175 | exactly the row that was found becomes CANCELLED, and is the only one that may stop being live |
| SubscriptionService.Service.ProcessSubscriptionExpirations | src/modules/subscription/subscription.service.ts:362-382 | the loop expires all and only the active rows that ended by the midnight two days before the last one, returns how many, and every key keeps its live rows |
| SubscriptionService.Service.CheckAccess | src/common/interceptors/subscription-access.interceptor.ts:24-43 | a request is admitted on row i if and only if i is the newest row of the user that is active and not ended and its accessCount is below its maxAccess |
| SubscriptionService.Service.IncrementAccessCount | src/common/interceptors/subscription-access.interceptor.ts:45-60 | counting and marking are the gate's two steps: the row becomes exhausted exactly with its last access |
| SubscriptionService.Service.InterceptAccess | src/common/interceptors/subscription-access.interceptor.ts:89-109 | undisturbed, a request is admitted exactly on the user's newest usable row with accesses left, counts once there, within the limit, and exhausts it exactly with the last access; a failed handler counts nothing |
| SubscriptionService.Service.InterceptQuiz | src/common/interceptors/quiz-attempt.interceptor.ts:56-80 | undisturbed, a request deducts one attempt and never overdraws; a failed handler deducts nothing |
| CourseProgress.StartedIsOk | src/modules/course/course.service.ts:652-702 | starting a lesson keeps progress, status and completion date in agreement, although it never clears the date |
| CourseProgress.FinishedIsOk | src/modules/course/course.service.ts:791-836 | so does completing one |
| CourseProgress.DroppedIsOk | src/modules/course/course.service.ts:251-283 | so does dropping, with or without history |
| CourseProgress.EnrollmentsInEveryRun | src/modules/course/course.service.ts:155-862 | in every reachable state progress times lessons is 100 per completed and 50 per started lesson and progress is within 0..100, completedAt is set exactly for COMPLETED, COMPLETED means every lesson is, IN_PROGRESS that one is not, started rows have a start |
| CourseProgress.StepRaisesByOne | src/modules/course/course.service.ts:661-835 | credit rises by one unit exactly when a lesson is first started or completed |
| CourseProgress.ProgressIsAMeasure | src/modules/course/course.service.ts:661-835 | until history is deleted progress never falls, each rise is 50/total, at most 2*total steps raise it |
| CourseProgress.ReportAgrees | src/modules/course/course.service.ts:480-588 | the report's three counts sum to the lessons and give its overall progress |
| CourseProgress.StartDatesStay | src/modules/course/course.service.ts:655-674 | no later operation moves the date a lesson was first started, until history is deleted |
| CourseEffects.EnrollIs | src/modules/course/course.service.ts:189-217 | a new enrollment has progress 0 and an untouched row for each lesson |
| CourseEffects.DropIs | src/modules/course/course.service.ts:251-283 | dropping without history leaves no rows and progress 0, with history both as they were; the status is DROPPED and completedAt empty |
| CourseEffects.StartIs | src/modules/course/course.service.ts:652-702 | starting sets the row of the lesson, keeps the date of its first start and every other row, and recomputes the progress |
| CourseEffects.CompletionIs | src/modules/course/course.service.ts:781-836 | completing dates the row of the lesson, keeps every other row, recomputes the progress, and completes the course exactly with its last lesson |
| CourseService.Service.EnrollInCourse | src/modules/course/course.service.ts:155-227 | the new enrollment with an untouched row per lesson, or which refusal; no other enrollment changes; progress, status and dates stay in agreement |
| CourseService.Service.DropCourseEnrollment | src/modules/course/course.service.ts:229-291 | an enrollment is dropped with rows and progress kept, or, without history, no row left and progress 0; no other enrollment changes; progress, status and dates stay in agreement |
| CourseService.Service.StartLesson | src/modules/course/course.service.ts:590-719 | the started lesson and new progress, or which refusal; no other enrollment changes; progress, status and dates stay in agreement |
| CourseService.Service.CompleteLesson | src/modules/course/course.service.ts:721-862 | the completed lesson, progress and status, or which refusal; no other enrollment changes; the start date it reads is there |
| CourseService.Service.GetCourseProgress | src/modules/course/course.service.ts:480-588 | the report counts the lesson rows and covers the course |
| Grading.AttemptRecord.GradeAnswers | src/modules/quiz/quiz.service.ts:287-303 | the loop totals a fifth of the passing score per right answer and flags exactly those, or dies having flagged the right ones of some first answers |
| Grading.AttemptRecord.ProcessQuizGrading | src/modules/quiz/quiz.service.ts:264-315 | one run of the job, cut off or complete, answer by answer; a graded or published attempt is left alone |
| Grading.AttemptRecord.Publish | src/modules/quiz/quiz.service.ts:429-442 | publication touches nothing else |
| Grading.VerdictIs | src/modules/quiz/quiz.service.ts:288-297 | an answer is right exactly if the first question with its question id has as first option with its option id a correct one; the loop throws exactly where there is none |
| Grading.GradeRunIs | src/modules/quiz/quiz.service.ts:264-315 | a run that gets through adds a fifth of the passing score per right answer and flags exactly these; one that dies has flagged the right ones of the first answers; a graded or published attempt is left alone |
| Grading.FlagsAreTheCorrectOptions | src/modules/quiz/quiz.service.ts:285-313 | with unique ids a complete run flags exactly the answers that name a correct option of a question, and passes exactly with five of them |
| Grading.GradingIsExactlyOnce | src/modules/quiz/quiz.service.ts:264-315 | any sequence of cut-off, complete and repeated runs and publications ends as one clean run, every right answer flagged and counted once, or ungraded with only right answers flagged |
| Grading.PassedIffFiveRight | src/modules/quiz/quiz.service.ts:285-313 | from zero points with a positive passing score, passing means exactly five answers whose chosen option is correct |
| Selection.ShufflePermutes | src/modules/quiz/quiz.service.ts:70-73 | the shuffle permutes for any in-range index source |
| Selection.EveryPermutationReachable | src/modules/quiz/quiz.service.ts:70-73 | every arrangement is the shuffle for some in-range indices |
| Selection.EveryChoiceArises | src/modules/quiz/quiz.service.ts:65-70 | every in-range choice of indices is the one some random source in [0,1) makes |
| Selection.EveryOrderArises | src/modules/quiz/quiz.service.ts:65-73 | so every order of the questions is the shuffle of some source |
| Selection.ShuffleInPlace | src/modules/quiz/quiz.service.ts:70-73 | the in-place swaps compute that shuffle |
| Selection.RandomizedQuestions | src/modules/quiz/quiz.service.ts:51-81 | min(count, n) of the questions, none twice, in question order |
| Selection.DrawConserves | src/modules/quote/quote.service.ts:44-54 | picks and leftovers together are exactly the quotes |
| Selection.DrawSize | src/modules/quote/quote.service.ts:44-54 | the loop picks min(count, half rounded up) |
| Selection.DrawDeliversCount | src/modules/quote/quote.service.ts:31-55 | the promised number comes out if and only if count is at most half of the quotes rounded up or there is at most one |
| Selection.EverySampleArises | src/modules/quote/quote.service.ts:36-52 | every sample of the drawn size, in every order, is drawn for some source |
| Selection.RandomQuotes | src/modules/quote/quote.service.ts:31-55 | the splice loop is a sample without replacement of that size |
| Sorting.SortSorted | src/modules/quiz/quiz.service.ts:78-80 | sorting sorts |
| Sorting.SortStable | src/modules/quiz/quiz.service.ts:78-80 | equal keys keep their order |
| Catalogue.KeywordMatchesUpToCaseAndSpacing | src/shared/icell-core/services/icell-products.service.ts:17-24 | a keyword's pattern matches a text exactly when both agree up to case and spacing |
| Catalogue.MatchesIffStandsIn | src/shared/icell-core/services/icell-products.service.ts:17-24 | a keyword matches a message exactly when it stands in it up to case and spacing with a word beginning or ending on both sides |
| Catalogue.WholeWordsMatch | src/shared/icell-core/services/icell-products.service.ts:17-24 | a keyword that begins and ends in a word matches exactly where it stands as whole words, never inside a longer one |
| Catalogue.LongestMatch | src/shared/icell-core/services/icell-products.service.ts:107-126 | the extracted keyword is one of some product and stands in the message, and no keyword of any product that does is longer; it is empty only if none but the empty one does |
| Catalogue.FirstOfTheLongest | src/shared/icell-core/services/icell-products.service.ts:107-119 | among equally long ones it is the first of the catalogue |
| Catalogue.LookupFinds | src/shared/icell-core/services/icell-products.service.ts:56-80 | a catalogue keyword resolves to a product that has it and a service that offers that product |
| Catalogue.ResolutionIsConsistent | src/shared/icell-core/services/icell-products.service.ts:50-126 | with unique ids and distinct keywords a matched message resolves to the owner of the keyword, a service offering it, and the list the keyword is in |
| Catalogue.LookupThrowsIffNoMatch | src/shared/icell-core/services/icell-products.service.ts:74-80 | with products and without empty keywords in the catalogue, the lookup of a message throws exactly when no keyword stands in it |
| Durations.DurationRoundTrip | src/modules/utils/time/index.ts:99-109 | parsing the formatted text gives back every number of seconds |
| Durations.FormattedText | src/modules/utils/time/index.ts:99-103 | the text is the whole minutes, a colon, and the remaining seconds in two digits |
| Durations.PrintsDigits | src/modules/utils/time/index.ts:99-103 | numbers are printed in base ten without leading zeros |
| Durations.DecimalRoundTrip | src/modules/utils/time/index.ts:99-109 | reading printed digits back gives the number |
| Durations.PaddingKeepsValue | src/modules/utils/time/index.ts:102-102 | zero padding does not change the value read back |

## Left out

- HTTP, validation of payloads, authentication, webhook signatures (an input says whether one is valid), encryption.
- Network calls, queues, mail, SMS, logging: they appear only as success, failure, or a call that dies at some point.
- Rounding: `Decimal` columns with two digits and floating-point scores are exact reals here.
- `Math.sin` as a random source: any function into [0, 1) is allowed.
- Case outside ASCII letters (no other character lower-cases to a letter of "success"); number texts with signs, fractions
  or exponents; the exponent notation of very large numbers.
- Time zones and daylight saving: a day has 86400000 milliseconds and starts at a multiple of it.
- Queue redelivery of a job that is still running, and the `processed` flag of ICell requests.
- The list of previous days in the time utilities: easy.
- Attribution runs audit one delivery of an ICell request; a redelivery whose insertion is refused is, there, one whose
  processing fails at that access.
- The unused context builder with business logic, content management, search, chat, pagination: easy or owned by libraries.
- User creation and magic links in the subscription entry points; quiz attempts per price are a number given to the step.
- The lookup of bank names, and database errors inside bank account calls other than duplicate numbers and foreign keys.
- Rewards.ProcessQuizWinningRewards: job attempts follow one another with no other wallet activity in between.
- Grading.GradingIsExactlyOnce: runs of the grading job for one attempt do not overlap, and the quiz set stays the same.
- CourseService.Service.StartLesson: operations on an enrollment do not overlap.
