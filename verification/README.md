# A verified model of the mail tester

The mail tester hands out disposable addresses, accepts mail for them, and turns each mail into a scored report. This
project models the parts of it where mistakes are easy and hard to see, and proves what they promise.

**The analysis pipeline.** `Store` gives the database documents and the meaning of each operation on them. `Protocol`
is the pipeline as a state machine: ingest, any number of `/check` callers, a task queue that may duplicate, and W
workers, with one database operation per step. A worker may raise an exception or die between any two of them, and the
clock only moves forward. A run is any sequence of steps. `Safety`, `QuotaBounds`, `DailyGrants`, `LateResets`,
`AnonymousBound`, `Delivery` and `Permanence` prove what holds in every reachable state; `Solo` proves that a worker
left alone computes the sequential task, and `SoloClock` that it still does while time passes; `Payers` says who is
charged and `Answers` what callers are told; `Retry`, `RetryRuns` and `Failures` say exactly which mails can still be
tried and how long an exception text stays. `Witness`, `AnonymousWitness` and `LateWitness`, on top of `Reach`, give
runs that attain the bounds and runs that show what is not promised. `MailDatabase` is the same code as the program
writes it, a class updated in place, each method proved against its meaning in `Store`, `Quotas` or `Ingest`;
`Spellings` says of the recipients themselves which ones ingest keeps.

**State derived from other state.** `Quotas` relates the daily gate to the report about it and counts grants and resets
over whole runs of calls. `Recipients` relates the Redis recipient keys to the live addresses. `RateLimit` bounds the
hits of a fixed window on any sliding interval, with INCR and EXPIRE as separate commands. `History` follows the cursor
through all pages while reports arrive.

**The verdict engine.** `Dmarc` (discovery walk, alignment, verdict) and `DmarcTags` (the same on records as they are
written), `Blacklists` (statuses folded in the order in which lookup threads finish) and `ListCodes`, and `Scoring`,
`Analysis`, `Ledger`, `WorstCase`, `CleanMail`, `SingleDefects`, `Analyzer` (all deductions of an analysis as 22 stages,
which mails they spare, and what each defect costs). What DNS, SPF and DKIM return is arbitrary. Points are integer
hundredths.

How the source is read:

- Object ids are natural numbers from one increasing counter. Instants are integer microseconds since the epoch, so
  UTC days are the multiples of 86 400 000 000.
- A quota record may lack any of its fields or not exist at all; an update of a missing document writes nothing.
- A refusal is a value of its own in `last_error`. The text of an exception is never taken for it.
- Where the documentation and the code differ, the code is modelled. The documentation says that `/check` queues the
  analysis; ingest queues it too. It calls the anonymous scope one per IP; `/generate` without an account also
  expires the addresses that signed-in callers created from that IP (`Recipients.AnonymousCallEndsSignedInAddress`).
  It says a mail blocked by the quota is retried once the quota frees up. The code retries it only from a `/check` that
  finds it, and `/check` only ever finds the newest mail of an address. So a refused mail followed by another one to its
  address is never tried again, unless a task or a `/check` for it is already under way
  (`Witness.RefusedThenSuperseded`); `RetryRuns.CanPassExactly` gives the exact condition. Two overlapping calls can
  also lose a mail after its claim (`Witness.OverlappingChecksLoseMail`).
- A crash of a worker also stands for what ends a task outside its exception path while the worker lives on: the write
  of the error text raising itself, or a claim that is applied although its answer is lost.

## Model

| member | source | states |
|---|---|---|
| Safety.EachMailAtMostOnce | src/worker/tasks.py:32-100 | After any run of ingest, checks, duplicated tasks, exceptions and crashes: each mail has passed the quota gate at most once, has been charged no more often than it passed and only to the holder that pays for its origin, and has at most one report |
| Safety.StepKeeps | src/worker/tasks.py:23-123 | Every step keeps the invariant behind that: a claim has one holder, claimed events stay claimed once the gate is passed, reports and charges belong to passes |
| Safety.ReportsBounded | src/worker/tasks.py:94-100 | In a sound state an event has at most as many reports as gate passes, which is at most one |
| Payers.PayerExactly | src/worker/limits.py:46-81 | Over the records before and after a gate call: a mail with an API key is answered for by the key's record and changes no other, least of all its account's; one with an account and no key by the account's; a grant raises that count by one, an expired reset time becomes the next midnight, limits stay; with neither no record changes and the IP's usage decides |
| Payers.ReportIsThePayers | src/worker/limits.py:84-109 | The report of what remains is that of the same record, with the limit of its kind where it has none, and a reset time to come |
| Payers.ChargesNameThePayer | src/worker/limits.py:46-51 | In every run, each charge for a mail with key k is to key k, for one with owner u and no key to user u, and there is none for any other mail |
| Payers.StepPaysForItsMail | src/worker/limits.py:68-78 | A step of a worker changes the quota record of nobody but the payer of its mail |
| QuotaBounds.DailyUsedBounded | src/worker/limits.py:54-79 | With read, reset and increment as separate steps: the stored count of a holder with limit at least 1 never exceeds limit + W - 1 in any reachable state, through any resets and clock moves |
| DailyGrants.DayGrantsBounded | src/worker/limits.py:54-79 | What racing workers can spend: in every run, for a holder present from the start or registered on the way, the charges of the current day are at most limit + W - 1 plus those that a reset wiped today, at most that ceiling once for each late reset of the day and once more, and at most limit + W - 1 when there was no late reset |
| DailyGrants.DayGrantsWithoutLateReset | src/worker/limits.py:64-79 | In every run in which no reset is written after a charge of the same day, a day's charges are at most limit + W - 1 |
| DailyGrants.StepUncoversExactly | src/worker/limits.py:68-78 | A step leaves the stored count short of the day's charges if and only if it writes a reset after a charge of the day |
| DailyGrants.CountCoversDayExactly | src/worker/limits.py:68-78 | Over every run from a start: the stored count covers the day's charges all along if and only if no reset is late |
| DailyGrants.MeterIsTheLog | src/worker/limits.py:78 | The charges counted for a day are the charges the log gains that day, each of a different mail |
| LateResets.DayGrantsAlwaysBounded | src/worker/limits.py:54-79 | With no condition on the run: a day's charges are at most (limit + W - 1) times W(W + 3)/2 |
| LateResets.LateResetsBounded | src/worker/limits.py:68-73 | In every run a day sees fewer than W(W + 3)/2 late resets |
| LateResets.StepSpends | src/worker/limits.py:68-73 | Within a day no step adds to the number of resets the day may still see, and every reset takes one from it |
| LateWitness.LateResetsMultiply | src/worker/limits.py:68-79 | For every W and limit, some crash-free run that begins and ends on one day has W times the limit charged that day, with W - 1 late resets |
| LateWitness.MostLateResetsAreReached | src/worker/limits.py:68-79 | For every W and limit, some crash-free run has exactly W(W + 3)/2 - 1 late resets on its last day, the most there can be, and W + limit * W(W + 1)/2 charges with them |
| Witness.DailyBoundIsAttained | src/worker/limits.py:64-79 | For every W and limit, some crash-free run within one day drives the stored count, and the grants, to exactly limit + W - 1 |
| LateWitness.LateResetLetsMorePass | src/worker/limits.py:68-73 | A reset decided early and written late wipes a charge: with limit 1 and two workers, some run that begins and ends on one day has three charges that day, one more than limit + W - 1, with one late reset, and shows a count of two |
| AnonymousBound.AnonymousDayBounded | src/worker/limits.py:30-35 | For every IP and UTC day, in every reachable state: anonymous analyses finished that day plus those in flight that may still finish on it are at most limit + W - 1; for mails without an IP when the limit grants nothing |
| AnonymousWitness.AnonymousBoundExactly | src/worker/limits.py:30-35 | That bound holds in every run if and only if the mails have an IP, or the limit grants nothing |
| AnonymousWitness.AnonymousBoundIsAttained | src/worker/limits.py:81 | For every W, positive limit and IP, some crash-free run finishes exactly limit + W - 1 anonymous analyses on one day |
| AnonymousWitness.WithoutIpNoBound | src/worker/limits.py:81 | Of mails with no IP or an empty one, any number is analysed on one day, with any positive limit |
| AnonymousBound.FinishedMailCountsExactly | src/worker/limits.py:30-35 | A mail finished today is in the usage its own gate reads if and only if it has a non-empty IP |
| Delivery.NoMailIsLost | src/worker/tasks.py:43-52 | After every run without a losing step, every mail is reported, held by a live worker, ended with an exception text, or unclaimed without one; and an unclaimed mail can still pass the gate if and only if it is open and its payer is allowed anything |
| RetryRuns.CanPassExactly | src/api/mail_tests.py:50-60 | When a mail can still be tried: an unclaimed mail passes the gate in some later crash-free run if and only if its payer's limit is at least 1 and it is open, that is on its way (queued, about to be queued, about to be claimed, or with a check under way that will queue it), or the newest of its address with no exception text or with a check under way that erases it |
| Retry.NeverTriedAgain | src/api/mail_tests.py:50-60 | An unclaimed mail that is not open, such as one followed by a newer mail on its address with nobody on the way to it, passes the gate in no run, crashes and all, and stays that way |
| RetryRuns.NeverWithoutLimit | src/worker/limits.py:75-81 | A mail whose payer is allowed nothing, and that nobody is about to charge for, passes the gate in no run |
| Witness.RefusedThenSuperseded | src/api/mail_tests.py:152-171 | From a start, without a crash: a refused mail with quota free again that no run tries, because another mail has come to its address |
| Delivery.RunLosesExactly | src/worker/tasks.py:32-123 | A run loses no mail at any time if and only if none of its steps is a losing one, crashes and overlapping checks included |
| Delivery.CarefulRunNeverLoses | src/api/mail_tests.py:152-165 | Without a crash, or what a crash stands for, and with one-step checks, no step is a losing one |
| Delivery.StepLosesExactly | src/api/mail_tests.py:152-165 | In a state that has lost nothing, a step loses a mail if and only if it is a crash of the worker that holds the unreported mail, or a late clear of a check that erases the error text of a mail nobody works on any more |
| Witness.OverlappingChecksLoseMail | src/api/mail_tests.py:152-171 | Such a loss is reachable without a crash: two overlapping checks of a refused mail and one failing attempt |
| Solo.GateStage | src/worker/limits.py:54-81 | Alone, the separate gate operations of a worker have the outcome and the effect of the sequential gate |
| Solo.SoloRunIsAnalyzeMail | src/worker/tasks.py:23-112 | A worker that takes a task and is left alone ends idle with exactly the database of the sequential task, and passes the gate exactly when that does |
| SoloClock.TimedRunIsAnalyzeMail | src/worker/tasks.py:23-112 | The same while the clock goes on between its operations: the sequential task at the three instants the worker read |
| Solo.RetriedMailIsReported | src/api/mail_tests.py:152-173 | A waiting or refused mail with quota free, whose analysis does not raise: the next check clears and queues it, and the next worker, left alone, passes the gate once and links a report of it |
| Solo.RetriedMailShowsItsFailure | src/worker/tasks.py:114-123 | When its analysis raises: the worker passes the gate once and writes the exception text, which a check that finds the mail right after that shows |
| Failures.TextStaysExactly | src/api/mail_tests.py:152-168 | The exception text of a mail that ended stays in every run if and only if no check is under way that has seen free quota for it, or that saw its refusal while its payer is allowed anything |
| Failures.RetriedMailShowsItsFailureForGood | src/worker/tasks.py:114-123 | When a retried mail's analysis raises and nobody else is under way with it, the mail has its exception text in every state of every run after that |
| Failures.EndedIsShown | src/api/mail_tests.py:167-168 | A mail in that state is answered with its text by every check that finds it |
| Solo.FailingRunIsAnalyzeMail | src/worker/tasks.py:114-123 | A worker left alone that raises past the gate ends idle with exactly the database of the failing sequential task |
| Permanence.RunKeepsLinks | src/worker/tasks.py:97-100 | Over any run events stay, with their address, and a link once set never changes |
| Permanence.AnalysisNeverMissing | src/api/mail_tests.py:146-150 | The branches of check and result that find no analysis behind a link are dead in every reachable state |
| Permanence.ReportsAgree | src/api/mail_tests.py:146-173 | Once check reports an event as analyzed, every later answer of check about that event, whatever its kind, is the same report, in every run, though an exception may write a text on the event meanwhile |
| Permanence.ResultMovesForward | src/api/mail_tests.py:177-194 | The event id that result names never decreases over a run |
| Store.ResultFollowsCheck | src/api/mail_tests.py:137-150 | When check without a cursor answers analyzed, waiting or expired, result on the same state answers the same |
| Answers.CheckAloneIsWhole | src/api/mail_tests.py:134-173 | The separate database operations of a check, with nothing between them, are the check of one step |
| Answers.NothingIsAnswered | src/api/mail_tests.py:139-142 | An address nothing has come to, or nothing after the cursor, is answered waiting while it lives and expired after that, by check and by result, and nothing is written or queued |
| Answers.NewestIsAnswered | src/api/mail_tests.py:146-173 | What check says of the newest mail and does: its report before anything else, else its text, else wait for the worker that has claimed it, else queue it |
| Answers.ReportIsAnswered | src/worker/tasks.py:94-112 | After a task that reported on the newest mail, check and result show that report |
| Answers.FailureIsAnswered | src/worker/tasks.py:114-118 | After one that raised past the gate, check shows the text |
| Answers.RefusalIsAnswered | src/worker/tasks.py:43-52 | After one that was refused, check says so and changes nothing as long as the gate reads the same clock |
| Answers.ReportUsesTheDay | src/worker/limits.py:30-35 | An anonymous analysis with an IP uses up exactly one of the IP's day on which it finished |
| Store.QuotaStateAnnouncesGate | src/worker/limits.py:54-109 | For keys, accounts and anonymous callers: remaining is positive exactly when the gate grants; a grant on an existing holder lowers remaining by one and keeps the reset time, a refusal leaves the report as it was |
| Store.GateTouchesOnlyItsHolder | src/worker/limits.py:46-51 | A gate call leaves the report of every origin with another payer unchanged |
| Store.RefusalIsRetriedExactlyWhenGateIsOpen | src/api/mail_tests.py:152-171 | For a refused newest mail, check clears and queues it exactly when the gate would grant it now, and otherwise answers limit and changes nothing |
| Quotas.ReportAnnouncesGate | src/worker/limits.py:64-107 | The same agreement of gate and report on one record, whichever of its fields are missing |
| Quotas.OneDayExactly | src/worker/limits.py:64-79 | When the calls of a run start on a day, the gate grants that day exactly the first calls up to what the record allows, and resets once at most, at the first call |
| Quotas.DailyLimitHolds | src/worker/limits.py:64-79 | Over any run of non-overlapping calls in time order, each UTC day sees at most one reset and at most the daily limit of grants |
| Quotas.CountIsGrantsSinceReset | src/worker/limits.py:68-78 | Over such a run the stored count is the number of grants since the last reset |
| Calendar.TomorrowFormsAgree | src/api/functions.py:83-91 | Adding a day and cutting to midnight gives the same instant as cutting to midnight and adding a day: the next midnight, within a day |
| MailDatabase.Database.ClaimMailEvent | src/worker/limits.py:38-43 | Compare and set: true exactly when the claim was free, and only then is it written |
| MailDatabase.Database.ConsumeDailyQuota | src/worker/limits.py:54-81 | The code with its local count, reset write and increment computes the sequential gate |
| MailDatabase.Database.ReadQuotaState | src/worker/limits.py:84-109 | The read-only report of the same database |
| MailDatabase.Database.AnalyzeReceivedMail | src/worker/tasks.py:23-123 | The whole task with its four endings and its three clock readings: nothing to do, refused and released, failed with the exception text, reported and linked |
| MailDatabase.Database.CheckAddress | src/api/mail_tests.py:137-173 | Answer, database and queue after a check, error paths included |
| MailDatabase.Database.GetResult | src/api/mail_tests.py:180-194 | The answer of result, with nothing written |
| MailDatabase.Database.StoreMessage | src/ingest/lmtp_server.py:12-60 | One new unclaimed event with the origin of its address, and its id |
| MailDatabase.Database.HandleData | src/ingest/lmtp_server.py:65-91 | The loop over recipients, with every place it can stop |
| Spellings.OwnRecipientIsKept | src/ingest/lmtp_server.py:73-89 | Any spelling of an address of this site, in any case and with white space around it, leaves one unclaimed event under the lower-case address, with the origin its record names, and one task |
| Spellings.OtherRecipientIsSkipped | src/ingest/lmtp_server.py:76-78 | A recipient whose text after its last @ is another name, or that has no @, leaves no trace |
| Spellings.EnvelopeIsHandled | src/ingest/lmtp_server.py:73-91 | The answer is 250 if and only if none of the site's own recipients broke; then these, and nobody else, have one new event each, in order, queued exactly once more |
| MailDatabase.DuplicateTaskChangesNothing | src/worker/tasks.py:32-52 | Running a task again changes nothing: at any time once the gate was passed, and after a refusal when the gate reads the same clock |
| Ingest.AcceptedExactly | src/ingest/lmtp_server.py:73-91 | The answer is 250 if and only if storing and queueing broke for no recipient of this site |
| Ingest.AcceptedStoresEach | src/ingest/lmtp_server.py:73-91 | Then each recipient of this site has one new unclaimed event, in order, each queued exactly once more, and nothing else changed |
| Ingest.BrokenStopsThere | src/ingest/lmtp_server.py:80-84 | Otherwise the earlier recipients are stored and queued, the broken one leaves at most a stored event that is not queued, and the later ones are not looked at |
| Ingest.NewMailIsQueuedByCheck | src/api/mail_tests.py:137-173 | Whatever event came in, queued or not, the next check on its address finds it or a newer one of the same message rather than an older report, and queues it |
| Recipients.LookupAnswersLiveness | src/ingest/recipient_map.py:10-14 | After any run of whole generate calls, clock ticks and record purges, with a lower-case domain: lookup answers OK exactly when the normal form of the address is live; one live address per owner and one anonymous one per IP |
| Recipients.OneLiveAddress | src/api/mail_tests.py:91-102 | In every such state no account has two live addresses, and no IP two without an account |
| Recipients.OddDomainDisagrees | src/db/cache.py:12-13 | A freshly generated address is accepted by lookup; its normal form is live if and only if the domain is its own normal form |
| Recipients.NewAddressLives | src/api/mail_tests.py:104-122 | A new address is live, and accepted by lookup, at exactly the instants before now plus its time to live |
| Recipients.GeneratedEndsExactly | src/api/mail_tests.py:91-102 | A call ends a live address, in Mongo and for Postfix, if and only if it is of the caller's own account, or the caller is anonymous and the address was created from the same IP |
| Recipients.GeneratedWrites | src/api/mail_tests.py:91-120 | A call adds one record, of its own caller, and takes the expiry off exactly those it ends; who made an address never changes |
| Recipients.GeneratedEndsPlainly | src/api/mail_tests.py:91-102 | A signed-in call ends the addresses of its account and no others, any other call those created from its IP and no others |
| Recipients.AnonymousCallEndsSignedInAddress | src/api/mail_tests.py:91-102 | An anonymous call ends the address a signed-in caller has just created from that IP |
| Recipients.AddressBook.GenerateRandom | src/api/mail_tests.py:91-122 | Deletes the keys of the replaced addresses, expires their records, adds the new record and its key, and touches nothing else |
| Recipients.AddressBook.DeleteKeys | src/api/mail_tests.py:99-100 | The loop removes exactly the keys of the given addresses |
| RateLimit.SlidingBound | src/api/rate_limit.py:6-31 | In any interleaving of callers, lost answers, failed expiries and deaths between the two commands, no closed interval of one window holds more than twice the limit of counted allowed hits |
| RateLimit.SlidingBoundIsTight | src/api/rate_limit.py:6-31 | Some run holds exactly twice the limit |
| RateLimit.HitIsTwoCommands | src/api/rate_limit.py:10-24 | A call of hit, however it fares, is the machine's two commands with nothing between them |
| RateLimit.LostExpiryIsRepaired | src/api/rate_limit.py:19-24 | Whatever counter was left behind, the next hit that goes through leaves one that expires |
| RateLimit.RetryAfterIsExact | src/api/rate_limit.py:19-31 | With nobody else calling, a refused caller is let through at exactly the times from the one it was told on |
| RateLimit.VerdictIs | src/api/rate_limit.py:10-31 | A call that cannot count lets the request through; one that counts lets it through exactly up to the limit |
| RateLimit.Limiter.Hit | src/api/rate_limit.py:6-31 | The stored counter and the answer after a call, for each way it can fail |
| History.ReportStore.Walk | src/api/history.py:53-69 | Following the cursor to its end, with any limit per request and any reports arriving between requests, collects every report the account had at the start once, newest first, and terminates |
| History.ReportStore.ListHistory | src/api/history.py:48-69 | One page of the sorted list and its cursor, or the refusal of a malformed cursor |
| History.PageSizeIs | src/api/history.py:53 | The size of a page for every limit asked: as asked, cut to the most, the default for none or zero, never below one |
| History.PageSplits | src/api/history.py:62-69 | A page is the front of what remains below the cursor, the next cursor names exactly the rest, and there is none exactly when nothing is left |
| History.BelowIsDescending | src/api/history.py:62 | The list a page is cut from holds all reports of the account below the cursor, no others, in strictly descending order |
| History.BelowOwns | src/api/history.py:54-62 | A report is in it exactly when it is below the cursor and the account's |
| Dmarc.CheckDmarcRecord | src/processor/service.py:262-281 | The loop, whose dot count falls each round, ends with the result of the walk |
| Dmarc.DiscoveryIsExact | src/processor/service.py:262-281 | The walk's result is the one and only answer to: the record at the longest suffix of the domain with two labels or more that has one; with none, unknown if some lookup failed, else missing |
| Dmarc.TagRoundTrip | src/processor/service.py:250-259 | Reading a record back gives each tag the last value it was written with |
| DmarcTags.VerdictAsWritten | src/processor/service.py:284-315 | On a record as written: SPF passing aligns exactly by organisation, or by equal bare names when the last aspf is s in either case, DKIM likewise by adkim, a missing or empty tag being relaxed; pass if one aligns, else fail when there was a result, else unknown |
| DmarcTags.OnePartReads | src/processor/service.py:250-259 | Names of tags are read trimmed and in any case, values trimmed and as they are |
| DmarcTags.SenderDomainIs | src/processor/service.py:318-321 | The sender's domain is what follows the last @, trimmed and in lower case |
| DmarcTags.FirstDmarcExactly | src/processor/service.py:269 | Of the texts of an answer the first that begins with the version, in any case, is the record |
| Dmarc.OrganizationalDomainExactly | src/processor/service.py:230-232 | The organisational domain is the unique end of the bare name that has exactly two labels; a name without two comes back in lower case |
| Dmarc.OrganizationalDomainIdempotent | src/processor/service.py:230-232 | Applying it twice is applying it once, on all strings |
| Dmarc.OrganizationalDomainOfBare | src/processor/service.py:230-232 | Outer dots make a difference to it if and only if they surround a single label |
| Dmarc.AlignmentIsEquivalence | src/processor/service.py:235-247 | Relaxed alignment is an equivalence on non-empty names, and strict alignment implies it (section 3.1 of RFC 7489) |
| Dmarc.SameOrganizationIsAlignedExactly | src/processor/analyzer.py:143-146 | The envelope comparison of the header check agrees with relaxed alignment on exactly the pairs of names outside a stated family, all with a single label written with outer dots |
| Dmarc.DottedLabelDiffers | src/processor/analyzer.py:143-146 | A pair of that family: .b and a..b count as one organisation for the header check and are not aligned |
| Dmarc.AlignedExactly | src/processor/service.py:235-247 | Strict alignment is equality of bare names; relaxed alignment is that or having the same last two labels; empty names are never aligned |
| Dmarc.VerdictExactly | src/processor/service.py:284-315 | From discovery to verdict: pass exactly when the one policy that discovery is to find is a record and some identifier that SPF or DKIM authenticated is aligned under the record's mode for it; fail exactly when that policy is a record, some mechanism gave a result and no such identifier is aligned |
| Dmarc.PassIsKept | src/processor/service.py:294-315 | Turning a mechanism that does not pass into one that does, or relaxing the record's modes, never loses a pass |
| Blacklists.IpDnsblStatus | src/processor/service.py:440-451 | A refusal anywhere in the answer wins, then a listed code anywhere in it, else reputation |
| Blacklists.DomainDnsblStatus | src/processor/service.py:375-382 | The same for domain lists |
| Blacklists.StatusBySet | src/processor/service.py:375-451 | A status depends only on the set of addresses in the answer |
| ListCodes.CodeDecides | src/processor/service.py:429-451 | Which loopback codes mean listed, list by list |
| ListCodes.DomainCodeDecides | src/processor/service.py:375-382 | The same for domain lists |
| ListCodes.RefusalDecides | src/processor/service.py:375-443 | A refusal in front of any other addresses is blocked, not listed |
| ListCodes.NoAnswerListsNothing | src/processor/service.py:402-411 | No such name, a timeout and any other failure are told apart, and none of them lists |
| ListCodes.AnswersAre | src/processor/service.py:479-485 | The answers kept are those of the lists that gave addresses |
| Blacklists.CheckBlacklists | src/processor/service.py:454-491 | In every completion order: each list once with its own status, the addresses of exactly the lists that answered with some, and a summary that counts every status and adds up to checked; nothing is checked without an IP |
| Blacklists.CheckDomainBlacklists | src/processor/service.py:393-426 | In every completion order: each target and list once with its status, exactly the listings, a summary that adds up to checked |
| Blacklists.OrderDoesNotMatter | src/processor/service.py:417-426 | Two completion orders give the same results and summary and the same multiset of listings, as many as the summary says |
| Blacklists.SummaryAddsUp | src/processor/service.py:487-491 | The counts of a summary add up to the number of lookups |
| Blacklists.DistinctNamesExactly | src/processor/service.py:394 | The targets before the cap are the non-empty names, once each |
| Blacklists.TargetsExactly | src/processor/service.py:394 | As many different names as the cap allows are checked, and a later name never pushes out an earlier one |
| Blacklists.SenderIsChecked | src/processor/analyzer.py:251-252 | A non-empty sender domain is always among the targets, for any links and any positive cap |
| Analyzer.Analyze | src/processor/analyzer.py:55-301 | Whatever order the lookups finish in, the running score and its items end as the verdict of the ledger |
| Analyzer.SpfCheck | src/processor/analyzer.py:59-71 | The SPF branch adds exactly the SPF issue of the ledger |
| Analyzer.DkimCheck | src/processor/analyzer.py:73-93 | The DKIM branch adds exactly the DKIM issue |
| Analyzer.DmarcCheck | src/processor/analyzer.py:95-110 | The DMARC branch adds exactly the DMARC issue |
| Analyzer.RdnsCheck | src/processor/analyzer.py:171-193 | Reverse DNS and the HELO comparison add exactly their issues |
| Analyzer.CountIpListings | src/processor/analyzer.py:195-200 | The listings counted from the results are the listed lists, in any completion order |
| Analyzer.CountDomainListings | src/processor/analyzer.py:251-256 | The same for domains and links |
| Ledger.VerdictIsBalanced | src/processor/score.py:7-30 | Raw score plus the points of the issues is ten; the reported score lies in [0, 10]; no issue code occurs twice |
| Ledger.LedgerIsExact | src/processor/analyzer.py:55-270 | After any number of stages the issues sum to what was deducted and their codes come in stage order |
| Ledger.TenExactlyWithoutIssues | src/processor/score.py:7-30 | Every issue takes points away, and the reported score is ten if and only if there is no issue |
| CleanMail.CleanExactly | src/processor/analyzer.py:55-270 | A mail has no issue, and all ten points, if and only if it is clean in the terms of the lookups and the message: SPF passing where it could be evaluated, a signature that verifies, aligned under a policy that asks for something, headers, TLS, a dotted HELO name equal to the reverse name that maps back to the address, no listing, clean parts and subject, no counted rule; or the lookup in question failed |
| SingleDefects.OneDefectOneIssue | src/processor/analyzer.py:55-270 | For each of 29 defects put into an exemplary mail: the one issue it brings, its points, and the score that leaves |
| SingleDefects.RepeatedChecksAddNothing | src/processor/analyzer.py:17-24 | Rules that repeat an authentication check add nothing, whatever their points |
| SingleDefects.RepeatedLookupsAddNothing | src/processor/analyzer.py:17-24 | Nor do those that repeat a list, name or header check |
| SingleDefects.ConfirmingAddress | src/processor/analyzer.py:183-186 | Adding the sender's address to a forward answer gives back half a point exactly when it was missing from it and the name was found, and otherwise changes nothing |
| SingleDefects.BestIsExemplary | src/processor/analyzer.py:55-270 | There is an exemplary mail |
| Scoring.GradeIs | src/processor/score.py:20-28 | A grade is as many steps above the lowest as the score reaches of five, seven and nine points |
| Ledger.TotalBound | src/processor/analyzer.py:55-270 | The deductions never exceed 14.4 points and the SpamAssassin cap |
| WorstCase.TotalIsReached | src/processor/analyzer.py:55-270 | A plausible mail from a public address loses exactly 14.4 points and the cap, for every cap, when five lists and one domain are checked |
| Ledger.OutageLowersScoreExactly | src/processor/analyzer.py:62-110 | Replacing the answer of an SPF record, DKIM key (the first of its two lookups), PTR, forward, IP list or domain list lookup by a failure lowers the raw score if and only if it takes away the mechanism by which DMARC passed while the other one was evaluated; and never when the answer made its own check bad |
| Ledger.IpListingNeverHelps | src/processor/analyzer.py:195-200 | One more listing of the address raises neither score nor grade |
| Ledger.DomainListingNeverHelps | src/processor/analyzer.py:251-260 | One more listing of the domain or of a link raises neither |
| Ledger.SpamRuleNeverHelps | src/processor/analyzer.py:303-313 | One more SpamAssassin rule raises neither, and a skipped one changes nothing |
| Scoring.Score.Minus | src/processor/score.py:7-16 | The score stays ten less the sum of its items, with the new item last |
| Scoring.Score.Result | src/processor/score.py:18-30 | Score, grade and issues as the items say |

## Left out

- RateLimit.RetryAfterIsExact: for a hit whose EXPIRE is applied; one whose EXPIRE fails still tells a whole window.
- Spellings.OtherRecipientIsSkipped: the site's domain has no @ in it.
- QuotaBounds.DailyUsedBounded: bounds the stored count; the grants of a day are the subject of DailyGrants and LateResets. All of these speak of holders that have a record. Without one nothing is counted and every call is granted, as Store.MissingHolderIsNeverCounted states.
- LateResets.DayGrantsAlwaysBounded: the number of late resets in it is exact, the charges between two resets are bounded by a whole ceiling each; LateWitness.MostLateResetsAreReached has the number of resets with fewer charges.
- Delivery.NoMailIsLost: asks that no step of the run is a losing one, because the code does lose mails at those; Delivery.RunLosesExactly makes it exact.
- AnonymousBound.AnonymousDayBounded: counts anonymous analyses only; the code's usage counts signed-in ones of the same IP too, which can only refuse more. It does not hold of mails without an IP, because the gate then reads the usage of the name "unknown", which such a mail does not carry; an address without a record gives such mails, and so does a forwarding header whose first entry is empty. AnonymousWitness.AnonymousBoundExactly gives the condition.
- Ledger.OutageLowersScoreExactly: of the two lookups of a DKIM key only the first is an input of its own. A failure of the second alone, inside the verification, is one of the ways in which a signature does not verify, and costs what that costs.
- Solo.RetriedMailIsReported: the analysis does not raise; Solo.RetriedMailShowsItsFailure and Failures are about the other case.
- Recipients.LookupAnswersLiveness: generate calls do not overlap, and a record and its key get the same expiry instant. The find and the update of overlapping calls for one owner are not modelled.
- RateLimit.SlidingBound: windows are at least 1, and answers given without a count while Redis fails are not counted as hits.
- MailDatabase.Database.CheckAddress: the limit on requests that comes before it is RateLimit.Limiter.Hit, on a key of its own.
- Ledger.TotalBound: points are integer hundredths, so the rounding of floating-point scores does not appear, and text ratios are in thousandths.
- Dmarc.OrganizationalDomainExactly: lower case, spaces and digits are those of ASCII here and everywhere else; the code's rule of two labels is modelled, not the Public Suffix List.
- Mongo, Redis, Celery, FastAPI and aiosmtpd: taken as maps, a key with a time to live, a multiset of tasks and atomic steps.
- DNS, SPF evaluation, DKIM verification and SpamAssassin: arbitrary answers of the shapes the code distinguishes.
- Header decoding, MIME and HTML parsing, link extraction and the Received header: their outcomes are inputs of the verdict engine; of their relations these are kept: exclamation marks are characters of the subject, shortened links are links, and images without ALT text are images.
- Titles, texts, severities and advice of issues: an issue is its code and its points. The SPF issue carries the SPF result in place of the text made from it.
- Registration, login, tokens, password handling and API keys: they only create quota records. A limit edited by hand while workers run is not modelled.
- The status fields of address records, the mail count and the logs: written, never read by this code. The writes to the address record by a worker are steps without effect.
- Task arguments that are no object ids, and Celery's own retries: a duplicated task covers what a retry does.
- The raw message store: a failed read of it is one of the exceptions a worker may raise.
