# Digest engine: a verified model

A Dafny 4.11 model of the hand-written services of the digest engine, with proofs of what they are
for. `dafny verify dfyconfig.toml` checks all of it.

The model has four parts.

- **The daily sweep and the slowdown ladder.** `Batch.dfy` is one digest's batch as a function of its
  row and of what it meets (recipients, login signal, sends, database). `Sweep.dfy` is the engine: the
  verbs, the batch body and the claim loop as methods over the digest table, proved against those
  functions. `Protocol.dfy` is the same thing with any number of sweeps at once, interleaved with the
  verbs: a state machine over atomic steps with row locks, and theorems about every run of it.
  `Together.dfy` ties the two: interleaved sweeps leave the table that one sweep leaves.
- **The calendar.** `Calendar.dfy` and `Cadence.dfy`: dates, calendar-month arithmetic, the four
  cadences, the ladder and its login windows.
- **The unsubscribe capability.** `Text.dfy` and `Token.dfy` print, parse and judge links; `Query.dfy`
  reads a field back from a URL's query;
  `FailureBook.dfy` is the book of failed verifications; `Subscriptions.dfy` is the subscription table;
  `Unsubscribe.dfy` puts them together; `GrowthLoop.dfy` is the at-least-once consumer that fills the
  table.
- **Render and delivery.** `Kpi.dfy` classifies a digest's metrics for one recipient, `Carousel.dfy`
  picks and consumes tips, `Delivery.dfy` is one recipient's send.

A day is the number of days since 1970-01-01 and a moment is a number of seconds, both unbounded. A
UUID is its 128-bit value. Functions from inputs to answers stand for the recipient port, the mail
seam, the metric computers, the database's success and HMAC: every theorem holds for all of them.

Where the repository's prose and its code disagree, the model follows the code:

- A failed send moves `next_run_date` to tomorrow
  (`src/application/service/digest_cron_service.rs:248-264`); the repository's
  `README.md:67` and `docs/port-notes.md:167-169` say it does not advance.
- A digest without recipients is never degraded
  (`src/application/service/digest_cron_service.rs:194`); `src/application/service/engagement_port.rs:371-374`
  says the ladder treats it as "no login".
- `verify` never consults the lock (`src/application/service/unsubscribe_service.rs:257-270`);
  lines 89-91 of the same file say a failed verify locks the pair out.
- A sweep ends when its claim finds no row, also when a verb or an insert that names the digest holds
  the row; the comment at `src/application/service/digest_cron_service.rs:139-140` has only concurrent
  sweeps hold rows.
- A link that parses may also hold braces, colons, `+` and the letters of `urn:uuid`
  (`Uuid::parse_str` and `i64::from_str` take them); `src/presentation/http/public_routes.rs:117-118`
  lists UUIDs, digits, hex and dots. The conclusion drawn there, that nothing in it reads as markup,
  holds.

Five expected properties hold only under a condition, which is proved together with an input that
breaks them without it:

- *One batch a day* needs that a cadence change sets the next due day past every day the digest
  already committed a batch on, which a day no earlier than the sweeps' ensures. A change that computed
  its day before midnight and waited for a row lock can mail a digest twice (`SafeIsNeeded`,
  `StaleVerbMailsTwice`).
- *Engagement keeps the cadence* needs, on the due day of a weekly digest, that the batch runs no later
  in the day than the one before (`EngagementExactly`, `LaterWeeklySweepDegrades`). That counts a login
  since the last batch, failed ones included; a login since the last *advance* can be missed by a retry
  (`RetryExactly`, `RetriedWeeklyDegrades`).
- *No due digest is missed* needs that no other transaction holds the digest's row when the sweep asks:
  a verb's update, or the foreign-key check of a subscription or KPI insert, makes the claim skip the row
  and the sweep end without it (`NoDigestIsMissed`, `HeldDigestIsMissed`).
- *Each tip once* needs that no remaining tip has a soft-deleted marker row; the carousel stops at the
  first that has (`CarouselInOrder`, `ConsumesExactly`, `DeletedMarkerSticks`).
- *Every mail's link comes back* needs that the configured base URL holds no `?`, no `#` and no `>`; the
  code takes any that is not blank (`HeaderNamesRecipient`, `FragmentBase`).

## Model

| member | source | states |
|---|---|---|
| `Protocol.OneBatchADay` | src/application/service/digest_cron_service.rs:120-169 | Over any interleaving of any number of sweeps with operator verbs whose cadence changes are safe, and manual sends, the days of a digest's committed batches strictly increase (at most one a day), and the sweeps' mails to one (digest, user, day) are at most one more than that digest's batches rolled back that day |
| `Protocol.AdvancedIsMailedExactlyOnce` | src/application/service/digest_cron_service.rs:214-245 | An advance commits only after every recipient was mailed; on a day without a rollback of the digest each recipient of an advanced digest got exactly one sweep mail |
| `Protocol.NoDigestIsMissed` | src/application/service/digest_cron_service.rs:120-142 | A due activated digest cannot be claimed by an idle sweep of its day if and only if it is in another sweep's batch at that moment, or another transaction holds its row, or the sweep had a batch of it already; and that batch then rolled back |
| `Protocol.HeldDigestIsMissed` | src/application/service/digest_cron_service.rs:125-142 | A run: the only due digest is held by another transaction when the sweep asks; the sweep ends having claimed nothing, with no other sweep, no rollback and no mail |
| `Protocol.Spine` | src/application/service/digest_cron_service.rs:248-296 | After any run, the latest verb or committed batch of a digest in that run fixes its row: after a verb, the verb's cadence and one cadence past its day; after an all-sent batch, which is then the digest's latest commit, one cadence past the batch's day; after a batch with a failed send, the cadence it found and the day after; and the row is due past every day one of its batches committed on |
| `Protocol.SafeIsNeeded` | src/application/service/digest_write_service.rs:169-198 | After any cadence change a new sweep can commit a second batch on an earlier batch's day if and only if the change's next due day does not lie past every day the digest committed on, whether the digest is activated or not; a day no earlier than the sweeps' is always safe |
| `Protocol.FreshRunIsLegal` | src/application/service/digest_write_service.rs:141-198 | Every run whose schedule verbs work with a day no earlier than the sweeps' days is one the run theorems hold of |
| `Protocol.StaleVerbMailsTwice` | src/application/service/digest_write_service.rs:169-198 | A concrete run: a cadence change with yesterday's day between two sweeps mails a user twice in a day with no rollback |
| `Protocol.OnlyTheSwitchSwitches` | src/application/service/digest_write_service.rs:301-319 | After any run a digest is activated as its latest `set_state` said, or from its creation when there was none: no batch, advanced, degraded or failed, changes it |
| `Protocol.StepDueLeft` | src/application/service/digest_cron_service.rs:120-150 | A sweep's claimable rows lose exactly the claimed row at each of its claims and gain none by any other step, given such verbs |
| `Protocol.SweepTerminates` | src/application/service/digest_cron_service.rs:120-150 | Over any run whose schedule verbs work with a day no earlier than the sweeps', a sweep's claims plus the rows it has left are at most the due rows it started with |
| `Protocol.StepLadder` | src/application/service/digest_cron_service.rs:186-212 | Apart from `set_periodicity`, a cadence changes only when a batch commits that had recipients, was told none logged in and sent to all; by one rung, with an advance by the new cadence |
| `Protocol.LadderConservation` | src/application/service/digest_cron_service.rs:248-296 | Over any run without `set_periodicity`, committed degradations equal final rung minus initial rung, between 0 and 3 |
| `Protocol.BatchRefines` | src/application/service/digest_cron_service.rs:177-297 | One batch, a failed recipient query included, taken step by step through the state machine leaves the row, mails and locks that the engine's batch function leaves |
| `Together.SweepsTogether` | src/application/service/digest_cron_service.rs:115-172 | However many sweeps of one moment interleave step by step, with manual sends and other transactions' locks between, once none is in a batch and one finds nothing more to claim, every row nobody holds is what the engine's single sweep leaves of it, and each due digest whose batch commits was mailed exactly as that one batch mails |
| `Protocol.RunInv` | src/application/service/digest_cron_service.rs:120-296 | Every step of every run keeps the invariants about locks, due days past commits, commit days, mails and processed digests |
| `Batch.BatchOutcome` | src/application/service/digest_cron_service.rs:177-297 | Case by case what a batch makes of a row: activation never changes; unreadable recipients, a failed statement or an advance that matches no row leave it; a send that did not succeed puts it off to tomorrow; otherwise it advances, by the next slower cadence when nobody logged in and by its own otherwise |
| `Batch.DegradesExactly` | src/application/service/digest_cron_service.rs:191-212 | A batch changes the cadence if and only if it commits an advance, had recipients, the port answered that none logged in, and the cadence was not quarterly; then by one rung together with the advance |
| `Batch.CommitMovesPastToday` | src/application/service/digest_cron_service.rs:248-296 | Every committed batch moves `next_run_date` past the sweep's day, by at most 92 days |
| `Batch.FailedDaysLeaveNoTrace` | src/application/service/digest_cron_service.rs:248-285 | After any run of failed or rolled-back days the first healthy day leaves the row it would have made of the original row, with at most one rung taken |
| `Batch.EngagementKeepsCadence` | src/application/service/digest_cron_service.rs:186-204 | Over any run of batches, each on the day of the one before or the day after, or on the due day and, if weekly, no later in the day, with a recipient's login between each batch and the next, the cadence never changes, whatever became of the sends and transactions |
| `Batch.EngagementExactly` | src/application/service/digest_cron_service.rs:67-80 | A login since the previous batch keeps the cadence under every environment if and only if the digest is quarterly or the login window reaches back to that batch; on the due day, if and only if it is not weekly or the batch is no later in the day |
| `Batch.LaterWeeklySweepDegrades` | src/application/service/digest_cron_service.rs:67-70 | A due weekly batch any amount later in the day than the last one degrades a digest whose recipient logged in right after the last mail |
| `Batch.RetryExactly` | src/application/service/digest_cron_service.rs:67-80 | Any day after the due day, a login since the last advance keeps the cadence under every environment if and only if the digest is quarterly, or daily and at most 48 hours past that advance, or monthly, advanced on the last day of a month and the batch falls in the next month |
| `Batch.RetriedWeeklyDegrades` | src/application/service/digest_cron_service.rs:186-264 | A weekly digest whose due batch the mail seam refuses is degraded by the next day's retry at the same time of day, though its recipient logged in within a day of the last advance |
| `Batch.MailedCounts` | src/application/service/digest_cron_service.rs:217-245 | Each recipient is mailed as often as listed when the send succeeds or fails only after enqueueing, and not when refused; the send count reaches the recipient count exactly when all succeeded |
| `Batch.MailedJoins` | src/application/service/digest_cron_service.rs:217-245 | Mails go out in the order of the recipients |
| `Sweep.DigestEngine.RunDailyPull` | src/application/service/digest_cron_service.rs:115-172 | The claim loop processes exactly the activated digests due by today, each once; along the order due days never fall and ids rise within a day; each row becomes what its own batch makes of it, others are untouched; mails and tally are those of the batches in that order |
| `Sweep.DigestEngine.RunClaimed` | src/application/service/digest_cron_service.rs:150-169 | One claimed digest commits its batch's row or rolls back and is entered as isolated, touching no other row |
| `Sweep.DigestEngine.ProcessDigest` | src/application/service/digest_cron_service.rs:177-297 | The batch body returns the row to commit or asks for a rollback, and mails and tallies accordingly |
| `Sweep.DigestEngine.ClaimNext` | src/application/service/digest_cron_service.rs:122-142 | The claimed digest is activated, due and unprocessed, and every other such digest is due later, or on the same day with a larger id; none is claimed exactly when there is none |
| `Sweep.DigestEngine.SendAll` | src/application/service/digest_cron_service.rs:215-245 | The send loop enqueues to the recipients in order; sent, refused and failed are the numbers of sends with each result |
| `Sweep.DigestEngine.SendNow` | src/application/service/digest_cron_service.rs:304-346 | A manual send mails every recipient, changes no row, answers the numbers of sends with each result, and not-found for an unknown digest |
| `Sweep.DigestEngine.CreateDigest` | src/application/service/digest_write_service.rs:141-162 | A new digest is activated and due one cadence after the given day |
| `Sweep.DigestEngine.SetPeriodicity` | src/application/service/digest_write_service.rs:169-198 | A whitelisted value resets cadence and due day; any other value and an unknown digest are refused without change |
| `Sweep.DigestEngine.SetState` | src/application/service/digest_write_service.rs:301-319 | Flips the activation of a known digest and nothing else |
| `Sweep.SweepOrderIsUnique` | src/application/service/digest_cron_service.rs:122-131 | There is only one order that lists the due digests by (next_run_date, id) |
| `Sweep.SecondSweepRepeatsOnlyRollbacks` | src/application/service/digest_cron_service.rs:120-170 | A later sweep of the same day finds exactly the due digests whose batch rolled back |
| `Sweep.SweepMailCounts` | src/application/service/digest_cron_service.rs:214-245 | A sweep adds to the mail queue, for each claimed digest and user, as many mails of that day as the digest's batch mails, and no others |
| `Sweep.TallyTells` | src/application/service/digest_cron_service.rs:84-98 | For committed batches the tally lists a digest as degraded or failed exactly when it was; a rolled-back digest is listed as isolated; no other digest is listed; the counts are those of the claims and of the sends that succeeded |
| `Cadence.NextRunLands` | src/application/service/digest_write_service.rs:64-71 | The next due day is a day or a week on, or one or three calendar months on, on the same day of month clamped to that month |
| `Cadence.WindowLands` | src/application/service/digest_cron_service.rs:67-80 | The monthly and quarterly login windows begin one or three calendar months back, clamped alike |
| `Cadence.GapBounds` | src/application/service/digest_write_service.rs:64-71 | An advance is 1, 7, 28 to 31, or 89 to 92 real days |
| `Cadence.SlowerIsLater` | src/application/service/digest_write_service.rs:64-83 | A slower cadence is always due later from the same day |
| `Cadence.LadderStep` | src/application/service/digest_write_service.rs:76-83 | The ladder goes down one rung at a time and stops exactly at quarterly |
| `Cadence.WhitelistIsExact` | src/application/service/digest_write_service.rs:42-59 | A value parses to a cadence if and only if that cadence prints as it |
| `Cadence.WindowLength` | src/application/service/digest_cron_service.rs:67-80 | The login window is 2 or 7 days to the second, or 28 to 31 or 89 to 92 days from a midnight |
| `Cadence.WindowReachesPreviousSend` | src/application/service/digest_cron_service.rs:67-80 | On the due day the login window reaches back to the previous send if and only if the cadence is not weekly or the batch is not later in the day |
| `Cadence.WindowReachesRetry` | src/application/service/digest_cron_service.rs:67-80 | On a retry the login window always reaches past the failed batch |
| `Calendar.AddMonthsLands` | src/application/service/digest_write_service.rs:88-94 | The result lies exactly `months` month-indices away, on the same day of month clamped to the target month |
| `Calendar.AddMonthsMonotone` | src/application/service/digest_write_service.rs:88-94 | Adding months keeps the order of dates |
| `Calendar.AddMonthsForthAndBack` | src/application/service/digest_write_service.rs:88-94 | Forth and back never lands later, and returns exactly when the day fits the target month |
| `Calendar.MonthlyStepsDrift` | src/application/service/digest_write_service.rs:88-94 | After n monthly steps the day of month is the smaller of the original and the shortest month landed in |
| `Calendar.DaysInMonthIsTable` | src/application/service/digest_write_service.rs:96-100 | The day before the first of the next month gives the month-length table of section 5.7 of RFC 3339 |
| `Calendar.DayOrder` | src/application/service/digest_write_service.rs:88-100 | Day numbers order dates as the calendar does and tell them apart |
| `Calendar.YearStart` | src/application/service/digest_write_service.rs:96-100 | The accumulated month lengths agree with the closed form for days before a year |
| `Calendar.ClosedForm` | src/application/service/digest_write_service.rs:88-100 | The day number of every date is that of the Gregorian closed form: 365 days and the leap days for the year, (367 month - 362)/12 less February's deficit for the month |
| `Token.TokenRoundTrip` | src/application/service/unsubscribe_service.rs:227-246 | A printed token parses back to itself, for all UUIDs, 64-bit expiries and 64-digit MACs |
| `Token.HexBytesInvertsPrinter` | src/application/service/unsubscribe_service.rs:157-186 | `hex_bytes` inverts the hex printer and otherwise reads exactly the spellings that differ in letter case |
| `Token.MessageBinds` | src/application/service/unsubscribe_service.rs:157-160 | Two capabilities with the same MAC message are the same digest, user and expiry |
| `Token.MessageParts` | src/application/service/unsubscribe_service.rs:157-160 | The MAC message is the domain, the digest, the user and the expiry, in that order |
| `Token.PrintsInOrder` | src/application/service/unsubscribe_service.rs:157-166 | A MAC prints byte by byte in order, each as two hex digits, the high one first |
| `Token.MintedLinkVerdict` | src/application/service/unsubscribe_service.rs:215-270 | A printed link parses to the minted token and is Valid through 180 days, Expired after, Refused under an empty secret |
| `Token.GenuineExactly` | src/application/service/unsubscribe_service.rs:257-270 | A token is not refused if and only if the secret is non-empty and its MAC is, letter case aside, the HMAC of its own parts under that secret; it is then valid exactly through its expiry |
| `Token.LinkOutlivesCadence` | src/application/service/unsubscribe_service.rs:215-224 | A link minted on or after a batch's day stays Valid at every moment through 87 days after the next due day, at any cadence |
| `Token.LinkLifetimeIsTight` | src/application/service/unsubscribe_service.rs:47-48 | On the 88th day it can have expired |
| `Token.HeaderNamesRecipient` | src/application/service/digest_render_service.rs:173-182 | The token in the query of the List-Unsubscribe header's URL is the one minted, for every digest and user, if and only if the base URL holds no `?`, no `#` and no `>` |
| `Token.FragmentLosesToken` | src/application/service/digest_render_service.rs:173-182 | From a base URL with a fragment and no query before it, no token at all reaches the service |
| `Token.FragmentBase` | src/application/service/digest_render_service.rs:177-182 | One accepted base URL that loses every token |
| `Token.PlainLinkPosts` | src/presentation/http/public_routes.rs:53-75 | From a base URL without `?`, `#` and `>`, a one-click POST goes to `/digest/unsubscribe` under it and brings the link's own text |
| `Query.OnePart` | src/presentation/http/public_routes.rs:40-75 | A query of one part reads as that field's value when the field is `t` |
| `Query.TwiceIsRefused` | src/presentation/http/public_routes.rs:40-46 | A query that gives `t` twice brings no token |
| `Query.SlashedQuery` | src/presentation/http/public_routes.rs:40-75 | In a query that goes on with the link's path, what follows never becomes the token: the answer does not depend on it or holds a slash |
| `Token.ReadLinksHoldNoMarkup` | src/application/service/unsubscribe_service.rs:233-246 | Whatever text parses as a token holds no character that could read as markup |
| `Text.UuidRoundTrip` | src/application/service/unsubscribe_service.rs:235-236 | A UUID parses back from its hyphenated print, its bare digits, in braces and as a URN |
| `Text.HexJoins` | src/application/service/unsubscribe_service.rs:235-236 | Hex digits are read high digits first |
| `Text.IntRoundTrip` | src/application/service/unsubscribe_service.rs:237 | Exactly the 64-bit integers survive printing and parsing |
| `FailureBook.RunLengthIsLongest` | src/application/service/unsubscribe_service.rs:132-140 | The stored count is the length of the longest run of failures the history ends in |
| `FailureBook.KeysTellPairsApart` | src/application/service/unsubscribe_service.rs:109-111 | Two pairs with the same book key are the same pair |
| `FailureBook.OneMoreFailure` | src/application/service/unsubscribe_service.rs:132-140 | Registering a failure extends a live run or starts a new one, as the history does |
| `FailureBook.VerifyFailureBook.Locked` | src/application/service/unsubscribe_service.rs:119-130 | Locked exactly when the history ends in five failures, each within 60 s of the next, the latest under 60 s old; dropping a lapsed entry changes no later answer |
| `FailureBook.VerifyFailureBook.RegisterFailure` | src/application/service/unsubscribe_service.rs:132-140 | Appends one failure to the pair's history and keeps every entry standing for its history |
| `FailureBook.VerifyFailureBook.Reset` | src/application/service/unsubscribe_service.rs:142-147 | Appends a reset to the pair's history and keeps every entry standing for its history |
| `Subscriptions.VerbsDo` | src/application/service/digest_write_service.rs:246-361 | What each verb leaves in its row and reports: a hand subscription a live, subscribed, unstamped row with its metadata over the old; an automatic one only a missing row; an unsubscribe and a resubscribe only a live row in the other state; a stamp only metadata |
| `Subscriptions.SubscriptionMachine` | src/application/service/unsubscribe_service.rs:279-324 | Over every run: rows are never removed, `unsubscribed_at` is set exactly while unsubscribed, audited unsubscribes are exactly the moves out, which are the moves back plus one while out |
| `Subscriptions.AutoSubscribedOnce` | src/application/service/digest_write_service.rs:279-297 | The auto-subscribed fact is recorded at most once per (digest, user) over every run |
| `Subscriptions.ReplaysNeverTouch` | src/application/service/unsubscribe_service.rs:279-303 | No run of replayed unsubscribes and redelivered events changes an unsubscribed row |
| `Subscriptions.RedeliveryLeavesNoTrace` | src/application/service/user_created_handler.rs:33-39 | In any run of the verbs, leaving out a later automatic subscription of a user already subscribed once, by hand or by event, ends in the same table |
| `Subscriptions.FirstUnsubscribeWins` | src/application/service/unsubscribe_service.rs:279-303 | After an unsubscribe of a live row, any replays leave it unsubscribed at the moment of the first |
| `Subscriptions.StepLeavesOthers` | src/application/service/digest_write_service.rs:246-297 | A verb on one (digest, user) leaves every other row and its audit facts alone |
| `Subscriptions.SubscriptionTable.SubscribeUser` | src/application/service/digest_write_service.rs:246-272 | Subscribes a new or existing row, clears the stamp and the tombstone, merges metadata, reports whether it created the row |
| `Subscriptions.SubscriptionTable.AutoSubscribeUser` | src/application/service/digest_write_service.rs:279-297 | Creates a missing row and leaves an existing one exactly as it is |
| `Subscriptions.SubscriptionTable.Apply` | src/application/service/unsubscribe_service.rs:279-303 | Flips a live subscribed row once, stamping and auditing it; otherwise changes nothing |
| `Subscriptions.SubscriptionTable.Resubscribe` | src/application/service/unsubscribe_service.rs:309-324 | Flips a live unsubscribed row back and clears the stamp; otherwise changes nothing |
| `Subscriptions.SubscriptionTable.StampMetadata` | src/application/service/digest_write_service.rs:342-361 | Merges a patch into the metadata of a known row |
| `Unsubscribe.OnlyNamedRowsChange` | src/application/service/unsubscribe_service.rs:341-357 | Over any interleaving of links and verbs, a row that no valid link and no verb names keeps its state and its facts |
| `Unsubscribe.MailedLinkUnsubscribes` | src/application/service/unsubscribe_service.rs:341-357 | A mailed link unsubscribes its live subscriber if and only if posted within 180 days of the mint, and touches no other row |
| `Unsubscribe.UnsubscribeService.Verify` | src/application/service/unsubscribe_service.rs:257-270 | Under a secret, a wrong MAC is Refused and adds one failure at the clock to its own pair; a matching token within its expiry is Valid, resets its pair and leaves it unlocked; a later one is Expired and adds nothing; an empty secret refuses and adds nothing |
| `Unsubscribe.TextsAndPairs` | src/application/service/unsubscribe_service.rs:257-338 | Each judged text adds to each pair's history one failure, one reset or nothing, as its parse, MAC and expiry say |
| `Unsubscribe.FiveMismatchesLock` | src/application/service/unsubscribe_service.rs:119-140 | Over any texts judged for a pair and for others, none a valid link of it, five in a row that count against the pair, each less than 60 s after the one before and the last less than 60 s ago, lock it; and nothing else locks a pair without a history |
| `Unsubscribe.ClearingUnlocks` | src/application/service/unsubscribe_service.rs:142-147 | A valid link unlocks its pair |
| `Unsubscribe.UnsubscribeService.CheckToken` | src/application/service/unsubscribe_service.rs:328-338 | Answers the verdict of the text and books it: a malformed one as a failure of the zero pair, a wrong MAC of its pair, a valid one as a reset, others not at all |
| `Unsubscribe.UnsubscribeService.UnsubscribeByToken` | src/application/service/unsubscribe_service.rs:341-357 | Acts on the named row exactly when the link is valid, books the text as `CheckToken` does, and says which of the outcomes it came to |
| `GrowthLoop.DeliveriesInClosedForm` | src/application/service/user_created_handler.rs:76-160 | After any deliveries the old rows are untouched, the new rows are exactly the accepted users' and subscribed, each audited once |
| `GrowthLoop.RedeliveryDoesNotShow` | src/application/service/user_created_handler.rs:33-39 | Two relays of deliveries alone that get the same users accepted, in any order and number, leave the same membership and audits; `Subscriptions.RedeliveryLeavesNoTrace` is about any verbs in between |
| `GrowthLoop.UserCreatedHandler.Handle` | src/application/service/user_created_handler.rs:76-160 | One delivery changes the table only for an internal user without a row, whose subscribed row and audit fact it adds; an external user is acknowledged without one; the rest fail for redelivery |
| `Kpi.Classify` | src/application/service/digest_render_service.rs:215-281 | The loop fails exactly when some key aborts; otherwise its lists are the keys of each fate in order; every compute made is of a registered, in-fence key |
| `Kpi.FateByWindows` | src/application/service/digest_render_service.rs:240-274 | The fence decides first; then the first window without both values decides: a missing source on either side drops the key, trouble without one aborts |
| `Kpi.FencesHold` | src/application/service/digest_render_service.rs:240-274 | A key renders exactly when registered, within its fence and answered with a value in all three windows and both periods; a company's key needs a company and a pinned company's key that very company |
| `Kpi.KeepCounts` | src/application/service/digest_render_service.rs:215-281 | Each list holds exactly its keys, as often as enabled |
| `Kpi.ClassesPartition` | src/application/service/digest_render_service.rs:215-281 | When no key aborts the three lists share out the enabled keys |
| `Kpi.KeepsOrder` | src/application/service/digest_render_service.rs:205-213 | The lists keep the order of the enabled keys |
| `Kpi.ValuesDoNotMatter` | src/application/service/kpi_registry.rs:171-182 | Replacing computed values by any others, zeros included, changes no list |
| `Kpi.KpiRegistry.Register` | src/application/service/kpi_registry.rs:232-252 | A name keeps its prefix and its first definition; a bad prefix is refused and a taken name panics without change |
| `Carousel.PickTip` | src/application/service/digest_render_service.rs:352-396 | Finds the first tip in table order that is unconsumed and passes its gate, or none |
| `Carousel.CarouselInOrder` | src/application/service/digest_render_service.rs:403-427 | Each attempt carries the remaining tip whose turn the marked attempts before it brought up, then none; the turn never moves past the first remaining tip with a (soft-deleted) marker row |
| `Carousel.DeliveredInTurn` | src/application/service/digest_render_service.rs:403-466 | Over any run the tips of the attempts that marked are exactly the first remaining tips, each once, up to a stuck one, which then comes every time; these are the tips of the successful deliveries if and only if no attempt with a failed first-digest stamp carried a tip |
| `Carousel.RemainingInOrder` | src/application/service/digest_render_service.rs:352-367 | What remains is in (sequence, id) order |
| `Carousel.RemainingExactly` | src/application/service/digest_render_service.rs:352-396 | What remains for a user is exactly the tips without a live marker of theirs that are ungated or gated by one of their resolved groups |
| `Carousel.FirstBySequence` | src/application/service/digest_render_service.rs:352-367 | The tip carried comes before every other remaining one by sequence, then id |
| `Carousel.UnresolvedKeysLeaveUngated` | src/application/service/digest_render_service.rs:369-389 | When the group keys cannot be resolved exactly the unconsumed ungated tips remain |
| `Carousel.DeletedMarkerSticks` | src/application/service/digest_render_service.rs:416-427 | Once the next tip has a soft-deleted marker every attempt carries it |
| `Carousel.ConsumesExactly` | src/application/service/digest_render_service.rs:416-427 | A marked attempt consumes its tip if and only if no marker row was there |
| `Delivery.RenderService.SendToRecipient` | src/application/service/digest_render_service.rs:396-466 | The mail a queued send adds carries the given digest and recipient, the first remaining tip, which the send then marks, and in each list exactly the enabled keys of that fate; which inputs lead to sent and to failed without a mail; an unqueued send changes nothing |
| `Delivery.PlannedMailNamesRecipient` | src/application/service/digest_render_service.rs:296-302 | Whatever else a mail holds, its unsubscribe header brings back its digest and recipient, for every one of them, if and only if the base URL holds no `?`, no `#` and no `>`; and then the very token minted |

## Left out

- Generated CRUD, repositories, DTOs, events, exports, seeders and HTTP handlers: thin wrappers over crates that are not part of this model.
- The generated transition routes, which write a subscription's state without its stamp: `SubscriptionMachine` is about the hand-written verbs only.
- Mail transport, public routes, rate limiting, HTML building and sanitising, tracing: I/O and foreign code; a send is an oracle that succeeds, is refused or fails.
- SHA-256, HMAC and constant-time comparison: HMAC is any function to 32 bytes, so nothing is claimed about forging.
- `margin` and the render windows of `src/application/service/base_kpis.rs`: floating-point display; a metric's value is an integer here, and no proof reads it.
- Row-level security, org scoping, the tables' timestamp triggers and foreign-key deletes.
- A failing commit, or a failing claim query, which ends the sweep: commits succeed here and a sweep may stop after any step.
- The year range of `chrono::NaiveDate`, the 32-bit arithmetic inside it, and sub-second time: dates and moments are unbounded integers.
- Overflow of the 32-bit failure count, and a clock that runs backwards: the count is unbounded and the clock monotone, as `Instant` is.
- The digest name, `enable_kpi`, `disable_kpi` and `get_digest`: single statements with nothing to relate.
- Protocol.OneBatchADay: a claim in the state machine takes any due free row rather than the earliest, which allows more runs than the engine has; the order is proved of the engine by `RunDailyPull`.
- Whether the base URL names a host and path that lead to the service, and escapes of octets outside ASCII, are not part of this model.
- GrowthLoop.DeliveriesInClosedForm: the insert and its audit record are one step, as are an unsubscribe and its record; a process that dies between them leaves a row that no redelivery audits, so "once" is "at most once" there.
- Together.SweepsTogether: all its sweeps judge logins from one moment and meet the same environment, and no verb changes a row between them; with differing moments there is no single sweep to compare with.
- Subscriptions.SubscriptionTable.Apply: the database's NOW() is the moment the caller passes.
