# VenueWire in Dafny

A model of the parts of VenueWire whose correctness is not obvious from any one function, with machine-checked proofs.
`dafny verify dfyconfig.toml` checks all of it. Nothing here executes the connector itself.

What is modelled, group by group:

- **FIX wire layer.** `FixCodec` prints and parses tag=value messages with BodyLength and CheckSum; `FixFramer` cuts a byte
  stream into frames; `Chunking` holds the law that any framer obeys whose verdicts survive more bytes; `FixStream` joins them:
  encode, concatenate, cut anywhere, feed, parse, and the messages come back.
- **Deribit FIX session.** `FixSession` is the session as a state machine whose environment (transport, callbacks, clock) answers
  arbitrarily; `FixSessionObject` is the mutable session, proved to follow it step by step. `FixSessionInbound` proves ordering and
  completeness of what is processed, `FixSessionOutbound` the journal window and replays, `FixSessionMessages` what single messages say
  and when a resend is asked for.
- **Quotes and fills.** `QuoteMath` (tick and step rounding, price protection, sizing), `BookWalk` (book parsing and the greedy
  walk), `Reconcile` (fills and fees summed up), `DebitBound` (what reconciliation finds stays within the quoted bound and the budget).
- **Durable intents and confirmation.** `IntentStore` (the store and its operations), `IntentRuns` (what every run of operations
  keeps), `IntentTerms` (the operations in plain terms), `ConfirmProtocol` (all interleavings of confirmations, rechecks, store faults, crashes and restarts), `ConfirmUnsent`
  (exactly which trades never reach the venue), `ConfirmRecords` (what is recorded and returned after the venue's answer or a recheck).
- **Order state.** `DecimalText` (sums on decimal text), `OrderState` (the reducer), `OrderExecutions` (sequence and repetition of
  executions do not matter), `OrderKeys` (storage keys tell identifiers apart), `OrderRuns` (statuses never go back, late REST replies do no harm).
- **Small agreements.** `EventBroker` (loss only behind a resync marker), `OrderBook` (a snapshot and an unbroken chain of changes),
  `Valuation` (exact totals, latest prices, revisions).

`Bytes`, `Text` and `Ordering` hold the library routines that the modelled code calls.

Modelling choices: machine integers are mathematical integers except where `strconv` checks the 64-bit range, `big.Rat` is `real`,
times are integers with 0 for the zero time, and one load-change-save of the intent file is one atomic step. Go map iteration
is an arbitrary choice of the next key.

Three facts about the code that a reader might not expect, each with its exact condition and an input that shows it:

- `floorToStep` and `ceilToStep` truncate toward zero first, so they are floor and ceiling exactly for values that are not negative
  or already multiples (`QuoteMath.FloorToStepExact`, `CeilToStepExact`, `RoundingBelowZero`). No caller passes a negative value.
- The label NOT_SUBMITTED_AFTER_RESTART can end up on a trade that was sent (`ConfirmUnsent.LabelledNotSubmittedThoughSent`).
  A trade that has left Created never reaches the venue if and only if it has not been sent and no live call is about to send it
  (`ConfirmUnsent.NeverSentExactly`); being unmarked is the durable sign of that (`ConfirmUnsent.UnmarkedIsNeverSent`).
- A venue order reported by link alone, then by native ID alone, then by both can lose a status (`OrderRuns.MixedNamingRegresses`);
  one update does so exactly when it takes the key of an order that it did not find and that is further on
  (`OrderRuns.UpdateLowersExactly`).

## Model

| member | source | states |
|---|---|---|
| `FixCodec.Get` | internal/fix/codec.go:32-39 | returns the value of the first field with the tag, and whether there is one |
| `FixCodec.LookupIs` | internal/fix/codec.go:32-39 | a field with no earlier field of its tag is the one found |
| `FixCodec.CheckSum` | internal/fix/codec.go:76-82 | the byte loop computes the sum of all bytes modulo 256 |
| `FixCodec.CheckSumAdds` | internal/fix/codec.go:76-82 | the checksum of a byte is the byte, and checksums add up modulo 256 |
| `Bytes.AtoiSigned` | internal/fix/codec.go:110-113 | signs are read as such and numbers outside the 64-bit range not at all |
| `FixCodec.Encode` | internal/fix/codec.go:51-74 | succeeds exactly on legal field lists, reports the first offending field otherwise, and produces the framed wire text |
| `FixCodec.Parse` | internal/fix/codec.go:95-153 | returns the message as far as it could be filled in, and the error of the first bad part or failed check; without an error it is the parsed message |
| `FixCodec.Complete` | internal/fix/codec.go:116-152 | the checks after splitting, in order, with the message filled in up to the one that fails |
| `FixCodec.BestEffortOfParsed` | internal/fix/codec.go:95-153 | whatever the options, a message parsed without error is the one filled in |
| `FixCodec.SplitFields` | internal/fix/codec.go:104-115 | the field loop returns all fields or the error of the first bad part |
| `FixCodec.ParseAccepts` | internal/fix/codec.go:95-172 | a message is accepted only with tags 8, 9, 35 and 10 in their places and readable length and checksum; strictly, only with the length between the second SOH and the last "10=" field and the sum of the bytes before it |
| `FixCodec.WireShape` | internal/fix/codec.go:51-74 | an encoded message is begin part, length of exactly the body, body, and a three-digit checksum |
| `FixCodec.OffsetsOfWire` | internal/fix/codec.go:155-172 | on an encoded message the offsets are those of the body and of the checksum field, even when values contain checksum-like text |
| `FixCodec.ParseOfWire` | internal/fix/codec.go:51-172 | strict parsing of an encoded message returns exactly its fields between the framing fields |
| `FixFramer.Framer.Feed` | internal/fix/framer.go:15-35 | emits every frame that the bytes so far complete, keeps the rest, applies the default size limit of 1 MiB |
| `FixFramer.Framer.Drain` | internal/fix/framer.go:20-34 | the cutting loop computes the specified cut for any scanner |
| `FixFramer.CutIsFrame` | internal/fix/framer.go:37-74 | whatever is cut is "8=", a begin string, "9=" and the length of the body, the body, "10=" and three bytes, within the size limit |
| `FixFramer.FrameIsCut` | internal/fix/framer.go:37-74 | and every such text within the limit is cut, whatever follows |
| `FixFramer.VerdictStable` | internal/fix/framer.go:37-74 | a frame cut or a malformed head is the same verdict after any more bytes |
| `FixFramer.OversizeNeverCompletes` | internal/fix/framer.go:28-31 | an incomplete buffer beyond the limit can never become a frame |
| `FixFramer.ScanStable` | internal/fix/framer.go:37-74 | so the framer's scanner meets the premises of the chunking law |
| `FixFramer.FeedTwice` | internal/fix/framer.go:15-74 | feeding a then b gives the frames, the rest and the error-or-not of feeding a+b on every stream; frames plus rest are the bytes fed |
| `Chunking.CutConserves` | internal/fix/framer.go:15-35 | emitted frames followed by the buffer are always the bytes fed |
| `Chunking.FeedInTwo` | internal/fix/framer.go:15-35 | the two-chunk law for any stable scanner |
| `Chunking.ChunkingInvisible` | internal/fix/framer.go:15-35 | any number of chunks cut anywhere gives what one chunk gives |
| `FixStream.NextFrameOfWire` | internal/fix/framer.go:37-74 | an encoded message at the head of a buffer is cut exactly, whatever follows |
| `FixStream.StreamRoundTrip` | internal/fix/framer.go:15-74 | any legal messages, encoded, joined, cut at arbitrary points, fed and strictly parsed come back exactly, in order, nothing left over |
| `FixSessionInbound.RunDisciplined` | internal/deribitfix/session.go:226-357 | in every run processed numbers strictly increase, the buffer respects its limit, a non-empty buffer means recovery, and after each success recovery means a non-empty buffer |
| `FixSessionInbound.SendRefusedDuringGap` | internal/deribitfix/session.go:226-236 | with messages missing an application send is refused and leaves no trace |
| `FixSessionInbound.InOrderDelivery` | internal/deribitfix/session.go:238-306 | for arrivals from a numbered log in any order with repeats, an error-free run has processed exactly entries 1 to expectedIn-1 in order; expectedIn is the least number missing and the buffer is exactly the arrivals above it |
| `FixSessionMessages.TypesRead` | internal/deribitfix/session.go:367-427 | which MsgType text is which kind of message, with the fields each kind carries |
| `FixSessionMessages.RangesRead` | internal/deribitfix/session.go:387-393 | a resend range counts exactly when both ends are readable, the first positive and the last not negative |
| `FixSessionMessages.SequencesRead` | internal/deribitfix/session.go:238-256 | the sequence number and the duplicate flag as read |
| `FixSessionMessages.EssenceIs` | internal/deribitfix/session.go:486-500 | what a retransmission may change is exactly tags 43, 52 and 122 |
| `FixSessionMessages.SendSays` | internal/deribitfix/session.go:430-449 | a successful send writes one message with its type, the next number, sender, target, time and body |
| `FixSessionMessages.SendGate` | internal/deribitfix/session.go:226-236 | an application send is refused before Logon and in recovery, and otherwise says that |
| `FixSessionMessages.GapAsks` | internal/deribitfix/session.go:257-282 | a first gap starts recovery and, exactly when the write succeeds and the sender can be encoded, writes one ResendRequest from the expected number to the end |
| `FixSessionMessages.RunGapAsksForLeastMissing` | internal/deribitfix/session.go:257-282 | over every error-free run on a numbered log the request asks from the least number that has not arrived |
| `FixSessionMessages.RunAsksOnce` | internal/deribitfix/session.go:238-357 | in every run, while in recovery, no event writes a further request; all it can write of that type is a replay |
| `FixSessionMessages.TestRequestEchoed` | internal/deribitfix/session.go:376-385 | a test request is answered by one heartbeat with its ID |
| `FixSessionMessages.ResetObeyed` | internal/deribitfix/session.go:308-340 | a reset is obeyed exactly when logged on and strictly forward; what it skips is dropped and one message is processed per number passed |
| `FixSessionMessages.ResetIgnoresNumber` | internal/deribitfix/session.go:316-322 | its own sequence number does not matter |
| `FixSessionMessages.LogonGate` | internal/deribitfix/session.go:368-418 | Logon only as message 1, nothing for the application before it, and how Logout and Reject end |
| `FixSessionMessages.OthersRefused` | internal/deribitfix/session.go:238-290 | old numbers, missing numbers and a full buffer change nothing; only a marked duplicate is no error |
| `FixSessionOutbound.RememberSlides` | internal/deribitfix/session.go:451-468 | evicting the oldest and recording slides the window of numbers by one |
| `FixSessionOutbound.RunKeepsWindow` | internal/deribitfix/session.go:430-468 | in every run the journal is the contiguous window of the last min(limit, nextOut-2) messages sent |
| `FixSessionOutbound.ReplayAllOrNothing` | internal/deribitfix/session.go:386-404 | with a working transport a request replays its whole clamped range in order with original numbers and application fields, or nothing and pauses writes; numbering and journal never change |
| `FixSessionOutbound.RunReplaysAllOrNothing` | internal/deribitfix/session.go:470-511 | that holds in every state a run reaches |
| `FixSessionOutbound.ResentIsReplay` | internal/deribitfix/session.go:470-511 | a resent message keeps number and application fields, carries PossDup and the original sending time |
| `FixSessionObject.Session.RememberOutbound` | internal/deribitfix/session.go:451-468 | the eviction loop finds the oldest entry |
| `FixSessionObject.Session.SendLocked` | internal/deribitfix/session.go:430-449 | the object's step is the machine's |
| `FixSessionObject.Session.Send` | internal/deribitfix/session.go:226-236 | the object's step is the machine's, refusals included |
| `FixSessionObject.Session.RunCallback` | internal/deribitfix/session.go:419-425 | the callback runs unlocked: arbitrary sends may happen before it returns |
| `FixSessionObject.Session.ResendLocked` | internal/deribitfix/session.go:470-511 | the replay loop is the machine's resend |
| `FixSessionObject.BuildResent` | internal/deribitfix/session.go:486-500 | the field loop builds the resent message, reading the clock anew for every SendingTime field |
| `FixSessionObject.Session.AnswerResend` | internal/deribitfix/session.go:386-404 | clamps the range, replays it, and pauses writes when that fails |
| `FixSessionObject.Session.ProcessExpected` | internal/deribitfix/session.go:359-428 | one message of each type is handled as the machine says |
| `FixSessionObject.Session.FinishRecovery` | internal/deribitfix/session.go:342-357 | recovery ends exactly when nothing is buffered and the callback agrees |
| `FixSessionObject.Session.DrainPending` | internal/deribitfix/session.go:294-305 | the drain loop processes buffered messages while the expected one is there |
| `FixSessionObject.Session.HandleSequenceReset` | internal/deribitfix/session.go:308-340 | a reset moves forward only, drops what it skips, drains, and ignores its own number |
| `FixSessionObject.Session.Handle` | internal/deribitfix/session.go:238-306 | the object's step on any message is the machine's, all errors included |
| `QuoteMath.FloorToStepGreatest` | internal/quicktrade/quote.go:584-588 | for values not negative, the result is the greatest step multiple at or below the value |
| `QuoteMath.CeilToStepLeast` | internal/quicktrade/quote.go:590-598 | for values not negative, the result is the least step multiple at or above the value |
| `QuoteMath.FloorToStepExact` | internal/quicktrade/quote.go:584-588 | the result is the greatest multiple at or below the value, or any at or below it, exactly when the value is not negative or already a multiple |
| `QuoteMath.CeilToStepExact` | internal/quicktrade/quote.go:590-598 | the result is the least multiple at or above the value exactly when the value is not negative or already a multiple |
| `QuoteMath.RoundingBelowZero` | internal/quicktrade/quote.go:584-598 | both functions at one negative value |
| `QuoteMath.BoundIsSlippage` | internal/quicktrade/quote.go:421-428 | the computed bound is `bps` ten-thousandths of the touch away from it |
| `QuoteMath.LimitIsMostPermissive` | internal/quicktrade/quote.go:421-428 | an accepted limit is a tick multiple at or beyond the touch with 10000 times its distance at most bps times the touch, and no other such tick is more permissive |
| `QuoteMath.QuantityIsBudgetMaximal` | internal/quicktrade/quote.go:430-450 | the quantity is the largest step multiple whose debit bound fits the budget: one more step exceeds it |
| `QuoteMath.PlanOrderExact` | internal/quicktrade/quote.go:174-204 | a quote is refused for price protection exactly when no tick multiple meets those inequalities; an accepted order is the largest affordable one within every venue rule; "too small" means none is affordable |
| `QuoteMath.BudgetMaximalIsChosen` | internal/quicktrade/quote.go:430-450 | exactly one quantity is budget-maximal, and it is the one chosen |
| `QuoteMath.PlanOrderVerdict` | internal/quicktrade/quote.go:174-204 | with an acceptable limit, acceptance and each refusal as an if-and-only-if on the budget-maximal quantity: minimums, maximum, notional and balance |
| `BookWalk.ParseLevels` | internal/quicktrade/quote.go:405-419 | accepts exactly all-positive level lists |
| `BookWalk.CheckOrder` | internal/quicktrade/quote.go:391-401 | the neighbour loop decides whether the whole side is in executable price order |
| `BookWalk.ParseBook` | internal/quicktrade/quote.go:377-403 | accepts exactly fresh, positive, non-empty, uncrossed books in executable order |
| `BookWalk.ExecutableEstimate` | internal/quicktrade/quote.go:452-478 | the walk reports the total and the proceeds of the greedy placement |
| `BookWalk.WalkLevels` | internal/quicktrade/quote.go:452-478 | the loop accumulates exactly the greedy placement |
| `BookWalk.FillIsDepthWithinLimit` | internal/quicktrade/quote.go:452-478 | on an accepted book the fill is min(requested, depth of all levels within the limit) |
| `BookWalk.SellWalkIsOptimal` | internal/quicktrade/quote.go:452-478 | no placement of that quantity on the bids earns more than the walk |
| `BookWalk.SellProceedsBounded` | internal/quicktrade/quote.go:452-478 | sell proceeds lie between filled×limit and filled×best bid |
| `Reconcile.Accumulate` | internal/tradereconcile/service.go:171-196 | the fill loop computes total quantity, total value and per-asset fee and rebate totals, or the error of an invalid fill |
| `Reconcile.SortKeys` | internal/tradereconcile/service.go:206-215 | the fee keys come out sorted, each once |
| `Ordering.LessTextIs` | internal/tradereconcile/service.go:210-215 | texts are ordered by the first place where they differ, a text before its extensions |
| `Reconcile.SummarizeFills` | internal/tradereconcile/service.go:163-223 | succeeds exactly on a positive request and valid fills, and reports their totals, status and sorted fees |
| `Reconcile.ApplyAssets` | internal/tradereconcile/service.go:225-264 | the fee loop applies each fee to the source debit or the net receipt |
| `Reconcile.ApplyFeesClosed` | internal/tradereconcile/service.go:236-263 | in closed form: source plus fees less rebates; destination less fees, not below zero, plus rebates |
| `DebitBound.ReconciledAmounts` | internal/tradereconcile/service.go:163-264 | the reported amounts in terms of the fills alone |
| `DebitBound.DebitWithinBound` | internal/quicktrade/quote.go:441-450 | fills within the limit, the quantity and the fee rate cost at most the quoted debit bound, on both sides and for every charge asset |
| `DebitBound.BoundIsAttained` | internal/quicktrade/quote.go:441-450 | a fill of the whole quantity at the limit and the full rate costs exactly the bound |
| `DebitBound.DebitWithinBudget` | internal/quicktrade/quote.go:174-204 | so for an accepted order the reconciled debit is at most the bound, which is at most the budget and the balance |
| `DebitBound.ReconcileFills` | internal/tradereconcile/service.go:163-264 | summary and fee application together report those amounts |
| `IntentStore.RequestKeysExactly` | internal/intent/quicktrade.go:405-407 | keys agree exactly when the trimmed parts do, or one trimmed identity runs on past a NUL into the start of the other request |
| `IntentStore.RequestKeysDistinguish` | internal/intent/quicktrade.go:405-407 | so identities without NUL, as the environment supplies them, keep requests apart |
| `IntentStore.RequestKeysCollide` | internal/intent/quicktrade.go:405-407 | at the store's own interface, a NUL in an identity lets two requests share a key |
| `Text.TrimExactly` | internal/intent/quicktrade.go:405-407 | trimming takes white space off both ends and leaves none there |
| `IntentStore.ApplyStatus` | internal/intent/quicktrade.go:437-456 | succeeds exactly along the transition graph or on the status already held |
| `IntentStore.CountTrades` | internal/intent/quicktrade.go:185-197 | the loop counts the session's, the last hour's and the active trades |
| `IntentStore.Store.ConfirmQuickTrade` | internal/intent/quicktrade.go:149-230 | the new snapshot and answer are those of the specification, every refusal included |
| `IntentStore.Store.MarkQuickTradeDispatching` | internal/intent/quicktrade.go:232-243 | marks once, only from Created |
| `IntentStore.Store.UpdateQuickTrade` | internal/intent/quicktrade.go:267-311 | one trade is replaced by its update, or nothing changes |
| `IntentTerms.TransitionTable` | internal/intent/quicktrade.go:458-472 | the transition graph, edge by edge |
| `IntentTerms.StatusClasses` | internal/intent/quicktrade.go:27-33 | active or terminal and never both; terminal is left only from Cancelled for Filled; Filled is within two steps of every active status |
| `IntentTerms.DetailsCopied` | internal/intent/quicktrade.go:409-413 | a non-empty text replaces the stored one, any other leaves it |
| `IntentTerms.UpdateWrites` | internal/intent/quicktrade.go:267-311 | what an accepted update writes field by field, the lifecycle event included, and what it leaves alone |
| `IntentTerms.UpdateRefused` | internal/intent/quicktrade.go:274-277 | an update is refused exactly when it asks for a status off the graph |
| `IntentTerms.ConfirmRefuses` | internal/intent/quicktrade.go:415-435 | blank parts, another identity's quote, a quote that is not executable and limits that are not positive are refused without effect |
| `IntentTerms.ConfirmVerdict` | internal/intent/quicktrade.go:178-206 | the answer to a valid unbound confirmation, check by check, with the counts as sets |
| `IntentTerms.CreationStores` | internal/intent/quicktrade.go:208-226 | a creation stores the confirmation's own data, field by field, under its ID, request key and quote |
| `IntentTerms.RunKeepsOwned` | internal/intent/quicktrade.go:425-430 | in every run every stored trade belongs to the identity of its quote, which was executable |
| `IntentRuns.StatusStep` | internal/intent/quicktrade.go:437-472 | a status change keeps the lifecycle a path that explains status, creation, submission and terminal times |
| `IntentRuns.QuotesOneToOne` | internal/intent/quicktrade.go:208-226 | quote IDs and trades correspond one to one |
| `IntentRuns.ConfirmCreatesExactly` | internal/intent/quicktrade.go:155-228 | a trade is created exactly when the confirmation is valid, nothing is bound to its request, quote or ID, the quote is live and no quota is spent; it is then new in the store and both indexes |
| `IntentRuns.ConfirmStep` | internal/intent/quicktrade.go:155-228 | consistency is kept, nothing bound is lost, the index-inconsistency errors cannot occur, and the answer is the stored trade of the named quote |
| `IntentRuns.DispatchStep` | internal/intent/quicktrade.go:232-243 | consistency is kept and a successful mark is in the store |
| `IntentRuns.AmendStep` | internal/intent/quicktrade.go:267-311 | consistency is kept by every update |
| `IntentRuns.RunKeepsConsistent` | internal/intent/quicktrade.go:149-311 | over every run: indexes point at stored trades, quotes and trades correspond, lifecycles are paths ending at the status, TerminalAt is set exactly in terminal states; and bindings, terms, lifecycles and marks are never taken back |
| `IntentRuns.RequestAnswersForever` | internal/intent/quicktrade.go:157-168 | after any further operations a bound request key answers with the same trade, or a conflict for another quote, and changes nothing |
| `IntentRuns.InsertKeepsQuotas` | internal/intent/quicktrade.go:185-206 | a creation that passes the counts keeps every one-hour window within the limit |
| `IntentRuns.RunKeepsQuotas` | internal/intent/quicktrade.go:185-226 | for arbitrary clock readings no closed one-hour window, session or active set ever exceeds its limit |
| `IntentRuns.FreshStoreRuns` | internal/intent/quicktrade.go:149-311 | all of this from an empty store |
| `ConfirmProtocol.ClientOrderId` | internal/quicktrade/application.go:239-245 | the intent ID without its trade_ prefix, under vw-, whole or cut to 36 characters |
| `ConfirmProtocol.ClientOrderIdsDistinguish` | internal/quicktrade/application.go:239-245 | intent IDs whose stems fit share a client order ID exactly when the stems agree |
| `ConfirmProtocol.CallSafe` | internal/quicktrade/application.go:141-219 | each step of a confirmation takes the right to send only by creating a trade, gives it up by sending, and sends only when marked |
| `ConfirmProtocol.RecheckSafe` | internal/tradereconcile/service.go:65-139 | each step of a recheck keeps consistency and takes nothing back, whatever happened since its read |
| `ConfirmProtocol.RunSafe` | internal/quicktrade/application.go:141-219 | the invariant holds in every reachable world |
| `ConfirmProtocol.AtMostOneSubmit` | internal/quicktrade/application.go:141-219 | over every interleaving, fault, crash and restart, each quote ID causes at most one Submit |
| `ConfirmProtocol.MarkedBeforeAndEver` | internal/quicktrade/application.go:187-193 | SendAttempted is durable before each Submit and at every later point |
| `ConfirmProtocol.AnswersAgree` | internal/quicktrade/application.go:149-186 | all confirmations of a quote that return a trade return the same one |
| `ConfirmRecords.BeginRefuses` | internal/quicktrade/application.go:143-148 | exactly which requests are refused at once |
| `ConfirmRecords.LookupsAnswer` | internal/quicktrade/application.go:149-161 | what the two index reads answer |
| `ConfirmRecords.PricingConfirms` | internal/quicktrade/application.go:163-182 | a call goes on exactly with a quote of the asked ID and the asking identity, and confirms it under the request's own data |
| `ConfirmRecords.ReplyRecorded` | internal/quicktrade/application.go:193-218 | from a call about to send, through its recording on any later store with the trade pending: a rejection is stored as Rejected, an unclear reply as Unknown, active and not ended, a taken order as Accepted or Submitted with the venue's order ID; and the stored trade is returned |
| `ConfirmRecords.UnclearIsNeverRejected` | internal/quicktrade/application.go:200-218 | no run in which the venue rejects nothing and no recheck writes leaves a trade Rejected or otherwise ended |
| `ConfirmRecords.EvidenceRecorded` | internal/tradereconcile/service.go:103-139 | what a recheck with evidence writes, and when balances are synchronised next |
| `ConfirmRecords.NotSubmittedRecorded` | internal/tradereconcile/service.go:84-89 | what a recheck of an unmarked trade writes |
| `ConfirmUnsent.NeverSentExactly` | internal/tradereconcile/service.go:84-89 | in every reachable world, a trade that has left Created is never sent whatever happens next if and only if it has not been sent and no live call is about to send it |
| `ConfirmUnsent.RunFresh` | internal/quicktrade/application.go:183-191 | in every reachable world a call that is yet to mark its trade has it unmarked |
| `ConfirmUnsent.UnmarkedIsNeverSent` | internal/tradereconcile/service.go:84-89 | the durable case: a trade that left Created unmarked was never sent and never will be |
| `ConfirmUnsent.LabelledNotSubmittedThoughSent` | internal/tradereconcile/service.go:68-89 | a run in which a recheck's stale read puts the not-submitted label on a sent trade |
| `DecimalText.ParseOfFormat` | internal/orderstate/service.go:334-351 | printing a decimal and parsing it are inverse, places included |
| `DecimalText.AddSwap` | internal/orderstate/service.go:334-351 | quantities add up to the same number with the same places in either sequence |
| `DecimalText.AddKeepsAtLeast` | internal/orderstate/service.go:353-360 | a further fill never takes the total back below the ordered quantity |
| `DecimalText.ParseDenotes` | internal/orderstate/service.go:338-345 | reads exactly digits with at most one point, as the number whose digits count ten times and a tenth of their neighbours, with its places |
| `DecimalText.SumDenotes` | internal/orderstate/service.go:334-351 | the sum of two texts denotes the sum of their numbers, with the places of the longer |
| `DecimalText.ReachesExactly` | internal/orderstate/service.go:353-360 | the comparison holds exactly when both texts denote numbers and the left one is at least the right one |
| `DecimalText.FormatCanonical` | internal/orderstate/service.go:350-350 | printed text has no needless zero in front |
| `OrderState.Service.FindOrder` | internal/orderstate/service.go:192-205 | returns a matching order if there is one, and none otherwise |
| `OrderState.Service.ApplyOrder` | internal/orderstate/service.go:101-128 | the new orders are those of the specification for what the search found, renaming and errors included |
| `OrderState.Service.UpsertREST` | internal/orderstate/service.go:86-99 | the same for the update that a REST reply is turned into |
| `OrderState.Service.ApplyExecution` | internal/orderstate/service.go:130-168 | the same for executions; a failure changes nothing |
| `OrderKeys.StorageKeysDistinguish` | internal/orderstate/service.go:232-253 | outside the default account keys agree exactly when venue, environment, alias, namespace and identifier do, whatever delimiters they contain |
| `OrderKeys.JoinedDistinguish` | internal/domain/identity.go:81-87 | joined keys agree exactly when the trimmed parts do |
| `OrderKeys.DefaultKeys` | internal/orderstate/service.go:215-226 | in the default account the key is the identifier |
| `OrderKeys.NamespacesAre` | internal/orderstate/service.go:232-253 | which namespace each key is in |
| `OrderExecutions.ExecutionAdds` | internal/orderstate/service.go:141-165 | one new execution in numbers: the cumulative quantity grows by its quantity, and the status is Filled exactly when the sum reaches the ordered quantity |
| `OrderExecutions.SearchSettled` | internal/orderstate/service.go:192-205 | a unique match stays the unique match while executions are applied to it |
| `OrderExecutions.DeliverIsExecuteAll` | internal/orderstate/service.go:137-144 | reports that match one order only are all applied to it, whatever the searches return |
| `OrderExecutions.TotalInsert` | internal/orderstate/service.go:145-149 | the total over a set of executions does not depend on which is taken first |
| `OrderExecutions.TotalCongruent` | internal/orderstate/service.go:145-149 | only the quantities under the execution keys matter |
| `OrderExecutions.BatchReflected` | internal/orderstate/service.go:130-168 | a batch of plain executions is accepted whole; the order holds the starting quantity plus each new execution once, and the status that total calls for |
| `OrderExecutions.DeliverySums` | internal/orderstate/service.go:130-168 | a whole delivery in numbers: the starting amount plus the amount of each newly recorded execution once, and the status that sum calls for |
| `OrderExecutions.DeliveryOrderIrrelevant` | internal/orderstate/service.go:130-168 | two deliveries that report the same execution keys, in any sequence, number and receive times, and agree on the quantity under each key, leave records under the same keys, the same cumulative text and status, and touch no other order |
| `OrderExecutions.RedeliveryKeepsRecords` | internal/orderstate/service.go:130-168 | if reports under one key differ in nothing but receive time, so do the records |
| `OrderExecutions.RepeatAtAnotherTime` | internal/orderstate/service.go:137-140 | a report repeated at another receive time is such a delivery |
| `OrderRuns.TransitionRaisesRank` | internal/orderstate/service.go:23-53 | every transition raises a rank, so the status graph has no cycle |
| `OrderRuns.TransitionTable` | internal/orderstate/service.go:23-53 | the status graph, edge by edge |
| `OrderRuns.UpdateStores` | internal/orderstate/service.go:276-332 | an accepted update stores its own non-empty fields, the rest as before, field by field; a refused one leaves the graph or has no identifier |
| `OrderRuns.SearchFinds` | internal/orderstate/service.go:192-205 | with coherent identities a search finds nothing but the order's own record |
| `OrderRuns.OrderStep` | internal/orderstate/service.go:101-128 | an order update, renaming included, loses no record and lowers no status |
| `OrderRuns.ExecutionStep` | internal/orderstate/service.go:130-168 | nor does an execution |
| `OrderRuns.RunAdvances` | internal/orderstate/service.go:78-168 | no run of order updates, REST replies and executions loses a record or lowers its rank |
| `OrderRuns.FreshServiceAdvances` | internal/orderstate/service.go:78-168 | for a service that starts empty, from any point of a run to its end |
| `OrderRuns.UpdateLowersExactly` | internal/orderstate/service.go:101-128 | for any stored orders and identifiers, an accepted update lowers a status exactly when it takes the key of an order it did not find and that is further on |
| `OrderRuns.MixedNamingRegresses` | internal/orderstate/service.go:121-126 | three updates under mixed identifiers that do so |
| `OrderRuns.LateRestKeepsFound` | internal/orderstate/service.go:84-99 | whatever the identifiers, a late REST reply keeps the progress of an order that both searches find |
| `OrderRuns.LateRestHarmless` | internal/orderstate/service.go:84-99 | a REST reply for an order past PendingSubmit is accepted, keeps status, raw status, cumulative fill, average price and update time, and touches no other order |
| `EventBroker.NextSound` | internal/runtimeevent/broker.go:29-93 | every step of the broker or a consumer keeps every live subscriber's stream sound |
| `EventBroker.NoSilentLoss` | internal/runtimeevent/broker.go:29-93 | in every history each live stream strictly increases, ends at the last event published, holds only events and markers, and covers every event since its cursor |
| `EventBroker.LossIsAnnounced` | internal/runtimeevent/broker.go:42-59 | an event since the cursor that is not in a live stream has an entry of type resync.required at its number or a higher one there |
| `EventBroker.UnannouncedIsComplete` | internal/runtimeevent/broker.go:68-93 | a live stream without an entry of that type is exactly the events since its cursor |
| `EventBroker.LosslessWithoutMarkers` | internal/runtimeevent/broker.go:68-93 | a stream without markers is exactly the events since its cursor |
| `EventBroker.Broker.Drain` | internal/runtimeevent/broker.go:47-53 | the drain loop ends, with the consumer receiving at any moment, and leaves an empty queue |
| `EventBroker.Broker.Offer` | internal/runtimeevent/broker.go:42-59 | the event is queued behind the whole stream, or, only if the queue was full, unreceived events give way to a marker; the marker is never lost |
| `EventBroker.Broker.PublishEvent` | internal/runtimeevent/broker.go:29-61 | every live subscriber gets its share; an event without a type is ignored |
| `EventBroker.Broker.SubscribeFrom` | internal/runtimeevent/broker.go:72-93 | registers under a new ID with the cursor at the last event published |
| `EventBroker.Broker.Cancel` | internal/runtimeevent/broker.go:85-91 | removes the subscriber and nothing else |
| `OrderBook.ApplyLevels` | internal/deribit/book.go:81-112 | applies the levels up to the first malformed one, and exactly what is malformed |
| `OrderBook.SideIsLastWord` | internal/deribit/book.go:81-112 | a side holds exactly the prices whose last level is new or change with a positive amount, with that amount |
| `OrderBook.FreshBookIsChain` | internal/deribit/book.go:38-79 | a book that is not stale is the last snapshot followed by an unbroken chain of changes with increasing IDs; everything else received since was a duplicate or for another instrument |
| `OrderBook.FreshBookPositive` | internal/deribit/book.go:38-112 | all its prices and amounts are positive |
| `OrderBook.StalenessExactly` | internal/deribit/book.go:38-79 | when exactly one update makes a book fresh or stale; duplicates change nothing |
| `OrderBook.StaleUntilSnapshot` | internal/deribit/book.go:59-61 | a stale book stays stale until a well-formed snapshot |
| `OrderBook.LiveBook.ApplyUpdate` | internal/deribit/book.go:38-79 | the object's state and error are those of the specification |
| `OrderBook.ListSide` | internal/deribit/book.go:114-124 | each level listed once, in strict price order |
| `OrderBook.LiveBook.Levels` | internal/deribit/book.go:114-124 | bids descending, asks ascending, exactly the book's levels |
| `Valuation.CompleteIsExact` | internal/accountstate/valuation.go:112-171 | complete exactly when there are assets and all can be valued; then each line shows quantity times price and the total is the exact sum of the values shown |
| `Valuation.SettledIsExact` | internal/accountstate/valuation.go:101-182 | the same for any account a price batch or revaluation leaves behind; the unpriced list is exactly the assets that cannot be valued |
| `Valuation.ValuableExactly` | internal/accountstate/valuation.go:117-147 | exactly which assets can be valued |
| `Valuation.UnpricedExactly` | internal/accountstate/valuation.go:115-146 | the unpriced list names each other asset, as often and in the order it occurs |
| `Valuation.UpperExactly` | internal/accountstate/valuation.go:44-44 | upper-casing as the price keys use it |
| `Valuation.ValuedTwice` | internal/accountstate/valuation.go:101-182 | valuing again at the same instant changes nothing |
| `Valuation.LatestPriceKept` | internal/accountstate/valuation.go:61-67 | over all updates ever installed each asset mentioned keeps the price received latest, the last one among equals |
| `Valuation.NormalizeBatch` | internal/accountstate/valuation.go:42-58 | a batch in stored form, or nothing if any update is invalid |
| `Valuation.MarkAsset` | internal/accountstate/valuation.go:117-154 | the marked line, and the worth of an asset that can be valued |
| `Valuation.MarkAssets` | internal/accountstate/valuation.go:112-155 | the loop tallies lines, unpriced names, subtotal and the two flags |
| `Valuation.ApplyValuation` | internal/accountstate/valuation.go:101-182 | the account's valuation, and whether anything shown changed |
| `Valuation.SettledUnchanged` | internal/accountstate/valuation.go:86-99 | accounts already valued give a revaluation nothing to change |
| `Valuation.Manager.Revalue` | internal/accountstate/valuation.go:76-99 | exactly the changed accounts get new, different revisions and are listed in order; a repeat at the same instant bumps none |
| `Valuation.Manager.UpdateUSDPrices` | internal/accountstate/valuation.go:35-72 | a batch is installed whole or not at all, and every account is revalued |

## Left out

- HTTP, WebSocket, TLS, JSON decoding, file locking and renaming: foreign calls; each store update is one atomic step that may fail or lose its acknowledgement.
- HMAC, RSA, nonces, cookies, login limiting: cryptography and web security.
- Commands, configuration, the web front end, public data mapping, mock servers: plumbing.
- Timers, heartbeat scheduling, backoff and reconnection: the state invariants do not depend on them; a session is modelled within one Run.
- `QuoteCache`: its answers to a confirmation are arbitrary quotes under the asked ID and identity.
- Liveness of reconciliation: some venue outcomes have no legal transition, for example PendingSubmit to Cancelled.
- Overflow of body start plus declared BodyLength in the framer: integers are unbounded there.
- Decimal text of quotes, fills and valuations: amounts are exact numbers, so the rounding of the 18-place printer is not captured.
- The comparison of third-asset reserve texts: it compares raw strings.
- Upper-casing and query escaping outside one-byte characters, and byte counts of request IDs with longer encodings.
- DecimalText.ParseOfFormat: signed, fractional and exponent forms that `big.Rat` also reads count as malformed text in the order-state model.
- OrderRuns.RunAdvances: assumes that updates of an order always name its link, or always its native ID, and that no two orders share an identifier or storage key; without that it is false (`OrderRuns.MixedNamingRegresses`), and `OrderRuns.UpdateLowersExactly` says when.
- OrderRuns.LateRestHarmless: same assumption on identities; `OrderRuns.LateRestKeepsFound` does without it for an order that both searches find.
- RecordExecution: it stores an execution without touching the order.
- DebitBound.DebitWithinBound: exact arithmetic, before amounts are printed.
- EventBroker.Broker.PublishEvent: sequence numbers do not wrap at 64 bits.
