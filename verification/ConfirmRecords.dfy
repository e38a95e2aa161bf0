/** What a confirmation records and returns once the venue has answered, and what a recheck records. */
module ConfirmRecords {
  import opened Bytes
  import opened Text
  import opened IntentStore
  import opened IntentRuns
  import opened IntentTerms
  import opened ConfirmProtocol

  /** The text stored under a detail, empty if there is none. */
  function DetailOf(t: Trade, d: Detail): string { if d in t.details then t.details[d] else "" }

  // --------------------------------------------------------------------- before sending

  /** A request with a blank part or an overlong request ID is answered with an error at once. */
  lemma BeginRefuses(w: World, limits: Limits, call: nat, r: Request)
    requires call !in w.calls
    ensures var w' := Step(w, limits, Begin(call, r));
            && call in w'.calls && w'.store == w.store && w'.submissions == w.submissions
            && (w'.calls[call].phase == Done(None)
                <==> Trim(r.identity) == "" || Trim(r.session) == "" || Trim(r.quoteId) == "" || Trim(r.requestId) == "" || |r.requestId| > 128)
  {
  }

  /** A call goes on to confirm exactly when the cache has a quote under the asked ID for the asking identity, and then
      confirms that quote under the request's own identity, session and request ID. */
  lemma PricingConfirms(r: Request, a: Answer)
    ensures var p := AfterPricing(r, a);
            && (p.Persisting? || p == Done(None))
            && (p.Persisting? <==> a.quote.Some? && a.quote.value.id == r.quoteId && a.quote.value.identity == r.identity)
            && (p.Persisting? ==> var c := p.confirmation;
                                  && a.quote == Some(c.quote) && p.now == a.now && c.intentId == a.intentId && c.identity == r.identity
                                  && c.session == r.session && c.requestId == r.requestId && c.clientOrderId == ClientOrderId(a.intentId))
  {
  }

  /** A call that finds its request bound returns that trade, or an error if it is for another quote; one that finds
      its quote consumed returns that trade; otherwise it goes on. */
  lemma LookupsAnswer(s: Snapshot, r: Request)
    requires Indexed(s)
    ensures var key := Trim(r.identity) + ['\0'] + Trim(r.requestId);
            AfterRequestRead(s, r) == if key !in s.requests then ByQuote
                                      else if s.trades[s.requests[key]].quote.id != r.quoteId then Done(None)
                                      else Done(Some(Confirmed(s.trades[s.requests[key]], false)))
    ensures AfterQuoteRead(s, r) == if r.quoteId !in s.quotes then Pricing else Done(Some(Confirmed(s.trades[s.quotes[r.quoteId]], false)))
  {
    IndexesResolve(s, RequestKey(r.identity, r.requestId), r.quoteId);
  }

  // --------------------------------------------------------------------- one answer

  /** What the stored trade looks like after the venue's reply to a trade that was `before`. */
  ghost predicate Recorded(reply: Reply, before: Trade, after: Trade, now: int)
  {
    match reply
    case VenueRejects(message) =>
      && after.status == Rejected && after.terminalAt == Some(now) && DetailOf(after, ResultStatus) == "REJECTED"
      && after.publicError == if message == "" then "The venue rejected the order." else message
    case VenueUnclear =>
      && after.status == Unknown && Active(after.status) && after.terminalAt == None
      && DetailOf(after, ResultStatus) == "OUTCOME_UNKNOWN" && after.publicError == "The exchange result could not be confirmed."
    case VenueTakes(venueOrderId, rawStatus, accepted) =>
      && after.status == (if accepted then Accepted else Submitted) && Active(after.status) && after.terminalAt == None
      && after.submittedAt == Some(if before.submittedAt.Some? then before.submittedAt.value else now)
      && DetailOf(after, VenueOrderId) == (if venueOrderId != "" then venueOrderId else DetailOf(before, VenueOrderId))
      && DetailOf(after, RawVenueStatus) == (if rawStatus != "" then rawStatus else DetailOf(before, RawVenueStatus))
      && after.publicError == before.publicError
  }

  lemma ReplyApplied(reply: Reply, t: Trade, now: int)
    requires t.status == PendingSubmit && t.terminalAt == None
    ensures var r := UpdateTrade(t, ReplyUpdate(reply), now); r.Ok? && Recorded(reply, t, r.value, now)
  {
    match reply
    case VenueRejects(_) => RejectionApplied(reply, t, now);
    case VenueUnclear => UnclearApplied(t, now);
    case VenueTakes(_, _, _) => TakingApplied(reply, t, now);
  }

  lemma RejectionApplied(reply: Reply, t: Trade, now: int)
    requires t.status == PendingSubmit && reply.VenueRejects?
    ensures var r := UpdateTrade(t, ReplyUpdate(reply), now); r.Ok? && Recorded(reply, t, r.value, now)
  {
  }

  lemma UnclearApplied(t: Trade, now: int)
    requires t.status == PendingSubmit && t.terminalAt == None
    ensures var r := UpdateTrade(t, ReplyUpdate(VenueUnclear), now); r.Ok? && Recorded(VenueUnclear, t, r.value, now)
  {
  }

  lemma TakingApplied(reply: Reply, t: Trade, now: int)
    requires t.status == PendingSubmit && t.terminalAt == None && reply.VenueTakes?
    ensures var r := UpdateTrade(t, ReplyUpdate(reply), now); r.Ok? && Recorded(reply, t, r.value, now)
  {
  }

  /** From a call about to send: its next step makes the venue call, and when it then records the reply without a fault,
      on whatever store there is by then with the trade still pending, the stored trade shows the reply, nothing else
      has changed, and the call returns the stored trade. */
  lemma ReplyRecorded(s: Snapshot, limits: Limits, c: Call, sending: Answer, later: Snapshot, recording: Answer)
    requires c.phase.Sending? && recording.fault.NoFault?
    requires Consistent(later) && c.phase.trade.id in later.trades && later.trades[c.phase.trade.id].status == PendingSubmit
    ensures var id := c.phase.trade.id;
            var (_, phase, sent) := StepCall(s, limits, c, sending);
            var (after, done, more) := StepCall(later, limits, c.(phase := phase), recording);
            && |sent| == 1 && sent[0].id == id && more == []
            && id in after.trades && Recorded(sending.reply, later.trades[id], after.trades[id], recording.now)
            && after == later.(trades := later.trades[id := after.trades[id]])
            && done == Done(Some(Confirmed(after.trades[id], true)))
  {
    assert WellFormed(later.trades[c.phase.trade.id]);
    ReplyStored(later, c.phase.trade.id, sending.reply, recording.now);
    RecordingReturns(s, limits, c, sending, later, recording);
  }

  lemma ReplyStored(s: Snapshot, id: string, reply: Reply, now: int)
    requires id in s.trades && s.trades[id].status == PendingSubmit && s.trades[id].terminalAt == None
    ensures var (s', r) := Amend(s, id, ReplyUpdate(reply), now);
            && id in s'.trades && r == Ok(s'.trades[id]) && Recorded(reply, s.trades[id], s'.trades[id], now)
            && s' == s.(trades := s.trades[id := s'.trades[id]])
  {
    ReplyApplied(reply, s.trades[id], now);
  }

  /** The two steps, in terms of the store operation that the second one performs. */
  lemma RecordingReturns(s: Snapshot, limits: Limits, c: Call, sending: Answer, later: Snapshot, recording: Answer)
    requires c.phase.Sending? && recording.fault.NoFault? && Amend(later, c.phase.trade.id, ReplyUpdate(sending.reply), recording.now).1.Ok?
    ensures var id := c.phase.trade.id;
            var (_, phase, sent) := StepCall(s, limits, c, sending);
            var (stored, r) := Amend(later, id, ReplyUpdate(sending.reply), recording.now);
            && |sent| == 1 && sent[0].id == id
            && StepCall(later, limits, c.(phase := phase), recording) == (stored, Done(Some(Confirmed(r.value, true))), [])
  {
  }

  // --------------------------------------------------------------------- one recheck

  /** What the stored trade looks like after a recheck that had seen it as `seen` brings evidence `e`. */
  ghost predicate Rechecked(seen: Trade, e: Evidence, before: Trade, after: Trade, now: int)
  {
    && after.status == (if e.status.Some? && e.status.value != seen.status then e.status.value else before.status)
    && (forall d :: d in e.details && e.details[d] != "" && d != BalanceSyncStatus ==> DetailOf(after, d) == e.details[d])
    && (e.status.Some? && e.status.value in {Filled, Cancelled, Rejected} ==> DetailOf(after, BalanceSyncStatus) == "PENDING")
    && after.fees == (match e.fees case Some(fees) => fees case None => before.fees)
    && after.lastCheckedAt == Some(now)
    && after.publicError == (if e.definitive then "" else if e.status == Some(Unknown) then "The venue outcome is not yet conclusive. Recheck later."
                             else before.publicError)
  }

  /** A recheck with evidence writes it to the trade as stored by then, unless that would leave the graph; a terminal
      outcome has the balances synchronised next. */
  lemma EvidenceRecorded(s: Snapshot, id: string, seen: Trade, a: Answer, e: Evidence)
    requires id in s.trades && a.evidence == Some(e) && a.fault.NoFault? && !(seen.status == Created && !seen.sendAttempted)
    ensures var (s', next) := StepRecheck(s, Judging(id, seen), a);
            var t := s.trades[id];
            if e.status.Some? && e.status.value != seen.status && e.status.value != t.status && !ValidTransition(t.status, e.status.value)
            then s' == s && next == None
            else && id in s'.trades && Rechecked(seen, e, t, s'.trades[id], a.now) && s' == s.(trades := s.trades[id := s'.trades[id]])
                 && next == if e.status.Some? && e.status.value in {Filled, Cancelled, Rejected} then Some(Syncing(id)) else None
  {
    var u, t := EvidenceUpdate(seen, e), s.trades[id];
    UpdateRefused(t, u, a.now);
    if UpdateTrade(t, u, a.now).Ok? {
      UpdateWrites(t, u, a.now);
      EvidenceWrites(seen, e, t, UpdateTrade(t, u, a.now).value, a.now);
    }
    JudgingAmends(s, id, seen, a, e, UpdateTrade(t, u, a.now));
  }

  lemma JudgingAmends(s: Snapshot, id: string, seen: Trade, a: Answer, e: Evidence, r: Result<Trade, Refusal>)
    requires id in s.trades && a.evidence == Some(e) && a.fault.NoFault? && !(seen.status == Created && !seen.sendAttempted)
    requires r == UpdateTrade(s.trades[id], EvidenceUpdate(seen, e), a.now)
    ensures StepRecheck(s, Judging(id, seen), a)
         == if r.Err? then (s, None)
            else (s.(trades := s.trades[id := r.value]), if e.status.Some? && Terminal(e.status.value) then Some(Syncing(id)) else None)
  {
  }

  lemma EvidenceWrites(seen: Trade, e: Evidence, t: Trade, t': Trade, now: int)
    requires Writes(t, EvidenceUpdate(seen, e), now, t')
    ensures Rechecked(seen, e, t, t', now)
  {
    EvidenceDetails(seen, e, t, t', now);
  }

  lemma EvidenceDetails(seen: Trade, e: Evidence, t: Trade, t': Trade, now: int)
    requires Writes(t, EvidenceUpdate(seen, e), now, t')
    ensures forall d :: d in e.details && e.details[d] != "" && d != BalanceSyncStatus ==> DetailOf(t', d) == e.details[d]
    ensures e.status.Some? && e.status.value in {Filled, Cancelled, Rejected} ==> DetailOf(t', BalanceSyncStatus) == "PENDING"
  {
    var u := EvidenceUpdate(seen, e);
    forall d | d in e.details && e.details[d] != "" && d != BalanceSyncStatus ensures DetailOf(t', d) == e.details[d] {
      EvidenceDetail(seen, e, d);
      DetailWritten(t, u, now, t', d);
    }
    if e.status.Some? && e.status.value in {Filled, Cancelled, Rejected} { DetailWritten(t, u, now, t', BalanceSyncStatus); }
  }

  lemma EvidenceDetail(seen: Trade, e: Evidence, d: Detail)
    requires d in e.details && d != BalanceSyncStatus
    ensures d in EvidenceUpdate(seen, e).details && EvidenceUpdate(seen, e).details[d] == e.details[d]
  {
  }

  lemma DetailWritten(t: Trade, u: Update, now: int, t': Trade, d: Detail)
    requires Writes(t, u, now, t') && d in u.details && u.details[d] != ""
    ensures DetailOf(t', d) == u.details[d]
  {
  }

  /** A recheck that saw the trade created and unmarked rejects it, if it still can be, under the not-submitted label. */
  lemma NotSubmittedRecorded(s: Snapshot, id: string, seen: Trade, a: Answer)
    requires id in s.trades && seen.status == Created && !seen.sendAttempted && a.fault.NoFault?
    ensures var (s', next) := StepRecheck(s, Judging(id, seen), a);
            var t := s.trades[id];
            && next == None
            && (if t.status != Rejected && !ValidTransition(t.status, Rejected) then s' == s
                else && id in s'.trades && s'.trades[id].status == Rejected && s'.trades[id].publicError == ""
                     && DetailOf(s'.trades[id], ResultStatus) == "NOT_SUBMITTED_AFTER_RESTART" && s'.trades[id].lastCheckedAt == Some(a.now)
                     && s' == s.(trades := s.trades[id := s'.trades[id]]))
  {
    UpdateRefused(s.trades[id], NotSubmitted(), a.now);
    if UpdateTrade(s.trades[id], NotSubmitted(), a.now).Ok? { UpdateWrites(s.trades[id], NotSubmitted(), a.now); }
  }

  // ------------------------------------------------------------------------ whole runs

  /** An action that brings no rejection: the venue rejects nothing, and no write of a recheck takes effect. */
  predicate Calm(action: Action)
  {
    match action
    case Advance(_, a) => !a.reply.VenueRejects?
    case AdvanceRecheck(_, a) => a.fault == NotApplied
    case _ => true
  }

  /** Statuses that a trade has until the venue or a recheck ends it. */
  predicate Open(s: TradeStatus) { s in {Created, PendingSubmit, Submitted, Accepted, Unknown} }

  ghost predicate AllOpen(s: Snapshot) { forall id :: id in s.trades ==> Open(s.trades[id].status) }

  predicate Opening(phase: Phase) { phase.Recording? ==> phase.update.status.Some? && Open(phase.update.status.value) }

  /** No call is about to end a trade. */
  ghost predicate AllOpening(calls: map<nat, Call>) { forall c :: c in calls ==> Opening(calls[c].phase) }

  lemma AmendKeepsOpen(s: Snapshot, id: string, u: Update, now: int)
    requires AllOpen(s) && u.status.Some? && Open(u.status.value)
    ensures AllOpen(Amend(s, id, u, now).0)
  {
  }

  lemma ConfirmKeepsOpen(s: Snapshot, c: Confirmation, limits: Limits, now: int)
    requires AllOpen(s)
    ensures AllOpen(Confirm(s, c, limits, now).0)
  {
  }

  lemma DispatchKeepsOpen(s: Snapshot, id: string, now: int)
    requires AllOpen(s)
    ensures AllOpen(Dispatch(s, id, now).0)
  {
  }

  lemma CallKeepsOpen(s: Snapshot, limits: Limits, c: Call, a: Answer)
    requires AllOpen(s) && !a.reply.VenueRejects? && Opening(c.phase)
    ensures var (s', phase, _) := StepCall(s, limits, c, a); AllOpen(s') && Opening(phase)
  {
    match c.phase
    case Persisting(confirmation, now) => ConfirmKeepsOpen(s, confirmation, limits, now);
    case Marking(id) => DispatchKeepsOpen(s, id, a.now);
    case Recording(id, u) => AmendKeepsOpen(s, id, u, a.now);
    case _ =>
  }

  lemma RecheckIdle(s: Snapshot, r: Recheck, a: Answer)
    requires a.fault == NotApplied
    ensures StepRecheck(s, r, a).0 == s
  {
  }

  lemma StepKeepsOpen(w: World, limits: Limits, action: Action)
    requires Calm(action) && AllOpen(w.store) && AllOpening(w.calls)
    ensures AllOpen(Step(w, limits, action).store) && AllOpening(Step(w, limits, action).calls)
  {
    match action
    case Advance(call, a) => if call in w.calls { CallKeepsOpen(w.store, limits, w.calls[call], a); }
    case AdvanceRecheck(recheck, a) => if recheck in w.rechecks { RecheckIdle(w.store, w.rechecks[recheck], a); }
    case _ =>
  }

  /** In a run in which the venue rejects nothing and no recheck writes, no trade is ever Rejected or otherwise ended: what
      was sent and not answered clearly stays open, active and so counted and rechecked. */
  lemma {:induction false} UnclearIsNeverRejected(limits: Limits, actions: seq<Action>)
    requires forall i :: 0 <= i < |actions| ==> Calm(actions[i])
    ensures var w := RunAll(FreshWorld(), limits, actions);
            && AllOpen(w.store) && AllOpening(w.calls)
            && forall id :: id in w.store.trades ==> w.store.trades[id].status != Rejected && Active(w.store.trades[id].status)
  {
    if actions != [] {
      var init := actions[..|actions| - 1];
      UnclearIsNeverRejected(limits, init);
      StepKeepsOpen(RunAll(FreshWorld(), limits, init), limits, actions[|actions| - 1]);
    }
  }
}
