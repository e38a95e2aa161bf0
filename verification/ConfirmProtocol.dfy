/** Concurrent confirmations, rechecks, store faults, crashes and restarts over one intent store, as a state machine
    whose steps are the atomic store operations and the venue call. */
module ConfirmProtocol {
  import opened Bytes
  import opened Text
  import opened IntentStore
  import opened IntentRuns

  // ---------------------------------------------------------------------- entities

  datatype Request = Request(identity: string, session: string, quoteId: string, requestId: string)

  /** How far one `Application.Confirm` call has come. */
  datatype Phase =
    | ByRequest                                  // about to read the request index
    | ByQuote                                    // about to read the quote index
    | Pricing                                    // about to fetch and validate the cached quote
    | Persisting(confirmation: Confirmation, now: int)
    | Marking(id: string)                        // created the trade, about to mark it
    | Sending(trade: Trade)                      // marked, about to call the venue
    | Recording(id: string, update: Update)      // the venue has answered
    | Done(answer: Option<Confirmed>)            // `None` is an error return

  datatype Call = Call(request: Request, phase: Phase)

  /** How far one `RecheckTrade` call has come: its read and its writes are separate store operations. */
  datatype Recheck = Reading(id: string) | Judging(id: string, seen: Trade) | Syncing(id: string)

  /** What the venue evidence of a recheck amounts to. */
  datatype Evidence = Evidence(status: Option<TradeStatus>, details: map<Detail, string>, fees: Option<seq<FeeLine>>, definitive: bool)

  datatype Reply = VenueRejects(message: string) | VenueUnclear | VenueTakes(venueOrderId: string, rawStatus: string, accepted: bool)

  /** A store operation can fail without effect, or take effect with its success never reported. */
  datatype Fault = NoFault | NotApplied | AckLost

  /** What the surroundings answer during one step: the clock, the quote cache and validation (`None` for a miss or a
      refusal), a generated intent ID, the venue, and the file system. */
  datatype Answer = Answer(now: int, quote: Option<Quote>, intentId: string, reply: Reply, evidence: Option<Evidence>, balance: string, fault: Fault)

  /** One call of `Submit`, with the durable dispatch mark at that moment. */
  datatype Submission = Submission(quoteId: string, id: string, marked: bool)

  datatype World = World(store: Snapshot, calls: map<nat, Call>, rechecks: map<nat, Recheck>, submissions: seq<Submission>)

  datatype Action =
    | Begin(call: nat, request: Request)
    | Advance(call: nat, answer: Answer)
    | BeginRecheck(recheck: nat, id: string)
    | AdvanceRecheck(recheck: nat, answer: Answer)
    | Crash(deadCalls: set<nat>, deadRechecks: set<nat>)   // one process, several or all of them

  // ------------------------------------------------------------------------- steps

  /** The intent ID without its `trade_` prefix, under the prefix `vw-`, cut to the 36 characters a venue takes. */
  function ClientOrderId(intentId: string): (id: string)
    ensures "vw-" <= id && id <= "vw-" + Stem(intentId)
    ensures |id| == 36 || (|id| < 36 && id == "vw-" + Stem(intentId))
  {
    var value := "vw-" + Stem(intentId);
    if |value| > 36 then value[..36] else value
  }

  function Stem(intentId: string): (stem: string)
    ensures intentId == stem || intentId == "trade_" + stem
    ensures "trade_" <= intentId ==> intentId == "trade_" + stem
  {
    if "trade_" <= intentId then intentId[6..] else intentId
  }

  /** Intent IDs whose stems fit, as the generated ones do, have different client order IDs unless their stems agree. */
  lemma ClientOrderIdsDistinguish(a: string, b: string)
    requires |Stem(a)| <= 33 && |Stem(b)| <= 33
    ensures ClientOrderId(a) == ClientOrderId(b) <==> Stem(a) == Stem(b)
  {
    assert ("vw-" + Stem(a))[3..] == Stem(a) && ("vw-" + Stem(b))[3..] == Stem(b);
  }

  /** A store operation under a fault: the new snapshot, and the value returned unless an error was. */
  function Faulty<T>(s: Snapshot, outcome: (Snapshot, Result<T, Refusal>), fault: Fault): (Snapshot, Option<T>)
  {
    match fault
    case NoFault => (outcome.0, if outcome.1.Ok? then Some(outcome.1.value) else None)
    case NotApplied => (s, None)
    case AckLost => (outcome.0, None)
  }

  function NoUpdate(): Update { Update(None, map[], None, "", false, "", "", false) }

  function ReplyUpdate(reply: Reply): Update
  {
    match reply
    case VenueRejects(message) =>
      NoUpdate().(status := Some(Rejected), details := map[ResultStatus := "REJECTED"],
                  publicError := if message == "" then "The venue rejected the order." else message)
    case VenueUnclear =>
      NoUpdate().(status := Some(Unknown), details := map[ResultStatus := "OUTCOME_UNKNOWN"],
                  publicError := "The exchange result could not be confirmed.")
    case VenueTakes(venueOrderId, rawStatus, accepted) =>
      NoUpdate().(status := Some(if accepted then Accepted else Submitted),
                  details := map[VenueOrderId := venueOrderId, RawVenueStatus := rawStatus])
  }

  function NotSubmitted(): Update
  {
    NoUpdate().(status := Some(Rejected), details := map[ResultStatus := "NOT_SUBMITTED_AFTER_RESTART"],
                lifecycleDetail := "The durable intent was recovered before any venue send attempt.",
                clearPublicError := true, checked := true)
  }

  function EvidenceUpdate(seen: Trade, e: Evidence): Update
  {
    var moves := e.status.Some? && e.status.value != seen.status;
    var unclear := e.status == Some(Unknown);
    var terminal := e.status.Some? && Terminal(e.status.value);
    Update(if moves then e.status else None,
           if terminal then e.details[BalanceSyncStatus := "PENDING"] else e.details,
           e.fees,
           if unclear then "The venue outcome is not yet conclusive. Recheck later." else "",
           e.definitive,
           if unclear then "Recheck did not find conclusive terminal venue evidence."
           else if moves then "Authoritative venue order and execution evidence was reconciled." else "",
           "", true)
  }

  predicate Refused(r: Request)
  {
    Blank(r.identity) || Blank(r.session) || Blank(r.quoteId) || Blank(r.requestId) || |r.requestId| > 128
  }

  /** A stored trade found through an index; a dangling entry is an error. */
  function Lookup(s: Snapshot, id: string): Option<Trade> { if id in s.trades then Some(s.trades[id]) else None }

  function AfterRequestRead(s: Snapshot, r: Request): Phase
  {
    var id := At(s.requests, RequestKey(r.identity, r.requestId));
    if id == "" then ByQuote
    else match Lookup(s, id)
      case None => Done(None)
      case Some(t) => if t.quote.id != r.quoteId then Done(None) else Done(Some(Confirmed(t, false)))
  }

  function AfterQuoteRead(s: Snapshot, r: Request): Phase
  {
    var id := At(s.quotes, r.quoteId);
    if id == "" then Pricing
    else match Lookup(s, id)
      case None => Done(None)
      case Some(t) => Done(Some(Confirmed(t, false)))
  }

  /** The cache answers only under the asked ID and for the asking identity. */
  function AfterPricing(r: Request, a: Answer): Phase
  {
    if a.quote.None? || a.quote.value.id != r.quoteId || a.quote.value.identity != r.identity then Done(None)
    else Persisting(Confirmation(a.intentId, r.identity, r.session, r.requestId, ClientOrderId(a.intentId), a.quote.value), a.now)
  }

  function AfterPersist(answer: Option<Confirmed>): Phase
  {
    if answer.None? || !answer.value.created then Done(answer) else Marking(answer.value.trade.id)
  }

  /** One step of one confirmation: the store, the next phase, and a venue call if this step makes one. */
  ghost function StepCall(s: Snapshot, limits: Limits, c: Call, a: Answer): (Snapshot, Phase, seq<Submission>)
  {
    match c.phase
    case ByRequest => (s, AfterRequestRead(s, c.request), [])
    case ByQuote => (s, AfterQuoteRead(s, c.request), [])
    case Pricing => (s, AfterPricing(c.request, a), [])
    case Persisting(confirmation, now) =>
      var (s', answer) := Faulty(s, Confirm(s, confirmation, limits, now), a.fault);
      (s', AfterPersist(answer), [])
    case Marking(id) =>
      var (s', marked) := Faulty(s, Dispatch(s, id, a.now), a.fault);
      (s', if marked.None? then Done(None) else Sending(marked.value), [])
    case Sending(t) =>
      (s, Recording(t.id, ReplyUpdate(a.reply)), [Submission(t.quote.id, t.id, t.id in s.trades && s.trades[t.id].sendAttempted)])
    case Recording(id, u) =>
      var (s', updated) := Faulty(s, Amend(s, id, u, a.now), a.fault);
      (s', Done(if updated.None? then None else Some(Confirmed(updated.value, true))), [])
    case Done(_) => (s, c.phase, [])
  }

  /** One step of one recheck; `None` when it has returned. */
  function StepRecheck(s: Snapshot, r: Recheck, a: Answer): (Snapshot, Option<Recheck>)
  {
    match r
    case Reading(id) => (s, if id in s.trades then Some(Judging(id, s.trades[id])) else None)
    case Judging(id, seen) =>
      if seen.status == Created && !seen.sendAttempted then (Faulty(s, Amend(s, id, NotSubmitted(), a.now), a.fault).0, None)
      else if a.evidence.None? then (s, None)
      else
        var e := a.evidence.value;
        var (s', updated) := Faulty(s, Amend(s, id, EvidenceUpdate(seen, e), a.now), a.fault);
        (s', if updated.Some? && e.status.Some? && Terminal(e.status.value) then Some(Syncing(id)) else None)
    case Syncing(id) =>
      (Faulty(s, Amend(s, id, NoUpdate().(details := map[BalanceSyncStatus := a.balance], checked := true), a.now), a.fault).0, None)
  }

  ghost function Step(w: World, limits: Limits, action: Action): World
  {
    match action
    case Begin(call, request) =>
      if call in w.calls then w
      else w.(calls := w.calls[call := Call(request, if Refused(request) then Done(None) else ByRequest)])
    case Advance(call, answer) =>
      if call !in w.calls then w
      else
        var (s, phase, sent) := StepCall(w.store, limits, w.calls[call], answer);
        World(s, w.calls[call := w.calls[call].(phase := phase)], w.rechecks, w.submissions + sent)
    case BeginRecheck(recheck, id) =>
      if recheck in w.rechecks then w else w.(rechecks := w.rechecks[recheck := Reading(id)])
    case AdvanceRecheck(recheck, answer) =>
      if recheck !in w.rechecks then w
      else
        var (s, next) := StepRecheck(w.store, w.rechecks[recheck], answer);
        w.(store := s, rechecks := if next.None? then w.rechecks - {recheck} else w.rechecks[recheck := next.value])
    case Crash(deadCalls, deadRechecks) =>
      w.(calls := w.calls - deadCalls, rechecks := w.rechecks - deadRechecks)
  }

  ghost function RunAll(w: World, limits: Limits, actions: seq<Action>): World
  {
    if actions == [] then w else Step(RunAll(w, limits, actions[..|actions| - 1]), limits, actions[|actions| - 1])
  }

  function FreshWorld(): World { World(Snapshot(map[], map[], map[]), map[], map[], []) }

  lemma RunAllAppend(w: World, limits: Limits, actions: seq<Action>, action: Action)
    ensures RunAll(w, limits, actions + [action]) == Step(RunAll(w, limits, actions), limits, action)
  {
    assert (actions + [action])[..|actions|] == actions;
  }

  // --------------------------------------------------------------------- invariant

  /** The right to send: held only between creating a trade and calling the venue for it. */
  predicate Holds(c: Call) { c.phase.Marking? || c.phase.Sending? }

  function Token(c: Call): string
    requires Holds(c)
  {
    if c.phase.Marking? then c.phase.id else c.phase.trade.id
  }

  /** The trade `id` is stored for quote `quoteId`. */
  predicate StoredFor(s: Snapshot, id: string, quoteId: string) { id in s.trades && s.trades[id].quote.id == quoteId }

  predicate Marked(s: Snapshot, id: string) { id in s.trades && s.trades[id].sendAttempted }

  predicate PhaseSafe(s: Snapshot, quoteId: string, phase: Phase)
  {
    match phase
    case Persisting(c, _) => c.quote.id == quoteId
    case Marking(id) => StoredFor(s, id, quoteId)
    case Sending(t) => StoredFor(s, t.id, quoteId) && t.quote.id == quoteId && Marked(s, t.id)
    case Recording(id, _) => StoredFor(s, id, quoteId)
    case Done(Some(answer)) => StoredFor(s, answer.trade.id, quoteId)
    case _ => true
  }

  ghost predicate CallsSafe(s: Snapshot, calls: map<nat, Call>)
  {
    forall c :: c in calls ==> PhaseSafe(s, calls[c].request.quoteId, calls[c].phase)
  }

  ghost predicate TokensDistinct(calls: map<nat, Call>)
  {
    forall a, b :: a in calls && b in calls && a != b && Holds(calls[a]) && Holds(calls[b]) ==> Token(calls[a]) != Token(calls[b])
  }

  ghost predicate TokensUnspent(calls: map<nat, Call>, sent: seq<Submission>)
  {
    forall c, i :: c in calls && 0 <= i < |sent| && Holds(calls[c]) ==> Token(calls[c]) != sent[i].id
  }

  ghost predicate SentSafe(s: Snapshot, sent: seq<Submission>)
  {
    && (forall i :: 0 <= i < |sent| ==> StoredFor(s, sent[i].id, sent[i].quoteId) && Marked(s, sent[i].id) && sent[i].marked)
    && (forall i, j :: 0 <= i < j < |sent| ==> sent[i].id != sent[j].id)
  }

  ghost predicate Safe(w: World)
  {
    && Consistent(w.store) && CallsSafe(w.store, w.calls)
    && TokensDistinct(w.calls) && TokensUnspent(w.calls, w.submissions) && SentSafe(w.store, w.submissions)
  }

  lemma StoredForGrows(s: Snapshot, s': Snapshot, id: string, quoteId: string)
    requires Grows(s, s')
    ensures StoredFor(s, id, quoteId) ==> StoredFor(s', id, quoteId)
    ensures Marked(s, id) ==> Marked(s', id)
  {
    if id in s.trades { assert Evolves(s.trades[id], s'.trades[id]); }
  }

  lemma PhaseSafeGrows(s: Snapshot, s': Snapshot, quoteId: string, phase: Phase)
    requires Grows(s, s') && PhaseSafe(s, quoteId, phase)
    ensures PhaseSafe(s', quoteId, phase)
  {
    match phase
    case Marking(id) => StoredForGrows(s, s', id, quoteId);
    case Sending(t) => StoredForGrows(s, s', t.id, quoteId);
    case Recording(id, _) => StoredForGrows(s, s', id, quoteId);
    case Done(Some(answer)) => StoredForGrows(s, s', answer.trade.id, quoteId);
    case _ =>
  }

  lemma StoreGrows(w: World, s': Snapshot)
    requires Safe(w) && Consistent(s') && Grows(w.store, s')
    ensures Safe(w.(store := s'))
  {
    forall c | c in w.calls ensures PhaseSafe(s', w.calls[c].request.quoteId, w.calls[c].phase) {
      PhaseSafeGrows(w.store, s', w.calls[c].request.quoteId, w.calls[c].phase);
    }
    forall i | 0 <= i < |w.submissions|
      ensures StoredFor(s', w.submissions[i].id, w.submissions[i].quoteId) && Marked(s', w.submissions[i].id)
    {
      StoredForGrows(w.store, s', w.submissions[i].id, w.submissions[i].quoteId);
    }
  }

  /** What one confirmation step gives: a token only by creation of a new trade or from the token already held,
      and a venue call only by giving the token up. */
  ghost predicate CallStepSafe(s: Snapshot, c: Call, s': Snapshot, phase: Phase, sent: seq<Submission>)
  {
    && Consistent(s') && Grows(s, s') && PhaseSafe(s', c.request.quoteId, phase)
    && (Holds(c.(phase := phase)) ==>
          || Token(c.(phase := phase)) !in s.trades
          || (Holds(c) && Token(c) == Token(c.(phase := phase))))
    && (sent == [] || (Holds(c) && !Holds(c.(phase := phase)) && s' == s
                       && sent == [Submission(c.request.quoteId, Token(c), true)] && Marked(s, Token(c))))
  }

  ghost predicate StepCallSafe(s: Snapshot, limits: Limits, c: Call, a: Answer)
  {
    var (s', phase, sent) := StepCall(s, limits, c, a); CallStepSafe(s, c, s', phase, sent)
  }

  lemma ReadSafe(s: Snapshot, limits: Limits, c: Call, a: Answer)
    requires Consistent(s) && (c.phase.ByRequest? || c.phase.ByQuote? || c.phase.Pricing? || c.phase.Done?) && PhaseSafe(s, c.request.quoteId, c.phase)
    ensures StepCallSafe(s, limits, c, a)
  {
    GrowsReflexive(s);
    IndexesResolve(s, RequestKey(c.request.identity, c.request.requestId), c.request.quoteId);
  }

  lemma FaultyGrows<T>(s: Snapshot, outcome: (Snapshot, Result<T, Refusal>), fault: Fault)
    requires Consistent(s) && Consistent(outcome.0) && Grows(s, outcome.0)
    ensures var (s', answer) := Faulty(s, outcome, fault);
            && Consistent(s') && Grows(s, s')
            && (answer.Some? ==> s' == outcome.0 && outcome.1 == Ok(answer.value))
  {
    GrowsReflexive(s);
  }

  lemma PersistSafe(s: Snapshot, limits: Limits, c: Call, a: Answer)
    requires Consistent(s) && c.phase.Persisting? && PhaseSafe(s, c.request.quoteId, c.phase)
    ensures StepCallSafe(s, limits, c, a)
  {
    var outcome := Confirm(s, c.phase.confirmation, limits, c.phase.now);
    ConfirmStep(s, c.phase.confirmation, limits, c.phase.now);
    FaultyGrows(s, outcome, a.fault);
  }

  /** The phase after a mark whose store outcome is `outcome`. */
  lemma MarkedPhaseSafe(s: Snapshot, c: Call, outcome: (Snapshot, Result<Trade, Refusal>), fault: Fault)
    requires Consistent(s) && c.phase.Marking? && StoredFor(s, c.phase.id, c.request.quoteId)
    requires Consistent(outcome.0) && Grows(s, outcome.0)
    requires var t := outcome.1; t.Ok? ==> c.phase.id in outcome.0.trades && outcome.0.trades[c.phase.id] == t.value && t.value.id == c.phase.id && t.value.sendAttempted
    ensures var (s', marked) := Faulty(s, outcome, fault);
            CallStepSafe(s, c, s', if marked.None? then Done(None) else Sending(marked.value), [])
  {
    StoredForGrows(s, outcome.0, c.phase.id, c.request.quoteId);
    FaultyGrows(s, outcome, fault);
  }

  lemma MarkSafe(s: Snapshot, limits: Limits, c: Call, a: Answer)
    requires Consistent(s) && c.phase.Marking? && PhaseSafe(s, c.request.quoteId, c.phase)
    ensures StepCallSafe(s, limits, c, a)
  {
    DispatchStep(s, c.phase.id, a.now);
    MarkedPhaseSafe(s, c, Dispatch(s, c.phase.id, a.now), a.fault);
  }

  lemma RecordedPhaseSafe(s: Snapshot, c: Call, outcome: (Snapshot, Result<Trade, Refusal>), fault: Fault)
    requires Consistent(s) && c.phase.Recording? && StoredFor(s, c.phase.id, c.request.quoteId)
    requires Consistent(outcome.0) && Grows(s, outcome.0) && (outcome.1.Ok? ==> outcome.1.value.id == c.phase.id)
    ensures var (s', updated) := Faulty(s, outcome, fault);
            CallStepSafe(s, c, s', Done(if updated.None? then None else Some(Confirmed(updated.value, true))), [])
  {
    StoredForGrows(s, outcome.0, c.phase.id, c.request.quoteId);
    FaultyGrows(s, outcome, fault);
  }

  lemma RecordSafe(s: Snapshot, limits: Limits, c: Call, a: Answer)
    requires Consistent(s) && c.phase.Recording? && PhaseSafe(s, c.request.quoteId, c.phase)
    ensures StepCallSafe(s, limits, c, a)
  {
    AmendStep(s, c.phase.id, c.phase.update, a.now);
    RecordedPhaseSafe(s, c, Amend(s, c.phase.id, c.phase.update, a.now), a.fault);
  }

  lemma SendSafe(s: Snapshot, limits: Limits, c: Call, a: Answer)
    requires Consistent(s) && c.phase.Sending? && PhaseSafe(s, c.request.quoteId, c.phase)
    ensures StepCallSafe(s, limits, c, a)
  {
    GrowsReflexive(s);
  }

  lemma CallSafe(s: Snapshot, limits: Limits, c: Call, a: Answer)
    requires Consistent(s) && PhaseSafe(s, c.request.quoteId, c.phase)
    ensures StepCallSafe(s, limits, c, a)
  {
    match c.phase
    case Persisting(_, _) => PersistSafe(s, limits, c, a);
    case Marking(_) => MarkSafe(s, limits, c, a);
    case Recording(_, _) => RecordSafe(s, limits, c, a);
    case Sending(_) => SendSafe(s, limits, c, a);
    case _ => ReadSafe(s, limits, c, a);
  }

  /** A consistent snapshot that has lost nothing of `s`. */
  ghost predicate Later(s: Snapshot, s': Snapshot) { Consistent(s') && Grows(s, s') }

  lemma AmendLater(s: Snapshot, id: string, u: Update, now: int, fault: Fault)
    requires Consistent(s)
    ensures Later(s, Faulty(s, Amend(s, id, u, now), fault).0)
  {
    AmendStep(s, id, u, now);
    FaultyGrows(s, Amend(s, id, u, now), fault);
  }

  lemma RecheckSafe(s: Snapshot, r: Recheck, a: Answer)
    requires Consistent(s)
    ensures Later(s, StepRecheck(s, r, a).0)
  {
    match r
    case Reading(_) => GrowsReflexive(s);
    case Judging(id, seen) =>
      if seen.status == Created && !seen.sendAttempted {
        AmendLater(s, id, NotSubmitted(), a.now, a.fault);
      } else if a.evidence.Some? {
        AmendLater(s, id, EvidenceUpdate(seen, a.evidence.value), a.now, a.fault);
      } else {
        GrowsReflexive(s);
      }
    case Syncing(id) =>
      AmendLater(s, id, NoUpdate().(details := map[BalanceSyncStatus := a.balance], checked := true), a.now, a.fault);
  }

  lemma HeldIsStored(w: World, c: nat)
    requires Safe(w) && c in w.calls && Holds(w.calls[c])
    ensures Token(w.calls[c]) in w.store.trades
  {
    assert PhaseSafe(w.store, w.calls[c].request.quoteId, w.calls[c].phase);
  }

  /** The tokens after a step that takes one only by creation, or keeps its own. */
  lemma TokensStayDistinct(w: World, call: nat, phase: Phase)
    requires Safe(w) && call in w.calls
    requires var c' := w.calls[call].(phase := phase);
             Holds(c') ==> Token(c') !in w.store.trades || (Holds(w.calls[call]) && Token(w.calls[call]) == Token(c'))
    ensures TokensDistinct(w.calls[call := w.calls[call].(phase := phase)])
    ensures TokensUnspent(w.calls[call := w.calls[call].(phase := phase)], w.submissions)
  {
    var calls := w.calls[call := w.calls[call].(phase := phase)];
    forall a, b | a in calls && b in calls && a != b && Holds(calls[a]) && Holds(calls[b])
      ensures Token(calls[a]) != Token(calls[b])
    {
      if a != call { HeldIsStored(w, a); }
      if b != call { HeldIsStored(w, b); }
    }
    forall c, i | c in calls && 0 <= i < |w.submissions| && Holds(calls[c])
      ensures Token(calls[c]) != w.submissions[i].id
    {
      assert StoredFor(w.store, w.submissions[i].id, w.submissions[i].quoteId);
    }
  }

  /** A venue call spends the token of the call that makes it. */
  lemma SpendSafe(w: World, call: nat, calls: map<nat, Call>, sub: Submission)
    requires Safe(w) && call in w.calls && Holds(w.calls[call])
    requires call in calls && !Holds(calls[call]) && calls == w.calls[call := calls[call]]
    requires sub == Submission(w.calls[call].request.quoteId, Token(w.calls[call]), true) && Marked(w.store, sub.id)
    requires TokensUnspent(calls, w.submissions)
    ensures TokensUnspent(calls, w.submissions + [sub]) && SentSafe(w.store, w.submissions + [sub])
  {
    var sent := w.submissions + [sub];
    assert PhaseSafe(w.store, w.calls[call].request.quoteId, w.calls[call].phase);
    forall c, i | c in calls && 0 <= i < |sent| && Holds(calls[c]) ensures Token(calls[c]) != sent[i].id {
      assert i == |w.submissions| ==> Holds(w.calls[c]) && c != call;
    }
  }

  lemma AdvanceSafe(w: World, call: nat, s': Snapshot, phase: Phase, sent: seq<Submission>)
    requires Safe(w) && call in w.calls && CallStepSafe(w.store, w.calls[call], s', phase, sent)
    ensures Safe(World(s', w.calls[call := w.calls[call].(phase := phase)], w.rechecks, w.submissions + sent))
  {
    TokensStayDistinct(w, call, phase);
    if sent == [] {
      StoreGrows(w, s');
      assert w.submissions + sent == w.submissions;
    } else {
      SpendSafe(w, call, w.calls[call := w.calls[call].(phase := phase)], sent[0]);
    }
  }

  lemma AdvanceStep(w: World, limits: Limits, call: nat, answer: Answer)
    requires Safe(w) && call in w.calls
    ensures var (s, phase, sent) := StepCall(w.store, limits, w.calls[call], answer);
            Safe(World(s, w.calls[call := w.calls[call].(phase := phase)], w.rechecks, w.submissions + sent))
  {
    assert PhaseSafe(w.store, w.calls[call].request.quoteId, w.calls[call].phase);
    CallSafe(w.store, limits, w.calls[call], answer);
    var (s, phase, sent) := StepCall(w.store, limits, w.calls[call], answer);
    AdvanceSafe(w, call, s, phase, sent);
  }

  lemma RecheckStep(w: World, recheck: nat, answer: Answer)
    requires Safe(w) && recheck in w.rechecks
    ensures Safe(w.(store := StepRecheck(w.store, w.rechecks[recheck], answer).0))
  {
    RecheckSafe(w.store, w.rechecks[recheck], answer);
    StoreGrows(w, StepRecheck(w.store, w.rechecks[recheck], answer).0);
  }

  lemma BeginSafe(w: World, call: nat, request: Request)
    requires Safe(w)
    ensures Safe(w.(calls := w.calls[call := Call(request, Done(None))]))
    ensures Safe(w.(calls := w.calls[call := Call(request, ByRequest)]))
  {
  }

  lemma CrashSafe(w: World, dead: set<nat>)
    requires Safe(w)
    ensures Safe(w.(calls := w.calls - dead))
  {
  }

  lemma StepSafe(w: World, limits: Limits, action: Action)
    requires Safe(w)
    ensures Safe(Step(w, limits, action))
    ensures w.submissions <= Step(w, limits, action).submissions
  {
    match action
    case Begin(call, request) => BeginSafe(w, call, request);
    case BeginRecheck(_, _) =>
    case Crash(deadCalls, _) => CrashSafe(w, deadCalls);
    case Advance(call, answer) => if call in w.calls { AdvanceStep(w, limits, call, answer); }
    case AdvanceRecheck(recheck, answer) => if recheck in w.rechecks { RecheckStep(w, recheck, answer); }
  }

  lemma {:induction false} RunSafe(limits: Limits, actions: seq<Action>)
    ensures Safe(RunAll(FreshWorld(), limits, actions))
  {
    if actions != [] {
      RunSafe(limits, actions[..|actions| - 1]);
      StepSafe(RunAll(FreshWorld(), limits, actions[..|actions| - 1]), limits, actions[|actions| - 1]);
    }
  }

  /** The log of venue calls is only ever appended to. */
  lemma {:induction false} LogGrows(limits: Limits, actions: seq<Action>, k: nat)
    requires k <= |actions|
    ensures RunAll(FreshWorld(), limits, actions[..k]).submissions <= RunAll(FreshWorld(), limits, actions).submissions
    decreases |actions|
  {
    if k == |actions| {
      assert actions[..k] == actions;
    } else {
      var init := actions[..|actions| - 1];
      LogGrows(limits, init, k);
      assert init[..k] == actions[..k];
      RunSafe(limits, init);
      StepSafe(RunAll(FreshWorld(), limits, init), limits, actions[|actions| - 1]);
    }
  }

  // ------------------------------------------------------------------ main results

  /** Over every interleaving of confirmations, rechecks, store faults, crashes and restarts, each quote ID causes at
      most one venue call. */
  lemma AtMostOneSubmit(limits: Limits, actions: seq<Action>, i: nat, j: nat)
    requires i < j < |RunAll(FreshWorld(), limits, actions).submissions|
    ensures var sent := RunAll(FreshWorld(), limits, actions).submissions;
            sent[i].quoteId != sent[j].quoteId && sent[i].id != sent[j].id
  {
    var w := RunAll(FreshWorld(), limits, actions);
    RunSafe(limits, actions);
    assert StoredFor(w.store, w.submissions[i].id, w.submissions[i].quoteId);
    assert StoredFor(w.store, w.submissions[j].id, w.submissions[j].quoteId);
    QuotesDistinct(w.store, w.submissions[i].id, w.submissions[j].id);
  }

  /** The dispatch mark is durable before each venue call, and still there at every later point of the run. */
  lemma MarkedBeforeAndEver(limits: Limits, actions: seq<Action>, k: nat, i: nat)
    requires k <= |actions| && i < |RunAll(FreshWorld(), limits, actions[..k]).submissions|
    ensures var sent := RunAll(FreshWorld(), limits, actions[..k]).submissions[i];
            && sent.marked
            && Marked(RunAll(FreshWorld(), limits, actions[..k]).store, sent.id)
            && Marked(RunAll(FreshWorld(), limits, actions).store, sent.id)
  {
    RunSafe(limits, actions[..k]);
    RunSafe(limits, actions);
    LogGrows(limits, actions, k);
  }

  /** All confirmations of one quote that return a trade return the same trade. */
  lemma AnswersAgree(limits: Limits, actions: seq<Action>, a: nat, b: nat)
    requires var w := RunAll(FreshWorld(), limits, actions);
             && a in w.calls && b in w.calls && w.calls[a].request.quoteId == w.calls[b].request.quoteId
             && w.calls[a].phase.Done? && w.calls[a].phase.answer.Some?
             && w.calls[b].phase.Done? && w.calls[b].phase.answer.Some?
    ensures var w := RunAll(FreshWorld(), limits, actions);
            w.calls[a].phase.answer.value.trade.id == w.calls[b].phase.answer.value.trade.id
  {
    var w := RunAll(FreshWorld(), limits, actions);
    RunSafe(limits, actions);
    AnswerStored(w, a);
    AnswerStored(w, b);
    QuotesDistinct(w.store, w.calls[a].phase.answer.value.trade.id, w.calls[b].phase.answer.value.trade.id);
  }

  lemma AnswerStored(w: World, c: nat)
    requires Safe(w) && c in w.calls && w.calls[c].phase.Done? && w.calls[c].phase.answer.Some?
    ensures StoredFor(w.store, w.calls[c].phase.answer.value.trade.id, w.calls[c].request.quoteId)
  {
    assert PhaseSafe(w.store, w.calls[c].request.quoteId, w.calls[c].phase);
  }
}
