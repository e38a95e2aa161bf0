/** Which trades never reach the venue, and what the not-submitted label of a recheck is worth. */
module ConfirmUnsent {
  import opened Bytes
  import opened Text
  import opened IntentStore
  import opened IntentRuns
  import opened ConfirmProtocol

  // --------------------------------------------------------- trades that are never sent

  /** Left `Created` without a dispatch mark. */
  predicate Abandoned(s: Snapshot, id: string)
  {
    id in s.trades && !s.trades[id].sendAttempted && s.trades[id].status != Created
  }

  lemma ConfirmKeepsAbandoned(s: Snapshot, c: Confirmation, limits: Limits, now: int, id: string)
    requires Abandoned(s, id)
    ensures Abandoned(Confirm(s, c, limits, now).0, id)
  {
  }

  lemma DispatchKeepsAbandoned(s: Snapshot, other: string, now: int, id: string)
    requires Abandoned(s, id)
    ensures Abandoned(Dispatch(s, other, now).0, id)
  {
  }

  lemma AmendKeepsAbandoned(s: Snapshot, other: string, u: Update, now: int, fault: Fault, id: string)
    requires Abandoned(s, id)
    ensures Abandoned(Faulty(s, Amend(s, other, u, now), fault).0, id)
  {
  }

  lemma StepKeepsAbandoned(w: World, limits: Limits, action: Action, id: string)
    requires Abandoned(w.store, id)
    ensures Abandoned(Step(w, limits, action).store, id)
  {
    match action
    case Advance(call, a) =>
      if call in w.calls { CallKeepsAbandoned(w.store, limits, w.calls[call], a, id); }
    case AdvanceRecheck(recheck, a) =>
      if recheck in w.rechecks { RecheckKeepsAbandoned(w.store, w.rechecks[recheck], a, id); }
    case _ =>
  }

  lemma CallKeepsAbandoned(s: Snapshot, limits: Limits, c: Call, a: Answer, id: string)
    requires Abandoned(s, id)
    ensures Abandoned(StepCall(s, limits, c, a).0, id)
  {
    match c.phase
    case Persisting(confirmation, now) => ConfirmKeepsAbandoned(s, confirmation, limits, now, id);
    case Marking(other) => DispatchKeepsAbandoned(s, other, a.now, id);
    case Recording(other, u) => AmendKeepsAbandoned(s, other, u, a.now, a.fault, id);
    case _ =>
  }

  lemma RecheckKeepsAbandoned(s: Snapshot, r: Recheck, a: Answer, id: string)
    requires Abandoned(s, id)
    ensures Abandoned(StepRecheck(s, r, a).0, id)
  {
    match r
    case Reading(_) =>
    case Judging(other, seen) =>
      if seen.status == Created && !seen.sendAttempted {
        AmendKeepsAbandoned(s, other, NotSubmitted(), a.now, a.fault, id);
      } else if a.evidence.Some? {
        AmendKeepsAbandoned(s, other, EvidenceUpdate(seen, a.evidence.value), a.now, a.fault, id);
      }
    case Syncing(other) =>
      AmendKeepsAbandoned(s, other, NoUpdate().(details := map[BalanceSyncStatus := a.balance], checked := true), a.now, a.fault, id);
  }

  /** A trade that a recheck rejects before it is marked was never sent to the venue and never will be. */
  lemma {:induction false} UnmarkedIsNeverSent(limits: Limits, actions: seq<Action>, k: nat, id: string)
    requires k <= |actions| && Abandoned(RunAll(FreshWorld(), limits, actions[..k]).store, id)
    ensures Abandoned(RunAll(FreshWorld(), limits, actions).store, id)
    ensures var sent := RunAll(FreshWorld(), limits, actions).submissions; forall i :: 0 <= i < |sent| ==> sent[i].id != id
    decreases |actions|
  {
    RunSafe(limits, actions);
    if k == |actions| {
      assert actions[..k] == actions;
    } else {
      var init := actions[..|actions| - 1];
      assert init[..k] == actions[..k];
      UnmarkedIsNeverSent(limits, init, k, id);
      StepKeepsAbandoned(RunAll(FreshWorld(), limits, init), limits, actions[|actions| - 1], id);
    }
  }

  // ------------------------------------------------- exactly when a trade stays unsent

  ghost predicate SubmittedIn(sent: seq<Submission>, id: string) { exists i :: 0 <= i < |sent| && sent[i].id == id }

  /** Some live call is about to send the trade. */
  ghost predicate BeingSent(calls: map<nat, Call>, id: string)
  {
    exists c :: c in calls && calls[c].phase.Sending? && calls[c].phase.trade.id == id
  }

  /** A call that is yet to mark its trade has it unmarked. */
  ghost predicate MarkersFresh(w: World)
  {
    forall c :: c in w.calls && w.calls[c].phase.Marking? ==> !Marked(w.store, w.calls[c].phase.id)
  }

  lemma AmendKeepsMarks(s: Snapshot, id: string, u: Update, now: int, fault: Fault, other: string)
    ensures Marked(Faulty(s, Amend(s, id, u, now), fault).0, other) == Marked(s, other)
  {
  }

  lemma DispatchKeepsOtherMarks(s: Snapshot, id: string, now: int, other: string)
    requires other != id
    ensures Marked(Dispatch(s, id, now).0, other) == Marked(s, other)
  {
  }

  lemma ConfirmKeepsMarks(s: Snapshot, c: Confirmation, limits: Limits, now: int, other: string)
    ensures Marked(Confirm(s, c, limits, now).0, other) == Marked(s, other)
  {
  }

  lemma RecheckKeepsMarks(s: Snapshot, r: Recheck, a: Answer, other: string)
    ensures Marked(StepRecheck(s, r, a).0, other) == Marked(s, other)
  {
    match r
    case Reading(_) =>
    case Judging(id, seen) =>
      if seen.status == Created && !seen.sendAttempted {
        AmendKeepsMarks(s, id, NotSubmitted(), a.now, a.fault, other);
      } else if a.evidence.Some? {
        AmendKeepsMarks(s, id, EvidenceUpdate(seen, a.evidence.value), a.now, a.fault, other);
      }
    case Syncing(id) =>
      AmendKeepsMarks(s, id, NoUpdate().(details := map[BalanceSyncStatus := a.balance], checked := true), a.now, a.fault, other);
  }

  /** A step of one call marks no trade but the one it was about to mark. */
  lemma CallKeepsMarks(s: Snapshot, limits: Limits, c: Call, a: Answer, other: string)
    requires c.phase.Marking? ==> c.phase.id != other
    ensures Marked(StepCall(s, limits, c, a).0, other) == Marked(s, other)
  {
    match c.phase
    case Persisting(confirmation, now) => ConfirmKeepsMarks(s, confirmation, limits, now, other);
    case Marking(id) => DispatchKeepsOtherMarks(s, id, a.now, other);
    case Recording(id, u) => AmendKeepsMarks(s, id, u, a.now, a.fault, other);
    case _ =>
  }

  /** A trade just created is not marked. */
  lemma CreatedUnmarked(s: Snapshot, limits: Limits, c: Call, a: Answer)
    requires Indexed(s)
    ensures var (s', phase, _) := StepCall(s, limits, c, a); phase.Marking? ==> c.phase.Persisting? && !Marked(s', phase.id)
  {
    if c.phase.Persisting? {
      var confirmation, now := c.phase.confirmation, c.phase.now;
      CreationUnmarked(s, confirmation, limits, now);
    }
  }

  lemma CreationUnmarked(s: Snapshot, c: Confirmation, limits: Limits, now: int)
    requires Indexed(s)
    ensures var (s', r) := Confirm(s, c, limits, now); r.Ok? && r.value.created ==> !Marked(s', r.value.trade.id)
  {
    ConfirmCreatesExactly(s, c, limits, now);
    InsertUnmarked(s, RequestKey(c.identity, c.requestId), NewTrade(c, now));
  }

  lemma InsertUnmarked(s: Snapshot, key: string, t: Trade)
    requires !t.sendAttempted
    ensures !Marked(Insert(s, key, t), t.id)
  {
  }

  lemma AdvanceKeepsFresh(w: World, limits: Limits, call: nat, a: Answer)
    requires Indexed(w.store) && TokensDistinct(w.calls) && MarkersFresh(w) && call in w.calls
    ensures MarkersFresh(Step(w, limits, Advance(call, a)))
  {
    var w' := Step(w, limits, Advance(call, a));
    CreatedUnmarked(w.store, limits, w.calls[call], a);
    forall c | c in w'.calls && w'.calls[c].phase.Marking? ensures !Marked(w'.store, w'.calls[c].phase.id) {
      if c != call {
        assert w'.calls[c] == w.calls[c] && Holds(w.calls[c]);
        CallKeepsMarks(w.store, limits, w.calls[call], a, w.calls[c].phase.id);
      }
    }
  }

  lemma StepKeepsFresh(w: World, limits: Limits, action: Action)
    requires Indexed(w.store) && TokensDistinct(w.calls) && MarkersFresh(w)
    ensures MarkersFresh(Step(w, limits, action))
  {
    match action
    case Advance(call, a) => if call in w.calls { AdvanceKeepsFresh(w, limits, call, a); }
    case AdvanceRecheck(recheck, a) =>
      if recheck in w.rechecks { RecheckKeepsFresh(w, StepRecheck(w.store, w.rechecks[recheck], a).0, w.rechecks[recheck], a); }
    case _ => QuietFresh(w, limits, action);
  }

  /** Beginnings and crashes mark nothing. */
  lemma QuietFresh(w: World, limits: Limits, action: Action)
    requires !action.Advance? && !action.AdvanceRecheck? && MarkersFresh(w)
    ensures MarkersFresh(Step(w, limits, action))
  {
  }

  lemma RecheckKeepsFresh(w: World, s': Snapshot, r: Recheck, a: Answer)
    requires MarkersFresh(w) && s' == StepRecheck(w.store, r, a).0
    ensures MarkersFresh(w.(store := s'))
  {
    forall c | c in w.calls && w.calls[c].phase.Marking? ensures !Marked(s', w.calls[c].phase.id) {
      RecheckKeepsMarks(w.store, r, a, w.calls[c].phase.id);
    }
  }

  lemma {:induction false} RunFresh(limits: Limits, actions: seq<Action>)
    ensures MarkersFresh(RunAll(FreshWorld(), limits, actions))
  {
    if actions != [] {
      RunFresh(limits, actions[..|actions| - 1]);
      RunSafe(limits, actions[..|actions| - 1]);
      StepKeepsFresh(RunAll(FreshWorld(), limits, actions[..|actions| - 1]), limits, actions[|actions| - 1]);
    }
  }

  /** The trade has left `Created`, has not been sent, and is not being sent. */
  ghost predicate Unsent(w: World, id: string)
  {
    && id in w.store.trades && w.store.trades[id].status != Created
    && !SubmittedIn(w.submissions, id) && !BeingSent(w.calls, id)
  }

  predicate Started(s: Snapshot, id: string) { id in s.trades && s.trades[id].status != Created }

  lemma ChangeKeepsStarted(s: Snapshot, other: string, u: Update, now: int, fault: Fault, id: string)
    requires Started(s, id)
    ensures Started(Faulty(s, Amend(s, other, u, now), fault).0, id)
  {
  }

  lemma DispatchKeepsStarted(s: Snapshot, other: string, now: int, id: string)
    requires Started(s, id)
    ensures Started(Dispatch(s, other, now).0, id)
    ensures other == id && !Marked(s, id) ==> Dispatch(s, other, now).1.Err?
  {
  }

  lemma ConfirmKeepsStarted(s: Snapshot, c: Confirmation, limits: Limits, now: int, id: string)
    requires Started(s, id)
    ensures Started(Confirm(s, c, limits, now).0, id)
  {
  }

  lemma RecheckKeepsStarted(s: Snapshot, r: Recheck, a: Answer, id: string)
    requires Started(s, id)
    ensures Started(StepRecheck(s, r, a).0, id)
  {
    match r
    case Reading(_) =>
    case Judging(other, seen) =>
      if seen.status == Created && !seen.sendAttempted {
        ChangeKeepsStarted(s, other, NotSubmitted(), a.now, a.fault, id);
      } else if a.evidence.Some? {
        ChangeKeepsStarted(s, other, EvidenceUpdate(seen, a.evidence.value), a.now, a.fault, id);
      }
    case Syncing(other) =>
      ChangeKeepsStarted(s, other, NoUpdate().(details := map[BalanceSyncStatus := a.balance], checked := true), a.now, a.fault, id);
  }

  /** A call about to send the trade, or sending it, was already about to send it before. */
  ghost predicate NoNewSend(c: Call, s': Snapshot, phase: Phase, sent: seq<Submission>, id: string)
  {
    && Started(s', id)
    && (phase.Sending? && phase.trade.id == id ==> c.phase.Sending? && c.phase.trade.id == id)
    && (SubmittedIn(sent, id) ==> c.phase.Sending? && c.phase.trade.id == id)
  }

  ghost predicate KeepsUnsent(s: Snapshot, limits: Limits, c: Call, a: Answer, id: string)
  {
    var (s', phase, sent) := StepCall(s, limits, c, a); NoNewSend(c, s', phase, sent, id)
  }

  lemma CallKeepsUnsent(s: Snapshot, limits: Limits, c: Call, a: Answer, id: string)
    requires Consistent(s) && Started(s, id) && (c.phase.Marking? ==> !Marked(s, c.phase.id))
    ensures KeepsUnsent(s, limits, c, a, id)
  {
    match c.phase
    case Persisting(_, _) => PersistingKeepsUnsent(s, limits, c, a, id);
    case Marking(_) => MarkingKeepsUnsent(s, limits, c, a, id);
    case Recording(_, _) => RecordingKeepsUnsent(s, limits, c, a, id);
    case _ => OthersKeepUnsent(s, limits, c, a, id);
  }

  lemma OthersKeepUnsent(s: Snapshot, limits: Limits, c: Call, a: Answer, id: string)
    requires !c.phase.Persisting? && !c.phase.Marking? && !c.phase.Recording? && Started(s, id)
    ensures KeepsUnsent(s, limits, c, a, id)
  {
  }

  lemma PersistingKeepsUnsent(s: Snapshot, limits: Limits, c: Call, a: Answer, id: string)
    requires c.phase.Persisting? && Started(s, id)
    ensures KeepsUnsent(s, limits, c, a, id)
  {
    ConfirmKeepsStarted(s, c.phase.confirmation, limits, c.phase.now, id);
    PersistedOutcome(s, c, Confirm(s, c.phase.confirmation, limits, c.phase.now), a.fault, id);
  }

  lemma PersistedOutcome(s: Snapshot, c: Call, outcome: (Snapshot, Result<Confirmed, Refusal>), fault: Fault, id: string)
    requires Started(s, id) && Started(outcome.0, id)
    ensures var (s', answer) := Faulty(s, outcome, fault); NoNewSend(c, s', AfterPersist(answer), [], id)
  {
  }

  lemma RecordingKeepsUnsent(s: Snapshot, limits: Limits, c: Call, a: Answer, id: string)
    requires c.phase.Recording? && Started(s, id)
    ensures KeepsUnsent(s, limits, c, a, id)
  {
    ChangeKeepsStarted(s, c.phase.id, c.phase.update, a.now, a.fault, id);
  }

  lemma MarkingKeepsUnsent(s: Snapshot, limits: Limits, c: Call, a: Answer, id: string)
    requires c.phase.Marking? && Consistent(s) && Started(s, id) && !Marked(s, c.phase.id)
    ensures KeepsUnsent(s, limits, c, a, id)
  {
    DispatchesOther(s, c.phase.id, a.now, id);
    MarkingStep(s, limits, c, a, id);
  }

  lemma MarkingStep(s: Snapshot, limits: Limits, c: Call, a: Answer, id: string)
    requires c.phase.Marking? && Started(s, id)
    requires var (s', r) := Dispatch(s, c.phase.id, a.now); Started(s', id) && (r.Ok? ==> r.value.id != id)
    ensures KeepsUnsent(s, limits, c, a, id)
  {
    MarkedOutcome(s, c, Dispatch(s, c.phase.id, a.now), a.fault, id);
  }

  lemma MarkedOutcome(s: Snapshot, c: Call, outcome: (Snapshot, Result<Trade, Refusal>), fault: Fault, id: string)
    requires Started(s, id) && Started(outcome.0, id) && (outcome.1.Ok? ==> outcome.1.value.id != id)
    ensures var (s', marked) := Faulty(s, outcome, fault);
            NoNewSend(c, s', if marked.None? then Done(None) else Sending(marked.value), [], id)
  {
  }

  /** No unmarked trade that has left `Created` can be dispatched. */
  lemma DispatchesOther(s: Snapshot, other: string, now: int, id: string)
    requires Consistent(s) && Started(s, id) && !Marked(s, other)
    ensures var (s', r) := Dispatch(s, other, now); Started(s', id) && (r.Ok? ==> r.value.id != id)
  {
    DispatchKeepsStarted(s, other, now, id);
    DispatchedId(s, other, now);
  }

  lemma DispatchedId(s: Snapshot, id: string, now: int)
    requires Consistent(s)
    ensures Dispatch(s, id, now).1.Ok? ==> Dispatch(s, id, now).1.value.id == id
  {
    DispatchStep(s, id, now);
  }

  lemma StepKeepsUnsent(w: World, limits: Limits, action: Action, id: string)
    requires Consistent(w.store) && MarkersFresh(w) && Unsent(w, id)
    ensures Unsent(Step(w, limits, action), id)
  {
    match action
    case Advance(call, a) =>
      if call in w.calls {
        CallKeepsUnsent(w.store, limits, w.calls[call], a, id);
        AdvancedUnsent(w, limits, call, a, id);
      }
    case AdvanceRecheck(recheck, a) =>
      if recheck in w.rechecks { RecheckKeepsStarted(w.store, w.rechecks[recheck], a, id); }
    case _ => QuietUnsent(w, limits, action, id);
  }

  /** Beginnings and crashes send nothing. */
  lemma QuietUnsent(w: World, limits: Limits, action: Action, id: string)
    requires !action.Advance? && !action.AdvanceRecheck? && Unsent(w, id)
    ensures Unsent(Step(w, limits, action), id)
  {
  }

  lemma AdvancedUnsent(w: World, limits: Limits, call: nat, a: Answer, id: string)
    requires call in w.calls && Unsent(w, id) && KeepsUnsent(w.store, limits, w.calls[call], a, id)
    ensures Unsent(Step(w, limits, Advance(call, a)), id)
  {
    var (s', phase, sent) := StepCall(w.store, limits, w.calls[call], a);
    AdvanceKeepsUnsent(w, call, s', phase, sent, id);
  }

  lemma AdvanceKeepsUnsent(w: World, call: nat, s': Snapshot, phase: Phase, sent: seq<Submission>, id: string)
    requires call in w.calls && Unsent(w, id) && NoNewSend(w.calls[call], s', phase, sent, id)
    ensures Unsent(World(s', w.calls[call := w.calls[call].(phase := phase)], w.rechecks, w.submissions + sent), id)
  {
    var all := w.submissions + sent;
    assert !SubmittedIn(sent, id);
    forall i | 0 <= i < |all| ensures all[i].id != id {
      assert i < |w.submissions| || all[i] == sent[i - |w.submissions|];
    }
  }

  ghost predicate SentAfter(limits: Limits, actions: seq<Action>, more: seq<Action>, id: string)
  {
    SubmittedIn(RunAll(FreshWorld(), limits, actions + more).submissions, id)
  }

  lemma {:induction false} RunKeepsUnsent(limits: Limits, actions: seq<Action>, more: seq<Action>, id: string)
    requires Unsent(RunAll(FreshWorld(), limits, actions), id)
    ensures Unsent(RunAll(FreshWorld(), limits, actions + more), id)
    decreases |more|
  {
    if more == [] {
      assert actions + more == actions;
    } else {
      var init, last := more[..|more| - 1], more[|more| - 1];
      RunKeepsUnsent(limits, actions, init, id);
      assert actions + more == (actions + init) + [last];
      RunAllAppend(FreshWorld(), limits, actions + init, last);
      RunSafe(limits, actions + init);
      RunFresh(limits, actions + init);
      StepKeepsUnsent(RunAll(FreshWorld(), limits, actions + init), limits, last, id);
    }
  }

  /** In every reachable world, a trade that has left `Created`, by a rejection for instance, is never sent to the venue
      whatever happens next if and only if it has not been sent yet and no live call is about to send it. */
  lemma NeverSentExactly(limits: Limits, actions: seq<Action>, id: string)
    requires Started(RunAll(FreshWorld(), limits, actions).store, id)
    ensures (forall more :: !SentAfter(limits, actions, more, id))
       <==> var w := RunAll(FreshWorld(), limits, actions); !SubmittedIn(w.submissions, id) && !BeingSent(w.calls, id)
  {
    var w := RunAll(FreshWorld(), limits, actions);
    if !SubmittedIn(w.submissions, id) && !BeingSent(w.calls, id) {
      forall more ensures !SentAfter(limits, actions, more, id) { RunKeepsUnsent(limits, actions, more, id); }
    } else if SubmittedIn(w.submissions, id) {
      assert actions + [] == actions;
      assert SentAfter(limits, actions, [], id);
    } else {
      var c :| c in w.calls && w.calls[c].phase.Sending? && w.calls[c].phase.trade.id == id;
      var send := Advance(c, SampleAnswer());
      RunAllAppend(FreshWorld(), limits, actions, send);
      LiveCallSends(w, limits, c, id);
      assert SentAfter(limits, actions, [send], id);
    }
  }

  lemma LiveCallSends(w: World, limits: Limits, c: nat, id: string)
    requires c in w.calls && w.calls[c].phase.Sending? && w.calls[c].phase.trade.id == id
    ensures SubmittedIn(Step(w, limits, Advance(c, SampleAnswer())).submissions, id)
  {
    assert Step(w, limits, Advance(c, SampleAnswer())).submissions[|w.submissions|].id == id;
  }

  lemma NoneCounted(session: string, limits: Limits, now: int)
    requires limits.perSession > 0 && limits.perHour > 0 && limits.concurrent > 0
    ensures OverQuota(map[], session, limits, now) == None
  {
    assert Where(map[], InSession(session)) == {} && Where(map[], Since(now - HOUR)) == {} && Where(map[], Unresolved()) == {};
  }

  lemma ShortTextsNotBlank()
    ensures !Blank("t") && !Blank("u") && !Blank("q") && !Blank("vw-t")
  {
    assert TrimLeft("t") == "t" && TrimLeft("u") == "u" && TrimLeft("q") == "q" && TrimLeft("vw-t") == "vw-t";
    assert TrimRight("t") == "t" && TrimRight("u") == "u" && TrimRight("q") == "q" && TrimRight("vw-t") == "vw-t";
  }

  function SampleQuote(): Quote { Quote("q", "u", "bybit", 10, true, "") }
  function SampleAnswer(): Answer { Answer(1, Some(SampleQuote()), "t", VenueUnclear, None, "", NoFault) }
  function SampleRequest(): Request { Request("u", "u", "q", "u") }
  function SampleTrade(): Trade { NewTrade(SampleConfirmation(), 1) }
  function SampleStore(): Snapshot { Insert(Snapshot(map[], map[], map[]), RequestKey("u", "u"), SampleTrade()) }

  function SampleConfirmation(): Confirmation { Confirmation("t", "u", "u", "u", "vw-t", SampleQuote()) }

  lemma SampleConfirmed(limits: Limits)
    requires limits.perSession > 0 && limits.perHour > 0 && limits.concurrent > 0
    ensures Confirm(Snapshot(map[], map[], map[]), SampleConfirmation(), limits, 1) == (SampleStore(), Ok(Confirmed(SampleTrade(), true)))
  {
    ShortTextsNotBlank();
    NoneCounted("u", limits, 1);
  }

  /** A world with one confirmation under way and nothing else. */
  function Alone(phase: Phase): World { FreshWorld().(calls := map[0 := Call(SampleRequest(), phase)]) }

  lemma SampleBegins(limits: Limits)
    ensures Step(FreshWorld(), limits, Begin(0, SampleRequest())) == Alone(ByRequest)
  {
    ShortTextsNotBlank();
  }

  lemma SampleStep(limits: Limits, phase: Phase, next: Phase)
    requires StepCall(FreshWorld().store, limits, Call(SampleRequest(), phase), SampleAnswer()) == (FreshWorld().store, next, [])
    ensures Step(Alone(phase), limits, Advance(0, SampleAnswer())) == Alone(next)
  {
  }

  lemma SampleLookups(limits: Limits)
    ensures Step(Alone(ByRequest), limits, Advance(0, SampleAnswer())) == Alone(ByQuote)
    ensures Step(Alone(ByQuote), limits, Advance(0, SampleAnswer())) == Alone(Pricing)
  {
    SampleStep(limits, ByRequest, ByQuote);
    SampleStep(limits, ByQuote, Pricing);
  }

  lemma SamplePricing(limits: Limits)
    ensures Step(Alone(Pricing), limits, Advance(0, SampleAnswer())) == Alone(Persisting(SampleConfirmation(), 1))
  {
    SamplePriced();
    SampleStep(limits, Pricing, Persisting(SampleConfirmation(), 1));
  }

  lemma SamplePriced()
    ensures AfterPricing(SampleRequest(), SampleAnswer()) == Persisting(SampleConfirmation(), 1)
  {
    SampleOrderId();
  }

  lemma SampleOrderId()
    ensures ClientOrderId("t") == "vw-t"
  {
    assert !("trade_" <= "t");
  }

  /** The reads and the pricing of a first confirmation. */
  lemma SampleReads(limits: Limits) returns (actions: seq<Action>)
    ensures RunAll(FreshWorld(), limits, actions) == Alone(Persisting(SampleConfirmation(), 1))
  {
    var step := Advance(0, SampleAnswer());
    SampleBegins(limits);
    SampleLookups(limits);
    SamplePricing(limits);
    actions := [];
    RunAllAppend(FreshWorld(), limits, actions, Begin(0, SampleRequest()));
    actions := actions + [Begin(0, SampleRequest())];
    RunAllAppend(FreshWorld(), limits, actions, step);
    actions := actions + [step];
    RunAllAppend(FreshWorld(), limits, actions, step);
    actions := actions + [step];
    RunAllAppend(FreshWorld(), limits, actions, step);
    actions := actions + [step];
  }

  /** The trade is stored and a call is about to mark it. */
  ghost predicate ReadyToMark(w: World, t: Trade)
  {
    && t.id in w.store.trades && w.store.trades[t.id] == t && t.status == Created && !t.sendAttempted
    && 0 in w.calls && w.calls[0].phase == Marking(t.id) && w.rechecks == map[] && w.submissions == []
  }

  /** The trade is marked and a call is about to send it, and a recheck has seen it before it was marked. */
  ghost predicate ReadyToSend(w: World, t: Trade, seen: Trade)
  {
    && t.id in w.store.trades && w.store.trades[t.id] == t && t.status == PendingSubmit
    && 0 in w.calls && w.calls[0].phase == Sending(t) && w.submissions == []
    && 0 in w.rechecks && w.rechecks[0] == Judging(t.id, seen) && seen.status == Created && !seen.sendAttempted
  }

  lemma SampleCreated()
    ensures ReadyToMark(World(SampleStore(), map[0 := Call(SampleRequest(), Marking("t"))], map[], []), SampleTrade())
  {
  }

  /** A first confirmation up to the point where its trade is stored but not marked. */
  lemma SampleConfirms(limits: Limits) returns (actions: seq<Action>)
    requires limits.perSession > 0 && limits.perHour > 0 && limits.concurrent > 0
    ensures ReadyToMark(RunAll(FreshWorld(), limits, actions), SampleTrade())
  {
    actions := SampleReads(limits);
    SampleConfirmed(limits);
    SampleCreated();
    RunAllAppend(FreshWorld(), limits, actions, Advance(0, SampleAnswer()));
    actions := actions + [Advance(0, SampleAnswer())];
  }

  /** A recheck reads the trade, and only after that it is marked. */
  lemma ReadThenMark(limits: Limits, w: World, t: Trade, a: Answer)
    requires ReadyToMark(w, t) && a.fault.NoFault?
    ensures var w' := Step(Step(Step(w, limits, BeginRecheck(0, t.id)), limits, AdvanceRecheck(0, a)), limits, Advance(0, a));
            ReadyToSend(w', MarkTrade(t, a.now).value, t)
  {
    var w2 := Step(Step(w, limits, BeginRecheck(0, t.id)), limits, AdvanceRecheck(0, a));
    assert w2 == w.(rechecks := map[0 := Judging(t.id, t)]);
  }

  lemma SampleMarks(limits: Limits) returns (actions: seq<Action>, t: Trade, seen: Trade)
    requires limits.perSession > 0 && limits.perHour > 0 && limits.concurrent > 0
    ensures ReadyToSend(RunAll(FreshWorld(), limits, actions), t, seen)
  {
    var a := SampleAnswer();
    actions := SampleConfirms(limits);
    seen := SampleTrade();
    t := MarkTrade(seen, a.now).value;
    ReadThenMark(limits, RunAll(FreshWorld(), limits, actions), seen, a);
    RunAllAppend(FreshWorld(), limits, actions, BeginRecheck(0, seen.id));
    actions := actions + [BeginRecheck(0, seen.id)];
    RunAllAppend(FreshWorld(), limits, actions, AdvanceRecheck(0, a));
    actions := actions + [AdvanceRecheck(0, a)];
    RunAllAppend(FreshWorld(), limits, actions, Advance(0, a));
    actions := actions + [Advance(0, a)];
  }

  /** The label goes on a trade that was marked in the meantime just as well. */
  lemma LabelApplies(t: Trade, now: int)
    requires t.status == PendingSubmit
    ensures var r := UpdateTrade(t, NotSubmitted(), now);
            r.Ok? && r.value.status == Rejected && ResultStatus in r.value.details && r.value.details[ResultStatus] == "NOT_SUBMITTED_AFTER_RESTART"
  {
  }

  predicate SentButLabelled(w: World)
  {
    && |w.submissions| == 1 && w.submissions[0].id in w.store.trades
    && var t := w.store.trades[w.submissions[0].id];
       t.status == Rejected && ResultStatus in t.details && t.details[ResultStatus] == "NOT_SUBMITTED_AFTER_RESTART"
  }

  /** The venue call, then the write of a recheck that had seen the trade unmarked. */
  lemma LateWrite(limits: Limits, w: World, t: Trade, seen: Trade, a: Answer)
    requires ReadyToSend(w, t, seen) && a.fault.NoFault?
    ensures SentButLabelled(Step(Step(w, limits, Advance(0, a)), limits, AdvanceRecheck(0, a)))
  {
    LabelApplies(t, a.now);
  }

  /** The mark in that condition matters: a recheck that has read the trade just before it was marked still stores
      NOT_SUBMITTED_AFTER_RESTART after the order has gone to the venue. */
  lemma LabelledNotSubmittedThoughSent(limits: Limits) returns (actions: seq<Action>)
    requires limits.perSession > 0 && limits.perHour > 0 && limits.concurrent > 0
    ensures SentButLabelled(RunAll(FreshWorld(), limits, actions))
  {
    var a := SampleAnswer();
    var t, seen;
    actions, t, seen := SampleMarks(limits);
    LateWrite(limits, RunAll(FreshWorld(), limits, actions), t, seen, a);
    RunAllAppend(FreshWorld(), limits, actions, Advance(0, a));
    actions := actions + [Advance(0, a)];
    RunAllAppend(FreshWorld(), limits, actions, AdvanceRecheck(0, a));
    actions := actions + [AdvanceRecheck(0, a)];
  }
}
