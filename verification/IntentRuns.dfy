/** What every run of confirm, dispatch and update operations keeps true of the intent store. */
module IntentRuns {
  import opened Bytes
  import opened Text
  import opened IntentStore

  datatype Op =
    | ConfirmOp(confirmation: Confirmation, now: int)
    | DispatchOp(id: string, now: int)
    | UpdateOp(id: string, update: Update, now: int)

  ghost function Apply(s: Snapshot, limits: Limits, op: Op): Snapshot
  {
    match op
    case ConfirmOp(c, now) => Confirm(s, c, limits, now).0
    case DispatchOp(id, now) => Dispatch(s, id, now).0
    case UpdateOp(id, u, now) => Amend(s, id, u, now).0
  }

  ghost function Run(s: Snapshot, limits: Limits, ops: seq<Op>): Snapshot
  {
    if ops == [] then s else Apply(Run(s, limits, ops[..|ops| - 1]), limits, ops[|ops| - 1])
  }

  // -------------------------------------------------------------------- lifecycles

  /** A lifecycle is a walk in the transition graph that starts at `Created`. */
  ghost predicate IsPath(events: seq<Event>)
  {
    && |events| > 0 && events[0].status == Created
    && forall i :: 0 < i < |events| ==> ValidTransition(events[i - 1].status, events[i].status)
  }

  /** When the order is first known to have reached the venue. */
  function FirstReached(events: seq<Event>): Option<int>
  {
    if events == [] then None
    else
      var before := FirstReached(events[..|events| - 1]);
      var last := events[|events| - 1];
      if before.None? && last.status in {Submitted, Accepted, PartiallyFilled, Filled} then Some(last.at) else before
  }

  /** The lifecycle explains the trade's status, its creation, submission and terminal times, and its dispatch mark. */
  ghost predicate WellFormed(t: Trade)
  {
    && IsPath(t.lifecycle)
    && var last := t.lifecycle[|t.lifecycle| - 1];
       && last.status == t.status
       && t.createdAt == t.lifecycle[0].at
       && t.submittedAt == FirstReached(t.lifecycle)
       && t.terminalAt == (if Terminal(t.status) then Some(last.at) else None)
       && (t.sendAttempted ==> |t.lifecycle| > 1 && t.lifecycle[1].status == PendingSubmit)
  }

  /** What a trade never loses once stored. */
  ghost predicate Evolves(t: Trade, t': Trade)
  {
    && t'.id == t.id && t'.identity == t.identity && t'.session == t.session && t'.requestId == t.requestId
    && t'.quote == t.quote && t'.clientOrderId == t.clientOrderId && t'.createdAt == t.createdAt
    && t.lifecycle <= t'.lifecycle
    && (t.sendAttempted ==> t'.sendAttempted)
    && (Active(t'.status) ==> Active(t.status))
    && (Terminal(t.status) ==> Terminal(t'.status))
  }

  lemma StatusStep(t: Trade, next: TradeStatus, detail: string, requestId: string, now: int)
    requires WellFormed(t) && ApplyStatus(t, next, detail, requestId, now).Ok?
    ensures WellFormed(ApplyStatus(t, next, detail, requestId, now).value)
    ensures Evolves(t, ApplyStatus(t, next, detail, requestId, now).value)
  {
    if t.status != next {
      var e := Event(next, now, detail, requestId);
      PathGrows(t.lifecycle, e);
      ReachedGrows(t.lifecycle, e);
    }
  }

  lemma PathGrows(events: seq<Event>, e: Event)
    requires IsPath(events) && ValidTransition(events[|events| - 1].status, e.status)
    ensures IsPath(events + [e])
  {
  }

  lemma ReachedGrows(events: seq<Event>, e: Event)
    ensures FirstReached(events + [e])
         == if FirstReached(events).None? && e.status in {Submitted, Accepted, PartiallyFilled, Filled} then Some(e.at) else FirstReached(events)
  {
    assert (events + [e])[..|events|] == events;
  }

  lemma MarkStep(t: Trade, now: int)
    requires WellFormed(t)
    ensures Sound(t, MarkTrade(t, now)) && (MarkTrade(t, now).Ok? ==> MarkTrade(t, now).value.sendAttempted)
  {
    if !t.sendAttempted && t.status == Created {
      CreatedIsStart(t);
      StatusStep(t, PendingSubmit, "", "", now);
    }
  }

  lemma {:induction false} NeverBackToCreated(events: seq<Event>, i: nat)
    requires IsPath(events) && 0 < i < |events|
    ensures events[i].status != Created
  {
    assert ValidTransition(events[i - 1].status, events[i].status);
  }

  lemma CreatedIsStart(t: Trade)
    requires WellFormed(t) && t.status == Created
    ensures |t.lifecycle| == 1
  {
    if |t.lifecycle| > 1 { NeverBackToCreated(t.lifecycle, |t.lifecycle| - 1); }
  }

  lemma UpdateStep(t: Trade, u: Update, now: int)
    requires WellFormed(t)
    ensures Sound(t, UpdateTrade(t, u, now))
  {
    if u.status.Some? && UpdateTrade(t, u, now).Ok? {
      var detail := if u.lifecycleDetail == "" then u.publicError else u.lifecycleDetail;
      StatusStep(t, u.status.value, detail, u.requestId, now);
    }
  }

  // ----------------------------------------------------------------- consistency

  /** Both indexes point at stored trades, the quote index is the inverse of "the quote of a trade", and every
      trade answers the request that made it. */
  ghost predicate Indexed(s: Snapshot)
  {
    && (forall key :: key in s.requests ==> s.requests[key] in s.trades)
    && (forall q :: q in s.quotes ==> s.quotes[q] in s.trades && s.trades[s.quotes[q]].quote.id == q)
    && (forall id :: id in s.trades ==> Linked(s, id, s.trades[id]))
  }

  ghost predicate Linked(s: Snapshot, id: string, t: Trade)
  {
    && id != "" && t.id == id
    && t.quote.id in s.quotes && s.quotes[t.quote.id] == id
    && RequestKey(t.identity, t.requestId) in s.requests && s.requests[RequestKey(t.identity, t.requestId)] == id
  }

  ghost predicate AllWellFormed(trades: Trades) { forall id :: id in trades ==> WellFormed(trades[id]) }

  ghost predicate Consistent(s: Snapshot) { Indexed(s) && AllWellFormed(s.trades) }

  lemma EmptyIsConsistent()
    ensures Consistent(Snapshot(map[], map[], map[]))
  {
  }

  /** Quote IDs and trades correspond one to one. */
  lemma QuotesOneToOne(s: Snapshot, id: string, id': string)
    requires Indexed(s) && id in s.trades && id' in s.trades
    ensures s.trades[id].quote.id == s.trades[id'].quote.id <==> id == id'
    ensures |s.quotes.Keys| == |s.trades.Keys|
  {
    QuotesDistinct(s, id, id');
    forall i | i in s.trades ensures i in set q | q in s.quotes :: s.quotes[q] {
      assert Linked(s, i, s.trades[i]);
    }
    assert s.trades.Keys == set q | q in s.quotes :: s.quotes[q];
    InjectiveImage(s.quotes, s.quotes.Keys);
  }

  lemma QuotesDistinct(s: Snapshot, id: string, id': string)
    requires Indexed(s) && id in s.trades && id' in s.trades
    ensures s.trades[id].quote.id == s.trades[id'].quote.id <==> id == id'
  {
    assert Linked(s, id, s.trades[id]) && Linked(s, id', s.trades[id']);
  }

  lemma {:induction false} InjectiveImage(m: Index, keys: set<string>)
    requires keys <= m.Keys && forall a, b :: a in keys && b in keys && m[a] == m[b] ==> a == b
    ensures |set k | k in keys :: m[k]| == |keys|
    decreases |keys|
  {
    if keys != {} {
      var k :| k in keys;
      var rest := keys - {k};
      InjectiveImage(m, rest);
      assert (set j | j in keys :: m[j]) == (set j | j in rest :: m[j]) + {m[k]};
    }
  }

  /** Snapshots only grow: bindings are never changed and trades keep their terms. */
  ghost predicate Grows(s: Snapshot, s': Snapshot)
  {
    && (forall key :: key in s.requests ==> key in s'.requests && s'.requests[key] == s.requests[key])
    && (forall q :: q in s.quotes ==> q in s'.quotes && s'.quotes[q] == s.quotes[q])
    && (forall id :: id in s.trades ==> id in s'.trades && Evolves(s.trades[id], s'.trades[id]))
  }

  lemma GrowsTransitive(a: Snapshot, b: Snapshot, c: Snapshot)
    requires Grows(a, b) && Grows(b, c)
    ensures Grows(a, c)
  {
    forall id | id in a.trades ensures id in c.trades && Evolves(a.trades[id], c.trades[id]) {
      assert Evolves(a.trades[id], b.trades[id]) && Evolves(b.trades[id], c.trades[id]);
    }
  }

  lemma EvolvesReflexive(t: Trade)
    ensures Evolves(t, t)
  {
  }

  lemma GrowsReflexive(s: Snapshot)
    ensures Grows(s, s)
  {
    forall id | id in s.trades ensures Evolves(s.trades[id], s.trades[id]) { EvolvesReflexive(s.trades[id]); }
  }

  /** An index entry is non-empty exactly when it is present, and then names a stored trade. */
  ghost predicate Resolves(s: Snapshot, index: Index, key: string)
  {
    && (At(index, key) != "" <==> key in index)
    && (key in index ==> index[key] in s.trades && s.trades[index[key]].id == index[key])
  }

  lemma IndexesResolve(s: Snapshot, key: string, quoteId: string)
    requires Indexed(s)
    ensures Resolves(s, s.requests, key) && Resolves(s, s.quotes, quoteId)
    ensures quoteId in s.quotes ==> s.trades[s.quotes[quoteId]].quote.id == quoteId
  {
    if key in s.requests { assert Linked(s, s.requests[key], s.trades[s.requests[key]]); }
    if quoteId in s.quotes { assert Linked(s, s.quotes[quoteId], s.trades[s.quotes[quoteId]]); }
  }

  /** Nothing is bound to the request, the quote or the ID, the quote is live and no quota is spent. */
  ghost predicate Creates(s: Snapshot, c: Confirmation, key: string, over: Option<Refusal>, now: int)
  {
    key !in s.requests && c.quote.id !in s.quotes && now < c.quote.expiresAt && c.intentId !in s.trades && over.None?
  }

  /** The indexes never dangle, and there are three ways to change the store: not at all, by binding one more request
      key to the trade of the named quote, or by a creation, which happens exactly when `Creates` holds. */
  lemma SettleOutcome(s: Snapshot, c: Confirmation, key: string, over: Option<Refusal>, now: int)
    requires Resolves(s, s.requests, key) && Resolves(s, s.quotes, c.quote.id) && over != Some(IndexInconsistent)
    requires c.quote.id in s.quotes ==> s.trades[s.quotes[c.quote.id]].quote.id == c.quote.id
    ensures var (s', r) := Settle(s, c, key, over, now);
            && r != Err(IndexInconsistent)
            && (r.Ok? && r.value.created <==> Creates(s, c, key, over, now))
            && (r.Ok? && r.value.created ==> s' == Insert(s, key, NewTrade(c, now)) && r.value.trade == NewTrade(c, now))
            && (r.Err? ==> s' == s)
            && (r.Ok? && !r.value.created ==> Found(s, s', key, r.value.trade) && r.value.trade.quote.id == c.quote.id)
  {
  }

  /** The answer is a stored trade, and its request key is bound to it if it was free. */
  ghost predicate Found(s: Snapshot, s': Snapshot, key: string, t: Trade)
  {
    && t.id in s.trades && s.trades[t.id] == t
    && (key in s.requests ==> s.requests[key] == t.id)
    && s' == s.(requests := s.requests[key := t.id])
  }

  lemma BindIndexes(s: Snapshot, key: string, id: string)
    requires Indexed(s) && (key in s.requests ==> s.requests[key] == id) && id in s.trades
    ensures Indexed(s.(requests := s.requests[key := id]))
  {
    var s' := s.(requests := s.requests[key := id]);
    forall i | i in s'.trades ensures Linked(s', i, s'.trades[i]) { assert Linked(s, i, s.trades[i]); }
  }

  lemma BindGrows(s: Snapshot, key: string, id: string)
    requires key in s.requests ==> s.requests[key] == id
    ensures Grows(s, s.(requests := s.requests[key := id]))
  {
    GrowsReflexive(s);
  }

  lemma SettleStep(s: Snapshot, c: Confirmation, key: string, over: Option<Refusal>, now: int)
    requires Consistent(s) && key == RequestKey(c.identity, c.requestId) && c.intentId != "" && over != Some(IndexInconsistent)
    ensures var (s', r) := Settle(s, c, key, over, now);
            && Consistent(s') && Grows(s, s')
            && (r.Ok? ==> && r.value.trade.id in s'.trades && s'.trades[r.value.trade.id] == r.value.trade
                          && r.value.trade.quote.id == c.quote.id
                          && At(s'.requests, key) == r.value.trade.id)
  {
    var (s', r) := Settle(s, c, key, over, now);
    IndexesResolve(s, key, c.quote.id);
    SettleOutcome(s, c, key, over, now);
    if r.Err? {
      GrowsReflexive(s);
    } else if r.value.created {
      InsertKeeps(s, key, NewTrade(c, now), c, now);
    } else {
      BindIndexes(s, key, r.value.trade.id);
      BindGrows(s, key, r.value.trade.id);
    }
  }

  /** One confirmation keeps consistency and loses nothing bound; its answer is the stored trade of the named quote. */
  lemma ConfirmStep(s: Snapshot, c: Confirmation, limits: Limits, now: int)
    requires Consistent(s)
    ensures var (s', r) := Confirm(s, c, limits, now);
            && Consistent(s') && Grows(s, s') && r != Err(IndexInconsistent)
            && (r.Ok? ==> && r.value.trade.id in s'.trades && s'.trades[r.value.trade.id] == r.value.trade
                          && r.value.trade.quote.id == c.quote.id
                          && At(s'.requests, RequestKey(c.identity, c.requestId)) == r.value.trade.id)
            && (r.Ok? && r.value.created ==> c.quote.id !in s.quotes && r.value.trade.id !in s.trades)
  {
    if Validate(c, limits).None? {
      var key, over := RequestKey(c.identity, c.requestId), OverQuota(s.trades, c.session, limits, now);
      ValidIdNotEmpty(c, limits);
      SettleStep(s, c, key, over, now);
      IndexesResolve(s, key, c.quote.id);
      SettleOutcome(s, c, key, over, now);
    } else {
      GrowsReflexive(s);
    }
  }

  /** A confirmation creates a trade exactly when it is valid, nothing is bound to its request, quote or ID, its quote
      is live and no quota is spent; the trade is then new in the store and in both indexes. */
  lemma ConfirmCreatesExactly(s: Snapshot, c: Confirmation, limits: Limits, now: int)
    requires Indexed(s)
    ensures var (s', r) := Confirm(s, c, limits, now);
            var key := RequestKey(c.identity, c.requestId);
            && (r.Ok? && r.value.created
                <==> Validate(c, limits).None? && Creates(s, c, key, OverQuota(s.trades, c.session, limits, now), now))
            && (r.Ok? && r.value.created ==> r.value.trade == NewTrade(c, now) && s' == Insert(s, key, NewTrade(c, now)))
  {
    var key := RequestKey(c.identity, c.requestId);
    IndexesResolve(s, key, c.quote.id);
    if Validate(c, limits).None? { SettleOutcome(s, c, key, OverQuota(s.trades, c.session, limits, now), now); }
  }

  lemma NewTradeWellFormed(c: Confirmation, now: int)
    ensures WellFormed(NewTrade(c, now))
  {
    var events := NewTrade(c, now).lifecycle;
    assert events[..0] == [];
    assert FirstReached(events) == None;
  }

  lemma InsertIndexes(s: Snapshot, key: string, t: Trade)
    requires Indexed(s) && t.id !in s.trades && t.id != "" && t.quote.id !in s.quotes
    requires key == RequestKey(t.identity, t.requestId) && key !in s.requests
    ensures Indexed(Insert(s, key, t))
  {
    var s' := Insert(s, key, t);
    forall id | id in s'.trades ensures Linked(s', id, s'.trades[id]) {
      if id != t.id { assert Linked(s, id, s.trades[id]); }
    }
    forall q | q in s'.quotes ensures s'.quotes[q] in s'.trades && s'.trades[s'.quotes[q]].quote.id == q {
      if q != t.quote.id { assert s.trades[s.quotes[q]].quote.id == q; }
    }
  }

  lemma InsertGrows(s: Snapshot, key: string, t: Trade)
    requires t.id !in s.trades && t.quote.id !in s.quotes && key !in s.requests
    ensures Grows(s, Insert(s, key, t))
  {
    GrowsReflexive(s);
  }

  lemma ValidIdNotEmpty(c: Confirmation, limits: Limits)
    requires Validate(c, limits).None?
    ensures c.intentId != ""
  {
    assert Blank("") && c.intentId in [c.intentId, c.identity, c.session, c.requestId, c.clientOrderId, c.quote.id, c.quote.identity];
  }

  lemma InsertKeeps(s: Snapshot, key: string, t: Trade, c: Confirmation, now: int)
    requires Consistent(s) && t == NewTrade(c, now) && c.intentId != "" && key == RequestKey(c.identity, c.requestId)
    requires t.id !in s.trades && t.quote.id !in s.quotes && key !in s.requests
    ensures Consistent(Insert(s, key, t)) && Grows(s, Insert(s, key, t))
  {
    NewTradeWellFormed(c, now);
    InsertIndexes(s, key, t);
    InsertGrows(s, key, t);
  }

  lemma ReplaceKeepsIndexes(s: Snapshot, id: string, t: Trade)
    requires Indexed(s) && id in s.trades && Evolves(s.trades[id], t)
    ensures Indexed(s.(trades := s.trades[id := t])) && t.id == id
  {
    assert Linked(s, id, s.trades[id]);
    var s' := s.(trades := s.trades[id := t]);
    forall i | i in s'.trades ensures Linked(s', i, s'.trades[i]) {
      assert Linked(s, i, s.trades[i]);
    }
    forall q | q in s'.quotes ensures s'.trades[s'.quotes[q]].quote.id == q {
      assert s.trades[s.quotes[q]].quote.id == q;
    }
  }

  lemma ReplaceGrows(s: Snapshot, id: string, t: Trade)
    requires id in s.trades && Evolves(s.trades[id], t)
    ensures Grows(s, s.(trades := s.trades[id := t]))
  {
    GrowsReflexive(s);
  }

  /** A refusal, or a well-formed trade that evolves from `t`. */
  ghost predicate Sound(t: Trade, changed: Result<Trade, Refusal>)
  {
    changed.Ok? ==> WellFormed(changed.value) && Evolves(t, changed.value)
  }

  /** Replacing a trade by one that evolves from it. */
  lemma ChangeStep(s: Snapshot, id: string, changed: Result<Trade, Refusal>)
    requires Consistent(s) && (id in s.trades ==> Sound(s.trades[id], changed))
    ensures var (s', r) := Change(s, id, changed);
            && Consistent(s') && Grows(s, s') && s'.quotes == s.quotes && s'.trades.Keys == s.trades.Keys
            && (r.Ok? ==> r == changed && id in s'.trades && s'.trades[id] == r.value && r.value.id == id)
  {
    if id in s.trades && changed.Ok? {
      ReplaceKeepsIndexes(s, id, changed.value);
      ReplaceGrows(s, id, changed.value);
      ReplaceKeepsWellFormed(s.trades, id, changed.value);
    } else {
      GrowsReflexive(s);
    }
  }

  lemma ReplaceKeepsWellFormed(trades: Trades, id: string, t: Trade)
    requires AllWellFormed(trades) && WellFormed(t)
    ensures AllWellFormed(trades[id := t])
  {
  }

  lemma DispatchStep(s: Snapshot, id: string, now: int)
    requires Consistent(s)
    ensures var (s', r) := Dispatch(s, id, now);
            && Consistent(s') && Grows(s, s') && s'.quotes == s.quotes && s'.trades.Keys == s.trades.Keys
            && (r.Ok? ==> id in s'.trades && s'.trades[id] == r.value && r.value.id == id && r.value.sendAttempted)
  {
    if id in s.trades {
      MarkStep(s.trades[id], now);
      ChangeStep(s, id, MarkTrade(s.trades[id], now));
    } else {
      GrowsReflexive(s);
    }
  }

  lemma AmendStep(s: Snapshot, id: string, u: Update, now: int)
    requires Consistent(s)
    ensures var (s', r) := Amend(s, id, u, now);
            && Consistent(s') && Grows(s, s') && s'.quotes == s.quotes && s'.trades.Keys == s.trades.Keys
            && (r.Ok? ==> id in s'.trades && s'.trades[id] == r.value && r.value.id == id)
  {
    if id in s.trades {
      UpdateStep(s.trades[id], u, now);
      ChangeStep(s, id, UpdateTrade(s.trades[id], u, now));
    } else {
      GrowsReflexive(s);
    }
  }

  lemma ApplyKeeps(s: Snapshot, limits: Limits, op: Op)
    requires Consistent(s)
    ensures Consistent(Apply(s, limits, op)) && Grows(s, Apply(s, limits, op))
  {
    match op
    case ConfirmOp(c, now) => ConfirmStep(s, c, limits, now);
    case DispatchOp(id, now) => DispatchStep(s, id, now);
    case UpdateOp(id, u, now) => AmendStep(s, id, u, now);
  }

  /** Consistency over whole runs, together with what no run ever takes back. */
  lemma {:induction false} RunKeepsConsistent(s: Snapshot, limits: Limits, ops: seq<Op>)
    requires Consistent(s)
    ensures Consistent(Run(s, limits, ops)) && Grows(s, Run(s, limits, ops))
  {
    if ops != [] {
      var before := Run(s, limits, ops[..|ops| - 1]);
      RunKeepsConsistent(s, limits, ops[..|ops| - 1]);
      ApplyKeeps(before, limits, ops[|ops| - 1]);
      GrowsTransitive(s, before, Apply(before, limits, ops[|ops| - 1]));
    }
  }

  /** A request key once bound answers with the same trade forever: after any further operations, a valid
      confirmation under that key gets that trade back if it names its quote, and a conflict otherwise; in
      neither case does the store change. */
  lemma RequestAnswersForever(s: Snapshot, limits: Limits, ops: seq<Op>, c: Confirmation, now: int)
    requires Consistent(s) && RequestKey(c.identity, c.requestId) in s.requests && Validate(c, limits).None?
    ensures var bound := s.requests[RequestKey(c.identity, c.requestId)];
            var s' := Run(s, limits, ops);
            && bound in s.trades && bound in s'.trades && s'.trades[bound].quote == s.trades[bound].quote
            && Confirm(s', c, limits, now)
            == (s', if c.quote.id == s.trades[bound].quote.id then Ok(Confirmed(s'.trades[bound], false))
                    else Err(IdempotencyConflict))
  {
    var key := RequestKey(c.identity, c.requestId);
    RunKeepsConsistent(s, limits, ops);
    IndexesResolve(s, key, c.quote.id);
    BoundAnswer(s, Run(s, limits, ops), c, key, OverQuota(Run(s, limits, ops).trades, c.session, limits, now), now);
  }

  lemma BoundAnswer(s: Snapshot, s': Snapshot, c: Confirmation, key: string, over: Option<Refusal>, now: int)
    requires Grows(s, s') && key in s.requests && Resolves(s, s.requests, key)
    ensures var bound := s.requests[key];
            && bound in s'.trades && s'.trades[bound].quote == s.trades[bound].quote
            && Settle(s', c, key, over, now)
            == (s', if c.quote.id == s.trades[bound].quote.id then Ok(Confirmed(s'.trades[bound], false))
                    else Err(IdempotencyConflict))
  {
    assert Evolves(s.trades[s.requests[key]], s'.trades[s.requests[key]]);
  }

  // ---------------------------------------------------------------------- quotas

  ghost predicate SessionsWithin(trades: Trades, limits: Limits)
  {
    forall session :: Count(trades, InSession(session)) <= limits.perSession
  }

  /** No closed one-hour window of creation times holds more trades than the hourly limit. */
  ghost predicate HoursWithin(trades: Trades, limits: Limits)
  {
    forall from, to :: to <= from + 3_600_000_000_000 ==> Count(trades, Within(from, to)) <= limits.perHour
  }

  ghost predicate QuotasHold(trades: Trades, limits: Limits)
  {
    && SessionsWithin(trades, limits) && HoursWithin(trades, limits)
    && Count(trades, Unresolved()) <= limits.concurrent
  }

  lemma InsertKeepsQuotas(trades: Trades, limits: Limits, t: Trade, now: int)
    requires QuotasHold(trades, limits) && t.id !in trades && t.createdAt == now
    requires OverQuota(trades, t.session, limits, now).None?
    ensures QuotasHold(trades[t.id := t], limits)
  {
    forall session ensures Count(trades[t.id := t], InSession(session)) <= limits.perSession {
      CountAdded(trades, InSession(session), t.id, t);
    }
    forall from, to | to <= from + HOUR ensures Count(trades[t.id := t], Within(from, to)) <= limits.perHour {
      CountAdded(trades, Within(from, to), t.id, t);
      if from <= now <= to {
        CountSmaller(trades, Within(from, to), trades, Since(now - HOUR));
      }
    }
    CountAdded(trades, Unresolved(), t.id, t);
  }

  lemma EvolvingKeepsQuotas(trades: Trades, trades': Trades, limits: Limits)
    requires QuotasHold(trades, limits) && trades'.Keys == trades.Keys
    requires forall id :: id in trades ==> Evolves(trades[id], trades'[id])
    ensures QuotasHold(trades', limits)
  {
    forall session ensures Count(trades', InSession(session)) <= limits.perSession {
      CountSmaller(trades', InSession(session), trades, InSession(session));
    }
    forall from, to | to <= from + HOUR ensures Count(trades', Within(from, to)) <= limits.perHour {
      CountSmaller(trades', Within(from, to), trades, Within(from, to));
    }
    CountSmaller(trades', Unresolved(), trades, Unresolved());
  }

  lemma SettleTrades(s: Snapshot, c: Confirmation, key: string, over: Option<Refusal>, now: int)
    requires Resolves(s, s.requests, key) && Resolves(s, s.quotes, c.quote.id) && over != Some(IndexInconsistent)
    requires c.quote.id in s.quotes ==> s.trades[s.quotes[c.quote.id]].quote.id == c.quote.id
    ensures Settle(s, c, key, over, now).0.trades == if Creates(s, c, key, over, now) then s.trades[c.intentId := NewTrade(c, now)] else s.trades
  {
    SettleOutcome(s, c, key, over, now);
  }

  lemma ConfirmKeepsQuotas(s: Snapshot, limits: Limits, c: Confirmation, now: int)
    requires Indexed(s) && QuotasHold(s.trades, limits)
    ensures QuotasHold(Confirm(s, c, limits, now).0.trades, limits)
  {
    if Validate(c, limits).None? {
      SettleKeepsQuotas(s, limits, c, RequestKey(c.identity, c.requestId), now);
    }
  }

  lemma SettleKeepsQuotas(s: Snapshot, limits: Limits, c: Confirmation, key: string, now: int)
    requires Indexed(s) && QuotasHold(s.trades, limits)
    ensures QuotasHold(Settle(s, c, key, OverQuota(s.trades, c.session, limits, now), now).0.trades, limits)
  {
    var over := OverQuota(s.trades, c.session, limits, now);
    IndexesResolve(s, key, c.quote.id);
    SettleTrades(s, c, key, over, now);
    if Creates(s, c, key, over, now) { InsertKeepsQuotas(s.trades, limits, NewTrade(c, now), now); }
  }

  lemma ApplyKeepsQuotas(s: Snapshot, limits: Limits, op: Op)
    requires Consistent(s) && QuotasHold(s.trades, limits)
    ensures QuotasHold(Apply(s, limits, op).trades, limits)
  {
    match op
    case ConfirmOp(c, now) => ConfirmKeepsQuotas(s, limits, c, now);
    case DispatchOp(id, now) =>
      DispatchStep(s, id, now);
      EvolvingKeepsQuotas(s.trades, Apply(s, limits, op).trades, limits);
    case UpdateOp(id, u, now) =>
      AmendStep(s, id, u, now);
      EvolvingKeepsQuotas(s.trades, Apply(s, limits, op).trades, limits);
  }

  /** Under fixed limits, whatever the clock reads at each operation, the session, hourly and concurrency quotas
      hold in every reachable state. */
  lemma {:induction false} RunKeepsQuotas(s: Snapshot, limits: Limits, ops: seq<Op>)
    requires Consistent(s) && QuotasHold(s.trades, limits)
    ensures QuotasHold(Run(s, limits, ops).trades, limits)
  {
    if ops != [] {
      RunKeepsQuotas(s, limits, ops[..|ops| - 1]);
      RunKeepsConsistent(s, limits, ops[..|ops| - 1]);
      ApplyKeepsQuotas(Run(s, limits, ops[..|ops| - 1]), limits, ops[|ops| - 1]);
    }
  }

  /** A store that starts empty. */
  lemma FreshStoreRuns(limits: Limits, ops: seq<Op>)
    requires limits.perSession >= 0 && limits.perHour >= 0 && limits.concurrent >= 0
    ensures var s := Run(Snapshot(map[], map[], map[]), limits, ops);
            Consistent(s) && QuotasHold(s.trades, limits)
  {
    var empty := Snapshot(map[], map[], map[]);
    EmptyIsConsistent();
    assert QuotasHold(empty.trades, limits) by {
      forall session ensures Count(empty.trades, InSession(session)) <= limits.perSession {
        assert Where(empty.trades, InSession(session)) == {};
      }
      forall from, to ensures Count(empty.trades, Within(from, to)) <= limits.perHour {
        assert Where(empty.trades, Within(from, to)) == {};
      }
      assert Where(empty.trades, Unresolved()) == {};
    }
    RunKeepsConsistent(empty, limits, ops);
    RunKeepsQuotas(empty, limits, ops);
  }
}
