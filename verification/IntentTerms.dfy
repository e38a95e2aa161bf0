/** The store's operations in plain terms: which transitions there are, what an update writes, what a confirmation must
    satisfy and what it stores. */
module IntentTerms {
  import opened Bytes
  import opened Text
  import opened IntentStore
  import opened IntentRuns

  // ---------------------------------------------------------------------- statuses

  /** The transition graph, edge by edge. */
  lemma TransitionTable(from: TradeStatus, to: TradeStatus)
    ensures ValidTransition(from, to) <==> (from, to) in {
              (Created, PendingSubmit), (Created, Rejected),
              (PendingSubmit, Submitted), (PendingSubmit, Accepted), (PendingSubmit, PartiallyFilled), (PendingSubmit, Filled),
              (PendingSubmit, Rejected), (PendingSubmit, Unknown),
              (Submitted, Accepted), (Submitted, PartiallyFilled), (Submitted, Filled), (Submitted, Rejected), (Submitted, Unknown),
              (Accepted, PartiallyFilled), (Accepted, Filled), (Accepted, PendingCancel), (Accepted, Cancelled), (Accepted, Rejected),
              (Accepted, Unknown),
              (PartiallyFilled, Filled), (PartiallyFilled, PendingCancel), (PartiallyFilled, Cancelled), (PartiallyFilled, Unknown),
              (PendingCancel, Filled), (PendingCancel, Cancelled), (PendingCancel, Unknown),
              (Cancelled, Filled),
              (Unknown, Submitted), (Unknown, Accepted), (Unknown, PartiallyFilled), (Unknown, Filled), (Unknown, Cancelled), (Unknown, Rejected)}
  {
  }

  /** A recognised status is active or terminal and never both; a terminal one is left only from Cancelled, for Filled;
      and Filled can be reached from every active one within two steps. */
  lemma StatusClasses(s: TradeStatus, t: TradeStatus)
    ensures Terminal(s) <==> s == Filled || s == Cancelled || s == Rejected
    ensures !s.Unrecognised? ==> (Active(s) <==> !Terminal(s))
    ensures s.Unrecognised? ==> !Active(s) && !Terminal(s) && !ValidTransition(s, t) && !ValidTransition(t, s)
    ensures Terminal(s) && ValidTransition(s, t) ==> s == Cancelled && t == Filled
    ensures Active(s) ==> ValidTransition(s, Filled) || (ValidTransition(s, PendingSubmit) && ValidTransition(PendingSubmit, Filled))
  {
  }

  // ------------------------------------------------------------------------ updates

  /** A non-empty detail replaces the stored one; any other leaves it as it is. */
  lemma DetailsCopied(target: map<Detail, string>, values: map<Detail, string>, d: Detail)
    ensures var copied := CopyIfSet(target, values);
            if d in values && values[d] != "" then d in copied && copied[d] == values[d]
            else (d in copied <==> d in target) && (d in target ==> copied[d] == target[d])
  {
  }

  /** What an accepted update writes, and what it leaves alone. */
  ghost predicate Writes(t: Trade, u: Update, now: int, t': Trade)
  {
    && (forall d :: d in u.details && u.details[d] != "" ==> d in t'.details && t'.details[d] == u.details[d])
    && (forall d :: d in t.details && !(d in u.details && u.details[d] != "") ==> d in t'.details && t'.details[d] == t.details[d])
    && t'.fees == (match u.fees case Some(fees) => fees case None => t.fees)
    && t'.publicError == (if u.clearPublicError then "" else if u.publicError != "" then u.publicError else t.publicError)
    && t'.lastCheckedAt == (if u.checked then Some(now) else t.lastCheckedAt)
    && t'.updatedAt == now
    && t'.status == (match u.status case Some(next) => next case None => t.status)
    && (t'.status != t.status ==> |t'.lifecycle| == |t.lifecycle| + 1
                                  && t'.lifecycle[|t.lifecycle|]
                                  == Event(t'.status, now, if u.lifecycleDetail != "" then u.lifecycleDetail else u.publicError, u.requestId))
    && (t'.status == t.status ==> t'.lifecycle == t.lifecycle)
    && t'.sendAttempted == t.sendAttempted && t'.id == t.id && t'.quote == t.quote && t'.clientOrderId == t.clientOrderId
  }

  lemma UpdateWrites(t: Trade, u: Update, now: int)
    requires UpdateTrade(t, u, now).Ok?
    ensures Writes(t, u, now, UpdateTrade(t, u, now).value)
  {
    forall d ensures if d in u.details && u.details[d] != "" then d in CopyIfSet(t.details, u.details) && CopyIfSet(t.details, u.details)[d] == u.details[d] else true {
      DetailsCopied(t.details, u.details, d);
    }
  }

  /** An update is refused exactly when it asks for a status off the graph. */
  lemma UpdateRefused(t: Trade, u: Update, now: int)
    ensures UpdateTrade(t, u, now).Err? <==> u.status.Some? && u.status.value != t.status && !ValidTransition(t.status, u.status.value)
  {
  }

  // ------------------------------------------------------------------- confirmations

  /** A confirmation with a blank part, for another identity's quote, for a quote that is not executable, or under limits
      that are not positive is refused and changes nothing. */
  lemma ConfirmRefuses(s: Snapshot, c: Confirmation, limits: Limits, now: int)
    ensures Trim(c.intentId) == "" || Trim(c.identity) == "" || Trim(c.session) == "" || Trim(c.requestId) == ""
            || Trim(c.clientOrderId) == "" || Trim(c.quote.id) == "" || Trim(c.quote.identity) == ""
            ==> Confirm(s, c, limits, now) == (s, Err(InvalidConfirmation))
    ensures c.identity != c.quote.identity || !c.quote.executable || limits.perSession <= 0 || limits.perHour <= 0 || limits.concurrent <= 0
            ==> Confirm(s, c, limits, now).1.Err? && Confirm(s, c, limits, now).0 == s
  {
    var parts := [c.intentId, c.identity, c.session, c.requestId, c.clientOrderId, c.quote.id, c.quote.identity];
    assert c.intentId in parts && c.identity in parts && c.session in parts && c.requestId in parts;
    assert c.clientOrderId in parts && c.quote.id in parts && c.quote.identity in parts;
  }

  /** A valid confirmation with nothing bound to its request or quote, check by check: the quote must be live, the ID new, and
      the trades of the session, of the hour up to now and of later, and those still active must be fewer than allowed. */
  lemma ConfirmVerdict(s: Snapshot, c: Confirmation, limits: Limits, now: int)
    requires Indexed(s) && Validate(c, limits).None? && RequestKey(c.identity, c.requestId) !in s.requests && c.quote.id !in s.quotes
    ensures var r := Confirm(s, c, limits, now).1;
            var ofSession := set id | id in s.trades && s.trades[id].session == c.session;
            var ofHour := set id | id in s.trades && s.trades[id].createdAt >= now - 3_600_000_000_000;
            var active := set id | id in s.trades && s.trades[id].status !in {Filled, Cancelled, Rejected} && !s.trades[id].status.Unrecognised?;
            if now >= c.quote.expiresAt then r == Err(QuoteExpired)
            else if c.intentId in s.trades then r == Err(IntentIdConflict)
            else if |ofSession| >= limits.perSession then r == Err(SessionTradeLimit)
            else if |ofHour| >= limits.perHour then r == Err(HourlyTradeLimit)
            else if |active| >= limits.concurrent then r == Err(AccountBusy)
            else r.Ok? && r.value.created
  {
    assert Where(s.trades, InSession(c.session)) == set id | id in s.trades && s.trades[id].session == c.session;
    assert Where(s.trades, Since(now - HOUR)) == set id | id in s.trades && s.trades[id].createdAt >= now - 3_600_000_000_000;
    ActiveTrades(s.trades);
  }

  lemma ActiveTrades(trades: Trades)
    ensures Where(trades, Unresolved()) == set id | id in trades && trades[id].status !in {Filled, Cancelled, Rejected} && !trades[id].status.Unrecognised?
  {
    forall id | id in trades
      ensures Unresolved()(trades[id]) <==> trades[id].status !in {Filled, Cancelled, Rejected} && !trades[id].status.Unrecognised?
    {
      StatusClasses(trades[id].status, Created);
    }
  }

  /** A trade as a confirmation creates it: the confirmation's own data, created now, not yet marked, not checked, not ended. */
  ghost predicate Carries(t: Trade, c: Confirmation, now: int)
  {
    && t.id == c.intentId && t.identity == c.identity && t.session == c.session && t.requestId == c.requestId
    && t.clientOrderId == c.clientOrderId && t.quote == c.quote
    && t.status == Created && !t.sendAttempted && t.createdAt == now && t.updatedAt == now
    && t.submittedAt == None && t.terminalAt == None && t.lastCheckedAt == None && t.publicError == "" && t.fees == []
    && t.lifecycle == [Event(Created, now, "", "")]
    && t.details == map[FillDetailsStatus := "pending", FeeDetailsStatus := "pending", BalanceSyncStatus := "pending"]
  }

  /** A creation stores that trade and nothing else, under its ID, its request key and its quote. */
  lemma CreationStores(s: Snapshot, c: Confirmation, limits: Limits, now: int)
    requires Indexed(s)
    ensures var (s', r) := Confirm(s, c, limits, now);
            r.Ok? && r.value.created ==>
              && Carries(r.value.trade, c, now) && s'.trades == s.trades[c.intentId := r.value.trade]
              && s'.quotes == s.quotes[c.quote.id := c.intentId]
              && s'.requests == s.requests[Trim(c.identity) + ['\0'] + Trim(c.requestId) := c.intentId]
  {
    ConfirmCreatesExactly(s, c, limits, now);
  }

  // ----------------------------------------------------------------------- ownership

  /** Every stored trade belongs to the identity its quote was made for, and its quote could be executed. */
  ghost predicate Owned(s: Snapshot)
  {
    forall id :: id in s.trades ==> s.trades[id].identity == s.trades[id].quote.identity && s.trades[id].quote.executable
  }

  lemma ApplyKeepsOwned(s: Snapshot, limits: Limits, op: Op)
    requires Consistent(s) && Owned(s)
    ensures Owned(Apply(s, limits, op))
  {
    match op
    case ConfirmOp(c, now) => ConfirmKeepsOwned(s, c, limits, now);
    case DispatchOp(id, now) =>
      DispatchStep(s, id, now);
      EvolvingKeepsOwned(s, Dispatch(s, id, now).0);
    case UpdateOp(id, u, now) =>
      AmendStep(s, id, u, now);
      EvolvingKeepsOwned(s, Amend(s, id, u, now).0);
  }

  lemma EvolvingKeepsOwned(s: Snapshot, s': Snapshot)
    requires Owned(s) && Grows(s, s') && s'.trades.Keys == s.trades.Keys
    ensures Owned(s')
  {
    forall id | id in s'.trades ensures s'.trades[id].identity == s'.trades[id].quote.identity && s'.trades[id].quote.executable {
      assert Evolves(s.trades[id], s'.trades[id]);
    }
  }

  lemma ConfirmKeepsOwned(s: Snapshot, c: Confirmation, limits: Limits, now: int)
    requires Indexed(s) && Owned(s)
    ensures Owned(Confirm(s, c, limits, now).0)
  {
    ConfirmLeavesTrades(s, c, limits, now);
    CreationStores(s, c, limits, now);
    ConfirmRefuses(s, c, limits, now);
  }

  lemma ConfirmLeavesTrades(s: Snapshot, c: Confirmation, limits: Limits, now: int)
    requires Indexed(s)
    ensures var (s', r) := Confirm(s, c, limits, now); !(r.Ok? && r.value.created) ==> s'.trades == s.trades
  {
    if Validate(c, limits).None? {
      var key, over := RequestKey(c.identity, c.requestId), OverQuota(s.trades, c.session, limits, now);
      IndexesResolve(s, key, c.quote.id);
      SettleOutcome(s, c, key, over, now);
    }
  }

  lemma {:induction false} RunKeepsOwned(limits: Limits, ops: seq<Op>)
    ensures Owned(Run(Snapshot(map[], map[], map[]), limits, ops))
  {
    var empty := Snapshot(map[], map[], map[]);
    if ops != [] {
      var init := ops[..|ops| - 1];
      EmptyIsConsistent();
      RunKeepsConsistent(empty, limits, init);
      RunKeepsOwned(limits, init);
      ApplyKeepsOwned(Run(empty, limits, init), limits, ops[|ops| - 1]);
    }
  }
}
