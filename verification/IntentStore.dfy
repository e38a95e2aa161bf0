/** The durable store of quick trades: one map of trades under two indexes, demo quotas, and a lifecycle graph.
    Each operation is one atomic load-change-save of the snapshot file, saved only when it succeeds. */
module IntentStore {
  import opened Bytes
  import opened Text

  // --------------------------------------------------------------------- statuses

  /** Status texts; `Unrecognised` stands for every text that is not one of the ten constants. */
  datatype TradeStatus =
    | Created | PendingSubmit | Submitted | Accepted | PartiallyFilled | Filled
    | PendingCancel | Cancelled | Rejected | Unknown | Unrecognised(text: string)

  predicate Active(s: TradeStatus)
  {
    s in {Created, PendingSubmit, Submitted, Accepted, PartiallyFilled, PendingCancel, Unknown}
  }

  predicate Terminal(s: TradeStatus) { s in {Filled, Cancelled, Rejected} }

  /** Statuses that show the order to have reached the venue. */
  predicate Reached(s: TradeStatus) { s in {Submitted, Accepted, PartiallyFilled, Filled} }

  function Allowed(from: TradeStatus): set<TradeStatus>
  {
    match from
    case Created => {PendingSubmit, Rejected}
    case PendingSubmit => {Submitted, Accepted, PartiallyFilled, Filled, Rejected, Unknown}
    case Submitted => {Accepted, PartiallyFilled, Filled, Rejected, Unknown}
    case Accepted => {PartiallyFilled, Filled, PendingCancel, Cancelled, Rejected, Unknown}
    case PartiallyFilled => {Filled, PendingCancel, Cancelled, Unknown}
    case PendingCancel => {Cancelled, Unknown}
    case Unknown => {Submitted, Accepted, PartiallyFilled, Filled, Cancelled, Rejected}
    case _ => {}
  }

  predicate ValidTransition(from: TradeStatus, to: TradeStatus)
  {
    ((from == PendingCancel || from == Cancelled) && to == Filled) || to in Allowed(from)
  }

  // ---------------------------------------------------------------------- entities

  /** A quote as far as the store looks at it; its priced terms are carried unread. */
  datatype Quote = Quote(id: string, identity: string, venue: string, expiresAt: int, executable: bool, terms: string)

  datatype Event = Event(status: TradeStatus, at: int, detail: string, requestId: string)

  datatype FeeLine = FeeLine(asset: string, amount: string, kind: string)

  /** The text fields of a trade that an update overwrites only with non-empty text. */
  datatype Detail =
    | RawVenueStatus | ResultStatus | VenueOrderId | FilledBaseQty | AveragePrice | GrossSourceSpent | GrossDestinationReceived
    | NetDestinationReceived | ActualSourceDebit | FillDetailsStatus | FeeDetailsStatus | BalanceSyncStatus

  datatype Trade = Trade(
    id: string, identity: string, session: string, requestId: string, quote: Quote, clientOrderId: string,
    status: TradeStatus, sendAttempted: bool, details: map<Detail, string>, fees: seq<FeeLine>,
    createdAt: int, updatedAt: int, submittedAt: Option<int>, terminalAt: Option<int>, lastCheckedAt: Option<int>,
    publicError: string, lifecycle: seq<Event>)

  datatype Update = Update(
    status: Option<TradeStatus>, details: map<Detail, string>, fees: Option<seq<FeeLine>>,
    publicError: string, clearPublicError: bool, lifecycleDetail: string, requestId: string, checked: bool)

  datatype Confirmation = Confirmation(
    intentId: string, identity: string, session: string, requestId: string, clientOrderId: string, quote: Quote)

  datatype Limits = Limits(perSession: int, perHour: int, concurrent: int)

  datatype Refusal =
    | InvalidConfirmation | QuoteOwnershipMismatch | QuoteNotExecutable | InvalidDemoLimits | IdempotencyConflict | QuoteExpired
    | IntentIdConflict | SessionTradeLimit | HourlyTradeLimit | AccountBusy | IndexInconsistent
    | TradeNotFound | CannotDispatch | InvalidTransition

  type Trades = map<string, Trade>
  type Index = map<string, string>

  datatype Snapshot = Snapshot(trades: Trades, requests: Index, quotes: Index)

  datatype Confirmed = Confirmed(trade: Trade, created: bool)

  /** Nanoseconds in an hour. */
  const HOUR: int := 3_600_000_000_000

  // ---------------------------------------------------------------- request keys

  function RequestKey(identity: string, requestId: string): string { Trim(identity) + ['\0'] + Trim(requestId) }

  /** `longer` is `shorter` followed by NUL and a text that the request behind `shorter` starts with. */
  ghost predicate Overlaps(shorter: string, request: string, longer: string, request': string)
  {
    exists text: string :: longer == shorter + ['\0'] + text && request == text + ['\0'] + request'
  }

  /** Exactly when two requests share a key: their trimmed parts agree, or one trimmed identity runs on past a NUL
      into what is the start of the other request. */
  lemma RequestKeysExactly(identity: string, requestId: string, identity': string, requestId': string)
    ensures var a, r, b, r' := Trim(identity), Trim(requestId), Trim(identity'), Trim(requestId');
            RequestKey(identity, requestId) == RequestKey(identity', requestId')
            <==> (a == b && r == r') || Overlaps(a, r, b, r') || Overlaps(b, r', a, r)
  {
    JoinedExactly(Trim(identity), Trim(requestId), Trim(identity'), Trim(requestId'));
  }

  lemma JoinedExactly(a: string, r: string, b: string, r': string)
    ensures a + ['\0'] + r == b + ['\0'] + r' <==> (a == b && r == r') || Overlaps(a, r, b, r') || Overlaps(b, r', a, r)
  {
    if a + ['\0'] + r == b + ['\0'] + r' {
      if |a| == |b| {
        SameSplit(a, r, b, r');
      } else if |a| < |b| {
        ShorterOverlaps(a, r, b, r');
      } else {
        ShorterOverlaps(b, r', a, r);
      }
    } else {
      NoOverlap(a, r, b, r');
      NoOverlap(b, r', a, r);
    }
  }

  lemma SameSplit(a: string, r: string, b: string, r': string)
    requires a + ['\0'] + r == b + ['\0'] + r' && |a| == |b|
    ensures a == b && r == r'
  {
    var k := a + ['\0'] + r;
    assert a == k[..|a|] && b == k[..|b|] && r == k[|a| + 1..] && r' == k[|b| + 1..];
  }

  lemma ShorterOverlaps(a: string, r: string, b: string, r': string)
    requires a + ['\0'] + r == b + ['\0'] + r' && |a| < |b|
    ensures Overlaps(a, r, b, r')
  {
    var k := a + ['\0'] + r;
    var text := b[|a| + 1..];
    assert b == k[..|b|] && a == k[..|a|] && k[|a|] == '\0';
    assert b == a + ['\0'] + text;
    assert r == k[|a| + 1..] && k == b + ['\0'] + r';
    assert r == text + ['\0'] + r';
  }

  lemma NoOverlap(a: string, r: string, b: string, r': string)
    requires a + ['\0'] + r != b + ['\0'] + r'
    ensures !Overlaps(a, r, b, r')
  {
    forall text: string | b == a + ['\0'] + text ensures r != text + ['\0'] + r' {
      assert (a + ['\0'] + text) + ['\0'] + r' == a + ['\0'] + (text + ['\0'] + r');
    }
  }

  /** So identities free of NUL, as an environment variable supplies them, keep all requests apart. */
  lemma RequestKeysDistinguish(identity: string, requestId: string, identity': string, requestId': string)
    requires '\0' !in Trim(identity) && '\0' !in Trim(identity')
    ensures RequestKey(identity, requestId) == RequestKey(identity', requestId')
       <==> Trim(identity) == Trim(identity') && Trim(requestId) == Trim(requestId')
  {
    RequestKeysExactly(identity, requestId, identity', requestId');
    NulFreeNoOverlap(Trim(identity), Trim(requestId), Trim(identity'), Trim(requestId'));
    NulFreeNoOverlap(Trim(identity'), Trim(requestId'), Trim(identity), Trim(requestId));
  }

  lemma NulFreeNoOverlap(a: string, r: string, b: string, r': string)
    requires '\0' !in b
    ensures !Overlaps(a, r, b, r')
  {
    forall text: string ensures b != a + ['\0'] + text {
      assert (a + ['\0'] + text)[|a|] == '\0';
    }
  }

  /** At the store's own interface, where any text can be an identity, two requests can share a key. */
  lemma RequestKeysCollide()
    ensures RequestKey("a\0b", "c") == RequestKey("a", "b\0c")
  {
    assert TrimLeft("a\0b") == "a\0b" && TrimRight("a\0b") == "a\0b";
    assert TrimLeft("b\0c") == "b\0c" && TrimRight("b\0c") == "b\0c";
    assert TrimLeft("a") == "a" && TrimRight("a") == "a";
    assert TrimLeft("c") == "c" && TrimRight("c") == "c";
    assert "a\0b" + ['\0'] + "c" == "a" + ['\0'] + "b\0c";
  }

  // --------------------------------------------------------------- status changes

  /** `applyTradeStatus`: no change when the status is already held, refusal off the graph. */
  function ApplyStatus(t: Trade, next: TradeStatus, detail: string, requestId: string, now: int): (r: Result<Trade, Refusal>)
    ensures r.Ok? <==> t.status == next || ValidTransition(t.status, next)
    ensures r.Ok? ==> r.value.status == next
  {
    if t.status == next then Ok(t)
    else if !ValidTransition(t.status, next) then Err(InvalidTransition)
    else Ok(t.(status := next, updatedAt := now,
               submittedAt := if Reached(next) && t.submittedAt.None? then Some(now) else t.submittedAt,
               terminalAt := if Terminal(next) then Some(now) else t.terminalAt,
               lifecycle := t.lifecycle + [Event(next, now, detail, requestId)]))
  }

  function CopyIfSet(target: map<Detail, string>, values: map<Detail, string>): map<Detail, string>
  {
    target + map d | d in values && values[d] != "" :: values[d]
  }

  function MarkTrade(t: Trade, now: int): Result<Trade, Refusal>
  {
    if t.sendAttempted then Ok(t)
    else if t.status != Created then Err(CannotDispatch)
    else ApplyStatus(t.(sendAttempted := true), PendingSubmit, "", "", now)
  }

  function UpdateTrade(t: Trade, u: Update, now: int): Result<Trade, Refusal>
  {
    var detail := if u.lifecycleDetail == "" then u.publicError else u.lifecycleDetail;
    var moved := if u.status.None? then Ok(t) else ApplyStatus(t, u.status.value, detail, u.requestId, now);
    if moved.Err? then moved
    else
      Ok(moved.value.(
         details := CopyIfSet(t.details, u.details),
         fees := if u.fees.Some? then u.fees.value else t.fees,
         publicError := if u.clearPublicError then "" else if u.publicError != "" then u.publicError else t.publicError,
         lastCheckedAt := if u.checked then Some(now) else t.lastCheckedAt,
         updatedAt := now))
  }

  // ------------------------------------------------------------------- counting

  ghost function Where(trades: Trades, p: Trade -> bool): set<string> { set id | id in trades && p(trades[id]) }

  ghost function Count(trades: Trades, p: Trade -> bool): nat { |Where(trades, p)| }

  function InSession(session: string): Trade -> bool { (t: Trade) => t.session == session }
  function Since(cutoff: int): Trade -> bool { (t: Trade) => cutoff <= t.createdAt }
  function Within(from: int, to: int): Trade -> bool { (t: Trade) => from <= t.createdAt <= to }
  function Unresolved(): Trade -> bool { (t: Trade) => Active(t.status) }

  lemma CountAdded(trades: Trades, p: Trade -> bool, id: string, t: Trade)
    requires id !in trades
    ensures Count(trades[id := t], p) == Count(trades, p) + if p(t) then 1 else 0
  {
    assert Where(trades[id := t], p) == if p(t) then Where(trades, p) + {id} else Where(trades, p);
  }

  lemma {:induction false} SubsetIsSmaller(a: set<string>, b: set<string>)
    requires a <= b
    ensures |a| <= |b|
  {
    assert b == a + (b - a);
  }

  lemma CountSmaller(trades: Trades, p: Trade -> bool, trades': Trades, p': Trade -> bool)
    requires forall id :: id in trades && p(trades[id]) ==> id in trades' && p'(trades'[id])
    ensures Count(trades, p) <= Count(trades', p')
  {
    SubsetIsSmaller(Where(trades, p), Where(trades', p'));
  }

  /** The counting loop of `ConfirmQuickTrade`. */
  method CountTrades(trades: Trades, session: string, cutoff: int) returns (sessionCount: nat, hourCount: nat, activeCount: nat)
    ensures sessionCount == Count(trades, InSession(session))
    ensures hourCount == Count(trades, Since(cutoff))
    ensures activeCount == Count(trades, Unresolved())
  {
    sessionCount, hourCount, activeCount := 0, 0, 0;
    var rest := trades.Keys;
    ghost var seen: Trades := map[];
    while rest != {}
      invariant rest <= trades.Keys && seen.Keys == trades.Keys - rest
      invariant forall id :: id in seen ==> seen[id] == trades[id]
      invariant sessionCount == Count(seen, InSession(session))
      invariant hourCount == Count(seen, Since(cutoff))
      invariant activeCount == Count(seen, Unresolved())
    {
      var id :| id in rest;
      var trade := trades[id];
      if trade.session == session { sessionCount := sessionCount + 1; }
      if !(trade.createdAt < cutoff) { hourCount := hourCount + 1; }
      if Active(trade.status) { activeCount := activeCount + 1; }
      CountAdded(seen, InSession(session), id, trade);
      CountAdded(seen, Since(cutoff), id, trade);
      CountAdded(seen, Unresolved(), id, trade);
      seen := seen[id := trade];
      rest := rest - {id};
    }
    assert seen == trades;
  }

  // ----------------------------------------------------------------- operations

  function Validate(c: Confirmation, limits: Limits): Option<Refusal>
  {
    if exists f | f in [c.intentId, c.identity, c.session, c.requestId, c.clientOrderId, c.quote.id, c.quote.identity] :: Blank(f) then
      Some(InvalidConfirmation)
    else if c.identity != c.quote.identity then Some(QuoteOwnershipMismatch)
    else if !c.quote.executable then Some(QuoteNotExecutable)
    else if limits.perSession <= 0 || limits.perHour <= 0 || limits.concurrent <= 0 then Some(InvalidDemoLimits)
    else None
  }

  function NewTrade(c: Confirmation, now: int): Trade
  {
    Trade(c.intentId, c.identity, c.session, c.requestId, c.quote, c.clientOrderId, Created, false,
          map[FillDetailsStatus := "pending", FeeDetailsStatus := "pending", BalanceSyncStatus := "pending"], [],
          now, now, None, None, None, "", [Event(Created, now, "", "")])
  }

  /** A Go map read: the empty text when the key is absent. */
  function At(index: Index, key: string): string { if key in index then index[key] else "" }

  /** The quota that refuses a further trade now, if any. */
  ghost function OverQuota(trades: Trades, session: string, limits: Limits, now: int): Option<Refusal>
  {
    if Count(trades, InSession(session)) >= limits.perSession then Some(SessionTradeLimit)
    else if Count(trades, Since(now - HOUR)) >= limits.perHour then Some(HourlyTradeLimit)
    else if Count(trades, Unresolved()) >= limits.concurrent then Some(AccountBusy)
    else None
  }

  function Insert(s: Snapshot, key: string, t: Trade): Snapshot
  {
    Snapshot(s.trades[t.id := t], s.requests[key := t.id], s.quotes[t.quote.id := t.id])
  }

  /** The answer to a valid confirmation, given its request key and the quota it would exceed, if any. */
  function Settle(s: Snapshot, c: Confirmation, key: string, over: Option<Refusal>, now: int): (Snapshot, Result<Confirmed, Refusal>)
  {
    if At(s.requests, key) != "" then
      var id := At(s.requests, key);
      if id !in s.trades then (s, Err(IndexInconsistent))
      else if s.trades[id].quote.id != c.quote.id then (s, Err(IdempotencyConflict))
      else (s, Ok(Confirmed(s.trades[id], false)))
    else if At(s.quotes, c.quote.id) != "" then
      var id := At(s.quotes, c.quote.id);
      if id !in s.trades then (s, Err(IndexInconsistent))
      else (s.(requests := s.requests[key := id]), Ok(Confirmed(s.trades[id], false)))
    else if now >= c.quote.expiresAt then (s, Err(QuoteExpired))
    else if c.intentId in s.trades then (s, Err(IntentIdConflict))
    else if over.Some? then (s, Err(over.value))
    else (Insert(s, key, NewTrade(c, now)), Ok(Confirmed(NewTrade(c, now), true)))
  }

  /** `ConfirmQuickTrade` as a function of the snapshot. */
  ghost function Confirm(s: Snapshot, c: Confirmation, limits: Limits, now: int): (Snapshot, Result<Confirmed, Refusal>)
  {
    var invalid := Validate(c, limits);
    if invalid.Some? then (s, Err(invalid.value))
    else Settle(s, c, RequestKey(c.identity, c.requestId), OverQuota(s.trades, c.session, limits, now), now)
  }

  /** `updateQuickTrade`: replace one trade by the result of a change, or change nothing. */
  function Change(s: Snapshot, id: string, changed: Result<Trade, Refusal>): (Snapshot, Result<Trade, Refusal>)
  {
    if id !in s.trades then (s, Err(TradeNotFound))
    else if changed.Err? then (s, changed)
    else (s.(trades := s.trades[id := changed.value]), changed)
  }

  function Dispatch(s: Snapshot, id: string, now: int): (Snapshot, Result<Trade, Refusal>)
  {
    Change(s, id, if id in s.trades then MarkTrade(s.trades[id], now) else Err(TradeNotFound))
  }

  function Amend(s: Snapshot, id: string, u: Update, now: int): (Snapshot, Result<Trade, Refusal>)
  {
    Change(s, id, if id in s.trades then UpdateTrade(s.trades[id], u, now) else Err(TradeNotFound))
  }

  /** The store as the program drives it. */
  class Store {
    var trades: Trades
    var requests: Index
    var quotes: Index

    ghost function State(): Snapshot
      reads this
    {
      Snapshot(trades, requests, quotes)
    }

    constructor ()
      ensures State() == Snapshot(map[], map[], map[])
    {
      trades, requests, quotes := map[], map[], map[];
    }

    method ConfirmQuickTrade(c: Confirmation, limits: Limits, now: int) returns (r: Result<Confirmed, Refusal>)
      modifies this
      ensures (State(), r) == Confirm(old(State()), c, limits, now)
    {
      var invalid := Validate(c, limits);
      if invalid.Some? { return Err(invalid.value); }
      var key := RequestKey(c.identity, c.requestId);
      var id := At(requests, key);
      if id != "" {
        if id !in trades { return Err(IndexInconsistent); }
        if trades[id].quote.id != c.quote.id { return Err(IdempotencyConflict); }
        return Ok(Confirmed(trades[id], false));
      }
      id := At(quotes, c.quote.id);
      if id != "" {
        if id !in trades { return Err(IndexInconsistent); }
        requests := requests[key := id];
        return Ok(Confirmed(trades[id], false));
      }
      if !(now < c.quote.expiresAt) { return Err(QuoteExpired); }
      if c.intentId in trades { return Err(IntentIdConflict); }
      var sessionCount, hourCount, activeCount := CountTrades(trades, c.session, now - HOUR);
      if sessionCount >= limits.perSession { return Err(SessionTradeLimit); }
      if hourCount >= limits.perHour { return Err(HourlyTradeLimit); }
      if activeCount >= limits.concurrent { return Err(AccountBusy); }
      var trade := NewTrade(c, now);
      trades := trades[trade.id := trade];
      requests := requests[key := trade.id];
      quotes := quotes[trade.quote.id := trade.id];
      return Ok(Confirmed(trade, true));
    }

    method MarkQuickTradeDispatching(id: string, now: int) returns (r: Result<Trade, Refusal>)
      modifies this`trades
      ensures (State(), r) == Dispatch(old(State()), id, now)
    {
      if id !in trades { return Err(TradeNotFound); }
      var trade := trades[id];
      if !trade.sendAttempted {
        if trade.status != Created { return Err(CannotDispatch); }
        trade := trade.(sendAttempted := true);
        var moved := ApplyStatus(trade, PendingSubmit, "", "", now);
        if moved.Err? { return moved; }
        trade := moved.value;
      }
      trades := trades[id := trade];
      return Ok(trade);
    }

    method UpdateQuickTrade(id: string, u: Update, now: int) returns (r: Result<Trade, Refusal>)
      modifies this`trades
      ensures (State(), r) == Amend(old(State()), id, u, now)
    {
      if id !in trades { return Err(TradeNotFound); }
      var trade := trades[id];
      if u.status.Some? {
        var detail := if u.lifecycleDetail == "" then u.publicError else u.lifecycleDetail;
        var moved := ApplyStatus(trade, u.status.value, detail, u.requestId, now);
        if moved.Err? { return moved; }
        trade := moved.value;
      }
      trade := trade.(details := CopyIfSet(trade.details, u.details));
      if u.fees.Some? { trade := trade.(fees := u.fees.value); }
      if u.clearPublicError {
        trade := trade.(publicError := "");
      } else if u.publicError != "" {
        trade := trade.(publicError := u.publicError);
      }
      if u.checked { trade := trade.(lastCheckedAt := Some(now)); }
      trade := trade.(updatedAt := now);
      trades := trades[id := trade];
      return Ok(trade);
    }
  }
}
