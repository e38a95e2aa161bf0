/** Executions may arrive in any sequence and any number of times: the order ends up the same. */
module OrderExecutions {
  import opened Bytes
  import opened DecimalText
  import opened OrderState

  /** An execution report, with the outcome of the search for its order and the clock reading at its arrival. */
  datatype Arrival = Arrival(execution: Execution, found: Option<string>, clock: int)

  /** `ApplyExecution` for each report in turn; a refused one changes nothing. */
  ghost function Deliver(s: Snapshot, arrivals: seq<Arrival>): Snapshot
  {
    if arrivals == [] then s
    else
      var before, last := Deliver(s, arrivals[..|arrivals| - 1]), arrivals[|arrivals| - 1];
      if last.found.Some? && last.found.value !in before.orders then before
      else
        match ExecuteAt(before, last.found, last.execution, last.clock)
        case Ok(after) => after
        case Err(_) => before
  }

  /** Each search returned what `findOrder` may return on the orders of its moment. */
  ghost predicate Searched(s: Snapshot, arrivals: seq<Arrival>)
  {
    arrivals == [] ||
    (var init, last := arrivals[..|arrivals| - 1], arrivals[|arrivals| - 1];
     && Searched(s, init)
     && IsFound(Deliver(s, init).orders, last.found, last.execution.orderId, last.execution.link, last.execution.account))
  }

  /** Executions applied to the order under `key`; a refused one changes nothing. */
  function ExecuteAll(s: Snapshot, key: string, arrivals: seq<Arrival>): (r: Snapshot)
    requires key in s.orders
    ensures key in r.orders
  {
    if arrivals == [] then s
    else
      var before := ExecuteAll(s, key, arrivals[..|arrivals| - 1]);
      var last := arrivals[|arrivals| - 1];
      match ExecuteAt(before, Some(key), last.execution, last.clock)
      case Ok(after) => after
      case Err(_) => before
  }

  /** `key` names the only order that the execution matches. */
  ghost predicate OnlyMatch(orders: map<string, Order>, key: string, x: Execution)
  {
    && key in orders && Matches(orders[key], x.orderId, x.link, x.account)
    && forall k :: k in orders && Matches(orders[k], x.orderId, x.link, x.account) ==> k == key
  }

  /** Then every search for it finds `key`, before and after any executions are applied there. */
  lemma {:induction false} SearchSettled(s: Snapshot, key: string, arrivals: seq<Arrival>, x: Execution, found: Option<string>)
    requires OnlyMatch(s.orders, key, x)
    ensures OnlyMatch(ExecuteAll(s, key, arrivals).orders, key, x)
    ensures IsFound(ExecuteAll(s, key, arrivals).orders, found, x.orderId, x.link, x.account) <==> found == Some(key)
  {
    if arrivals != [] {
      SearchSettled(s, key, arrivals[..|arrivals| - 1], x, found);
    }
  }

  ghost predicate AllMatchOnly(orders: map<string, Order>, key: string, arrivals: seq<Arrival>)
  {
    forall i :: 0 <= i < |arrivals| ==> OnlyMatch(orders, key, arrivals[i].execution)
  }

  /** So reports that match one order only are all applied to it. */
  lemma {:induction false} DeliverIsExecuteAll(s: Snapshot, key: string, arrivals: seq<Arrival>)
    requires key in s.orders && AllMatchOnly(s.orders, key, arrivals) && Searched(s, arrivals)
    ensures Deliver(s, arrivals) == ExecuteAll(s, key, arrivals)
  {
    if arrivals != [] {
      var init, last := arrivals[..|arrivals| - 1], arrivals[|arrivals| - 1];
      DeliverIsExecuteAll(s, key, init);
      SearchSettled(s, key, init, last.execution, last.found);
    }
  }

  // ------------------------------------------------------------------------- totals

  function QtyOf(x: Execution): Dec { match ParseDecimal(x.qty) case Some(d) => d case None => Dec(0, 0) }

  /** `start` plus the quantities of a set of executions, each counted once. */
  ghost function Total(start: Dec, news: map<string, Execution>): Dec
    decreases |news|
  {
    if news == map[] then start
    else
      var k :| k in news.Keys;
      Add(Total(start, news - {k}), QtyOf(news[k]))
  }

  lemma AddSwapped(d: Dec, x: Dec, y: Dec, dx: Dec, dy: Dec)
    requires dx == Add(d, x) && dy == Add(d, y)
    ensures Add(dx, y) == Add(dy, x)
  {
    AddSwap(d, x, y);
  }

  /** The total does not depend on which execution is taken first. */
  lemma {:induction false} TotalInsert(start: Dec, news: map<string, Execution>, k: string, x: Execution)
    requires k !in news
    ensures Total(start, news[k := x]) == Add(Total(start, news), QtyOf(x))
    decreases |news|
  {
    var all := news[k := x];
    assert all != map[] by { assert k in all; }
    var first :| first in all.Keys && Total(start, all) == Add(Total(start, all - {first}), QtyOf(all[first]));
    if first == k {
      assert all - {k} == news;
    } else {
      var rest := news - {first};
      assert all - {first} == rest[k := x];
      assert news == rest[first := news[first]];
      TotalInsert(start, rest, k, x);
      TotalInsert(start, rest, first, news[first]);
      AddSwapped(Total(start, rest), QtyOf(x), QtyOf(news[first]), Total(start, rest[k := x]), Total(start, news));
    }
  }

  /** Only the quantities under the keys matter. */
  lemma {:induction false} TotalCongruent(start: Dec, news: map<string, Execution>, news': map<string, Execution>)
    requires news.Keys == news'.Keys && forall k :: k in news ==> QtyOf(news[k]) == QtyOf(news'[k])
    ensures Total(start, news) == Total(start, news')
    decreases |news|
  {
    if news.Keys == {} {
      assert news == map[] && news' == map[];
    } else {
      var k :| k in news.Keys;
      TotalPeel(start, news, k);
      TotalPeel(start, news', k);
      FewerNews(news, k);
      TotalCongruent(start, news - {k}, news' - {k});
    }
  }

  lemma FewerNews(news: map<string, Execution>, k: string)
    requires k in news
    ensures |news - {k}| < |news|
  {
    assert |news| == |news.Keys| && (news - {k}).Keys == news.Keys - {k};
  }

  /** Any one execution may be counted last. */
  lemma TotalPeel(start: Dec, news: map<string, Execution>, k: string)
    requires k in news
    ensures Total(start, news) == Add(Total(start, news - {k}), QtyOf(news[k]))
  {
    assert news == (news - {k})[k := news[k]];
    TotalInsert(start, news - {k}, k, news[k]);
  }

  // --------------------------------------------------------------------- closed form

  predicate Startable(o: Order)
  {
    o.status in {Unknown, PendingSubmit, New, PartiallyFilled, PendingCancel} && Quantity(o.cumFilled).Some?
  }

  predicate Plain(x: Execution) { x.executionId != "" && ParseDecimal(x.qty).Some? }

  /** `o` is `o0` after exactly the executions `news`, whatever their sequence. */
  ghost predicate Reflects(o0: Order, news: map<string, Execution>, o: Order)
    requires Startable(o0)
  {
    && o == o0.(cumFilled := o.cumFilled, status := o.status, avgPrice := o.avgPrice, updatedAt := o.updatedAt)
    && (if news == map[] then o.cumFilled == o0.cumFilled && o.status == o0.status
        else && o.cumFilled == FormatDecimal(Total(Quantity(o0.cumFilled).value, news))
             && o.status == FillStatus(o0, o.cumFilled))
  }

  lemma ReflectsQuantity(o0: Order, news: map<string, Execution>, o: Order)
    requires Startable(o0) && Reflects(o0, news, o)
    ensures Quantity(o.cumFilled) == Some(Total(Quantity(o0.cumFilled).value, news))
  {
    if news != map[] { ParseOfFormat(Total(Quantity(o0.cumFilled).value, news)); }
  }

  lemma ReachesGrows(d: Dec, x: Dec, sum: Dec, qty: bytes)
    requires sum == Add(d, x) && ReachesDecimal(FormatDecimal(d), qty)
    ensures ReachesDecimal(FormatDecimal(sum), qty)
  {
    ParseOfFormat(d);
    ParseOfFormat(sum);
    AddKeepsAtLeast(d, x, ParseDecimal(qty).value);
  }

  /** A status computed from a smaller total does not disturb the one computed from a larger total. */
  lemma FillStatusSettles(o0: Order, o: Order, less: bytes, more: bytes)
    requires o0.status in {Unknown, PendingSubmit, New, PartiallyFilled, PendingCancel} && o.qty == o0.qty
    requires ReachesDecimal(less, o0.qty) ==> ReachesDecimal(more, o0.qty)
    requires o.status == o0.status || o.status == FillStatus(o0, less)
    ensures FillStatus(o, more) == FillStatus(o0, more)
    ensures ValidTransition(o.status, FillStatus(o, more))
  {
  }

  lemma ExecuteReflects(o0: Order, news: map<string, Execution>, o: Order, k: string, x: Execution, clock: int)
    requires Startable(o0) && Reflects(o0, news, o) && k !in news && Plain(x)
    ensures var sum := AddDecimal(o.cumFilled, x.qty);
            && sum.Some? && ValidTransition(o.status, FillStatus(o, sum.value))
            && Reflects(o0, news[k := x], Executed(o, x, sum.value, clock))
  {
    var start := Quantity(o0.cumFilled).value;
    var less, more := Total(start, news), Total(start, news[k := x]);
    ReflectsQuantity(o0, news, o);
    TotalInsert(start, news, k, x);
    AddedText(o.cumFilled, x, less, more);
    GrowsTo(o0, o, less, QtyOf(x), more);
    assert news[k := x] != map[] by { assert k in news[k := x]; }
  }

  lemma AddedText(text: bytes, x: Execution, less: Dec, more: Dec)
    requires Quantity(text) == Some(less) && Plain(x) && more == Add(less, QtyOf(x))
    ensures AddDecimal(text, x.qty) == Some(FormatDecimal(more))
  {
  }

  lemma GrowsTo(o0: Order, o: Order, less: Dec, x: Dec, more: Dec)
    requires Startable(o0) && o.qty == o0.qty && more == Add(less, x)
    requires o.status == o0.status || o.status == FillStatus(o0, FormatDecimal(less))
    ensures FillStatus(o, FormatDecimal(more)) == FillStatus(o0, FormatDecimal(more))
    ensures ValidTransition(o.status, FillStatus(o, FormatDecimal(more)))
  {
    if ReachesDecimal(FormatDecimal(less), o0.qty) { ReachesGrows(less, x, more, o0.qty); }
    FillStatusSettles(o0, o, FormatDecimal(less), FormatDecimal(more));
  }

  type Keying = Execution -> string

  /** The recorded executions after a batch: the first report under each key counts. */
  function Recorded(keyOf: Keying, executions: map<string, Execution>, arrivals: seq<Arrival>): map<string, Execution>
  {
    if arrivals == [] then executions
    else
      var before := Recorded(keyOf, executions, arrivals[..|arrivals| - 1]);
      var x := arrivals[|arrivals| - 1].execution;
      if keyOf(x) in before then before else before[keyOf(x) := x]
  }

  ghost predicate AllPlain(arrivals: seq<Arrival>) { forall i :: 0 <= i < |arrivals| ==> Plain(arrivals[i].execution) }

  lemma {:induction false} RecordedKeeps(keyOf: Keying, executions: map<string, Execution>, arrivals: seq<Arrival>, k: string)
    requires k in executions
    ensures k in Recorded(keyOf, executions, arrivals) && Recorded(keyOf, executions, arrivals)[k] == executions[k]
  {
    if arrivals != [] { RecordedKeeps(keyOf, executions, arrivals[..|arrivals| - 1], k); }
  }

  lemma ExecuteNew(s: Snapshot, key: string, k: string, x: Execution, sum: bytes, clock: int)
    requires key in s.orders && x.executionId != "" && k == ExecutionKey(x) && k !in s.executions
    requires AddDecimal(s.orders[key].cumFilled, x.qty) == Some(sum)
    requires ValidTransition(s.orders[key].status, FillStatus(s.orders[key], sum))
    ensures ExecuteAt(s, Some(key), x, clock) == Ok(Snapshot(s.orders[key := Executed(s.orders[key], x, sum, clock)], s.executions[k := x]))
  {
  }

  /** `s'` is `s` with the order under `key` reflecting exactly the executions recorded since. */
  ghost predicate Delivered(s: Snapshot, key: string, s': Snapshot)
    requires key in s.orders && Startable(s.orders[key])
  {
    && key in s'.orders && s'.orders == s.orders[key := s'.orders[key]]
    && Reflects(s.orders[key], s'.executions - s.executions.Keys, s'.orders[key])
  }

  lemma DeliverOne(s: Snapshot, key: string, s': Snapshot, k: string, x: Execution, o: Order)
    requires key in s.orders && Startable(s.orders[key]) && Delivered(s, key, s') && k !in s'.executions && k !in s.executions
    requires Reflects(s.orders[key], (s'.executions - s.executions.Keys)[k := x], o)
    ensures Delivered(s, key, Snapshot(s'.orders[key := o], s'.executions[k := x]))
  {
    NewsGrow(s'.executions, s.executions.Keys, k, x);
    assert s.orders[key := o][key := o] == s.orders[key := o];
    assert s'.orders[key := o] == s.orders[key := o];
  }

  lemma NewsGrow(executions: map<string, Execution>, base: set<string>, k: string, x: Execution)
    requires k !in base
    ensures executions[k := x] - base == (executions - base)[k := x]
  {
  }

  /** One new execution; `k` is its key. */
  lemma AcceptStep(s: Snapshot, key: string, s': Snapshot, k: string, x: Execution, clock: int)
    requires key in s.orders && Startable(s.orders[key]) && Delivered(s, key, s') && Plain(x)
    requires k == ExecutionKey(x) && k !in s'.executions && k !in s.executions
    ensures var r := ExecuteAt(s', Some(key), x, clock);
            r.Ok? && key in r.value.orders && r.value.executions == s'.executions[k := x] && Delivered(s, key, r.value)
  {
    var o, news := s'.orders[key], s'.executions - s.executions.Keys;
    ExecuteReflects(s.orders[key], news, o, k, x, clock);
    var sum := AddDecimal(o.cumFilled, x.qty).value;
    ExecuteNew(s', key, k, x, sum, clock);
    DeliverOne(s, key, s', k, x, Executed(o, x, sum, clock));
  }

  /** Every batch of plain executions is accepted whole: the records are the first reports, and the order is the
      starting order with the quantities of exactly the new ones added. */
  lemma {:induction false} BatchReflected(s: Snapshot, key: string, arrivals: seq<Arrival>)
    requires key in s.orders && Startable(s.orders[key]) && AllPlain(arrivals)
    ensures ExecuteAll(s, key, arrivals).executions == Recorded(ExecutionKey, s.executions, arrivals)
    ensures Delivered(s, key, ExecuteAll(s, key, arrivals))
  {
    if arrivals == [] {
      assert s.executions - s.executions.Keys == map[];
      assert s.orders == s.orders[key := s.orders[key]];
    } else {
      var init, last := arrivals[..|arrivals| - 1], arrivals[|arrivals| - 1];
      BatchReflected(s, key, init);
      var before := ExecuteAll(s, key, init);
      var k, x := ExecutionKey(last.execution), last.execution;
      if k !in before.executions {
        if k in s.executions { RecordedKeeps(ExecutionKey, s.executions, init, k); }
        AcceptStep(s, key, before, k, x, last.clock);
      }
    }
  }

  // ------------------------------------------------------------------- any sequence

  ghost predicate Reported(arrivals: seq<Arrival>, x: Execution) { exists i :: 0 <= i < |arrivals| && arrivals[i].execution == x }

  ghost predicate KeyReported(keyOf: Keying, arrivals: seq<Arrival>, k: string)
  {
    exists i :: 0 <= i < |arrivals| && keyOf(arrivals[i].execution) == k
  }

  /** The same executions are reported, in whatever sequence and number. */
  ghost predicate SameKeys(keyOf: Keying, a: seq<Arrival>, b: seq<Arrival>)
  {
    forall k :: KeyReported(keyOf, a, k) <==> KeyReported(keyOf, b, k)
  }

  predicate SameQuantity(x: Execution, y: Execution) { QtyOf(x) == QtyOf(y) }

  /** The same report received at another time. */
  predicate Redelivered(x: Execution, y: Execution) { x == y.(receivedAt := x.receivedAt) }

  /** Reports under one key are alike, within `a`, within `b` and across. */
  ghost predicate Alike(keyOf: Keying, alike: (Execution, Execution) -> bool, a: seq<Arrival>, b: seq<Arrival>)
  {
    forall x, y :: (Reported(a, x) || Reported(b, x)) && (Reported(a, y) || Reported(b, y)) && keyOf(x) == keyOf(y) ==> alike(x, y)
  }

  /** A key is recorded exactly when it was there before or was reported. */
  lemma {:induction false} RecordedExactly(keyOf: Keying, executions: map<string, Execution>, arrivals: seq<Arrival>, k: string)
    ensures k in Recorded(keyOf, executions, arrivals) <==> k in executions || KeyReported(keyOf, arrivals, k)
    ensures k in Recorded(keyOf, executions, arrivals) && k !in executions ==>
              keyOf(Recorded(keyOf, executions, arrivals)[k]) == k && Reported(arrivals, Recorded(keyOf, executions, arrivals)[k])
  {
    if arrivals != [] {
      var init, last := arrivals[..|arrivals| - 1], arrivals[|arrivals| - 1];
      RecordedExactly(keyOf, executions, init, k);
      assert forall i :: 0 <= i < |init| ==> init[i] == arrivals[i];
      if k in Recorded(keyOf, executions, init) && k !in executions {
        var i :| 0 <= i < |init| && init[i].execution == Recorded(keyOf, executions, init)[k];
        assert arrivals[i].execution == Recorded(keyOf, executions, init)[k];
      }
      assert arrivals[|arrivals| - 1].execution == last.execution;
      if KeyReported(keyOf, init, k) {
        var i :| 0 <= i < |init| && keyOf(init[i].execution) == k;
        assert keyOf(arrivals[i].execution) == k;
      }
    }
  }

  /** Same reports, in any sequence and multiplicity: records under the same keys, and alike. */
  lemma RecordedAlike(keyOf: Keying, alike: (Execution, Execution) -> bool, executions: map<string, Execution>,
                      a: seq<Arrival>, b: seq<Arrival>, k: string)
    requires SameKeys(keyOf, a, b) && Alike(keyOf, alike, a, b)
    ensures k in Recorded(keyOf, executions, a) <==> k in Recorded(keyOf, executions, b)
    ensures k in Recorded(keyOf, executions, a) ==>
              var x, y := Recorded(keyOf, executions, a)[k], Recorded(keyOf, executions, b)[k];
              if k in executions then x == y == executions[k] else alike(x, y)
  {
    RecordedExactly(keyOf, executions, a, k);
    RecordedExactly(keyOf, executions, b, k);
    assert KeyReported(keyOf, a, k) <==> KeyReported(keyOf, b, k);
    if k in executions {
      RecordedKeeps(keyOf, executions, a, k);
      RecordedKeeps(keyOf, executions, b, k);
    }
  }

  /** The records of `s` and `s'` are under the same keys, those since `base` alike. */
  ghost predicate RecordsAlike(alike: (Execution, Execution) -> bool, base: map<string, Execution>, s: Snapshot, s': Snapshot)
  {
    && s.executions.Keys == s'.executions.Keys
    && forall k :: k in s.executions ==>
         if k in base then s.executions[k] == s'.executions[k] else alike(s.executions[k], s'.executions[k])
  }

  /** The same orders, but for the last price and time of the order under `key`. */
  ghost predicate OrdersAgree(key: string, s: Snapshot, s': Snapshot)
  {
    && key in s.orders && key in s'.orders
    && s.orders == s'.orders[key := s.orders[key]]
    && s.orders[key] == s'.orders[key].(avgPrice := s.orders[key].avgPrice, updatedAt := s.orders[key].updatedAt)
  }

  lemma ReflectsAgree(o0: Order, news: map<string, Execution>, news': map<string, Execution>, o: Order, o': Order)
    requires Startable(o0) && Reflects(o0, news, o) && Reflects(o0, news', o')
    requires news.Keys == news'.Keys && forall k :: k in news ==> QtyOf(news[k]) == QtyOf(news'[k])
    ensures o == o'.(avgPrice := o.avgPrice, updatedAt := o.updatedAt)
  {
    TotalCongruent(Quantity(o0.cumFilled).value, news, news');
    assert news == map[] <==> news' == map[] by { assert news == map[] <==> news.Keys == {}; assert news' == map[] <==> news'.Keys == {}; }
  }

  lemma DeliveredAgree(s: Snapshot, key: string, a: Snapshot, b: Snapshot)
    requires key in s.orders && Startable(s.orders[key])
    requires Delivered(s, key, a) && Delivered(s, key, b) && RecordsAlike(SameQuantity, s.executions, a, b)
    ensures OrdersAgree(key, a, b)
  {
    var news, news' := a.executions - s.executions.Keys, b.executions - s.executions.Keys;
    forall k | k in news ensures QtyOf(news[k]) == QtyOf(news'[k]) { assert k in a.executions; }
    assert news.Keys == news'.Keys;
    ReflectsAgree(s.orders[key], news, news', a.orders[key], b.orders[key]);
  }

  lemma BatchesAlike(s: Snapshot, key: string, a: seq<Arrival>, b: seq<Arrival>, alike: (Execution, Execution) -> bool)
    requires key in s.orders && Startable(s.orders[key]) && AllPlain(a) && AllPlain(b)
    requires SameKeys(ExecutionKey, a, b) && Alike(ExecutionKey, alike, a, b)
    ensures RecordsAlike(alike, s.executions, ExecuteAll(s, key, a), ExecuteAll(s, key, b))
  {
    BatchReflected(s, key, a);
    BatchReflected(s, key, b);
    var ra, rb := Recorded(ExecutionKey, s.executions, a), Recorded(ExecutionKey, s.executions, b);
    forall k ensures k in ra <==> k in rb { RecordedAlike(ExecutionKey, alike, s.executions, a, b, k); }
    forall k | k in ra ensures if k in s.executions then ra[k] == rb[k] else alike(ra[k], rb[k]) {
      RecordedAlike(ExecutionKey, alike, s.executions, a, b, k);
    }
  }

  /** Two deliveries that report the same executions, in whatever sequence, number and receive times, leave records
      under the same keys, the same cumulative quantity text and the same status; the order differs at most in its
      last price and time, and no other order is touched. All that is asked of the reports is that they match the
      one order `key`, are plain, and agree on the quantity wherever they share a key. */
  lemma DeliveryOrderIrrelevant(s: Snapshot, key: string, a: seq<Arrival>, b: seq<Arrival>)
    requires key in s.orders && Startable(s.orders[key]) && AllPlain(a) && AllPlain(b)
    requires AllMatchOnly(s.orders, key, a) && AllMatchOnly(s.orders, key, b) && Searched(s, a) && Searched(s, b)
    requires SameKeys(ExecutionKey, a, b) && Alike(ExecutionKey, SameQuantity, a, b)
    ensures RecordsAlike(SameQuantity, s.executions, Deliver(s, a), Deliver(s, b))
    ensures OrdersAgree(key, Deliver(s, a), Deliver(s, b))
  {
    DeliverIsExecuteAll(s, key, a);
    DeliverIsExecuteAll(s, key, b);
    BatchReflected(s, key, a);
    BatchReflected(s, key, b);
    BatchesAlike(s, key, a, b, SameQuantity);
    DeliveredAgree(s, key, ExecuteAll(s, key, a), ExecuteAll(s, key, b));
  }

  lemma AlikeWeakens(keyOf: Keying, alike: (Execution, Execution) -> bool, alike': (Execution, Execution) -> bool, a: seq<Arrival>, b: seq<Arrival>)
    requires Alike(keyOf, alike, a, b) && forall x, y :: alike(x, y) ==> alike'(x, y)
    ensures Alike(keyOf, alike', a, b)
  {
  }

  /** If reports under one key differ in nothing but their receive time, so do the records. */
  lemma RedeliveryKeepsRecords(s: Snapshot, key: string, a: seq<Arrival>, b: seq<Arrival>)
    requires key in s.orders && Startable(s.orders[key]) && AllPlain(a) && AllPlain(b)
    requires AllMatchOnly(s.orders, key, a) && AllMatchOnly(s.orders, key, b) && Searched(s, a) && Searched(s, b)
    requires SameKeys(ExecutionKey, a, b) && Alike(ExecutionKey, Redelivered, a, b)
    ensures RecordsAlike(Redelivered, s.executions, Deliver(s, a), Deliver(s, b)) && OrdersAgree(key, Deliver(s, a), Deliver(s, b))
  {
    DeliverIsExecuteAll(s, key, a);
    DeliverIsExecuteAll(s, key, b);
    BatchesAlike(s, key, a, b, Redelivered);
    AlikeWeakens(ExecutionKey, Redelivered, SameQuantity, a, b);
    DeliveryOrderIrrelevant(s, key, a, b);
  }

  /** A report delivered once, and delivered again at another time, are deliveries of that kind. */
  lemma RepeatAtAnotherTime(x: Execution, found: Option<string>, clock: int, receivedAt: int, later: int)
    ensures var first, again := Arrival(x, found, clock), Arrival(x.(receivedAt := receivedAt), found, later);
            && SameKeys(ExecutionKey, [first], [again, first, again])
            && Alike(ExecutionKey, Redelivered, [first], [again, first, again])
  {
    var first, again := Arrival(x, found, clock), Arrival(x.(receivedAt := receivedAt), found, later);
    SameKeysOf(ExecutionKey, first, again);
    assert forall y :: Reported([first], y) || Reported([again, first, again], y) ==> y == x || y == again.execution;
  }

  lemma SameKeysOf(keyOf: Keying, first: Arrival, again: Arrival)
    requires keyOf(first.execution) == keyOf(again.execution)
    ensures SameKeys(keyOf, [first], [again, first, again])
  {
    forall k
      ensures KeyReported(keyOf, [first], k) <==> KeyReported(keyOf, [again, first, again], k)
    {
      assert [first][0] == first && [again, first, again][0] == again;
    }
  }

  // ------------------------------------------------------------------- in plain numbers

  /** The sum of numbers under keys. */
  ghost function Sum(worth: map<string, real>): real
    decreases |worth|
  {
    if worth == map[] then 0.0
    else
      var k :| k in worth.Keys;
      Sum(worth - {k}) + worth[k]
  }

  /** `text` denotes `v`, or is empty and `v` is zero. */
  ghost predicate Amounts(text: bytes, v: real) { (text == [] && v == 0.0) || exists p :: Denotes(text, v, p) }

  /** The quantity of each execution denotes the number under its key. */
  ghost predicate Weighed(news: map<string, Execution>, worth: map<string, real>)
  {
    news.Keys == worth.Keys && forall k {:trigger WeighedAt(news, worth, k)} :: k in news ==> WeighedAt(news, worth, k)
  }

  ghost predicate WeighedAt(news: map<string, Execution>, worth: map<string, real>, k: string)
  {
    k in news && k in worth && IsAmount(news[k].qty, worth[k])
  }

  lemma AmountIs(text: bytes, v: real)
    requires Amounts(text, v)
    ensures Quantity(text).Some? && DecValue(Quantity(text).value) == v
  {
    if text == [] && v == 0.0 {
    } else {
      var p :| Denotes(text, v, p);
      var d := Read(text, v, p);
    }
  }

  lemma WeightIs(x: Execution, v: real)
    requires IsAmount(x.qty, v)
    ensures DecValue(QtyOf(x)) == v
  {
    AmountIs(x.qty, v);
  }

  lemma {:induction false} TotalIsSum(start: Dec, news: map<string, Execution>, worth: map<string, real>)
    requires Weighed(news, worth)
    ensures DecValue(Total(start, news)) == DecValue(start) + Sum(worth)
    decreases |worth|
  {
    if worth == map[] {
      assert news == map[] by { assert news.Keys == {}; }
    } else {
      var k :| k in worth.Keys && Sum(worth) == Sum(worth - {k}) + worth[k];
      FewerWorths(worth, k);
      assert WeighedAt(news, worth, k);
      forall j | j in news - {k} ensures WeighedAt(news - {k}, worth - {k}, j) { assert WeighedAt(news, worth, j); }
      TotalIsSum(start, news - {k}, worth - {k});
      TotalPeel(start, news, k);
      WeightIs(news[k], worth[k]);
      AddValue(Total(start, news - {k}), QtyOf(news[k]));
    }
  }

  lemma FewerWorths(worth: map<string, real>, k: string)
    requires k in worth
    ensures |worth - {k}| < |worth|
  {
    assert |worth| == |worth.Keys| && (worth - {k}).Keys == worth.Keys - {k};
  }

  /** The status that a cumulative amount calls for. */
  ghost predicate StatusFor(before: Status, cumulative: bytes, qty: bytes, status: Status)
  {
    var reached := exists l, r, p, q :: Denotes(cumulative, l, p) && Denotes(qty, r, q) && l >= r;
    status == if reached then Filled else if before == PendingCancel then PendingCancel else PartiallyFilled
  }

  lemma FillStatusIs(o: Order, cumulative: bytes)
    ensures StatusFor(o.status, cumulative, o.qty, FillStatus(o, cumulative))
  {
    ReachesExactly(cumulative, o.qty);
  }

  /** One new execution, in numbers: the cumulative quantity grows by exactly its quantity, and the status is the one that
      the new amount calls for. */
  lemma ExecutionAdds(s: Snapshot, key: string, x: Execution, clock: int, before: real, quantity: real)
    requires key in s.orders && x.executionId != "" && ExecutionKey(x) !in s.executions
    requires Amounts(s.orders[key].cumFilled, before) && x.qty != [] && Amounts(x.qty, quantity)
    ensures match ExecuteAt(s, Some(key), x, clock)
            case Err(e) => e == BadTransition
            case Ok(s') =>
              && key in s'.orders
              && IsAmount(s'.orders[key].cumFilled, before + quantity)
              && s'.orders[key].avgPrice == x.price && s'.orders[key].updatedAt == (if x.receivedAt == 0 then clock else x.receivedAt)
              && StatusFor(s.orders[key].status, s'.orders[key].cumFilled, s.orders[key].qty, s'.orders[key].status)
  {
    var o := s.orders[key];
    SumAmounts(o.cumFilled, x.qty, before, quantity);
    FillStatusIs(o, AddDecimal(o.cumFilled, x.qty).value);
  }

  lemma SumAmounts(left: bytes, right: bytes, l: real, r: real)
    requires Amounts(left, l) && right != [] && Amounts(right, r)
    ensures AddDecimal(left, right).Some? && IsAmount(AddDecimal(left, right).value, l + r)
  {
    var q :| Denotes(right, r, q);
    if left == [] && l == 0.0 {
      SumIsAmount(left, right, l, r, 0, q);
    } else {
      var p :| Denotes(left, l, p);
      SumIsAmount(left, right, l, r, p, q);
    }
  }

  ghost predicate IsAmount(text: bytes, v: real) { text != [] && Amounts(text, v) }

  lemma SumIsAmount(left: bytes, right: bytes, l: real, r: real, p: nat, q: nat)
    requires (left == [] && l == 0.0 && p == 0) || Denotes(left, l, p)
    requires Denotes(right, r, q)
    ensures AddDecimal(left, right).Some? && IsAmount(AddDecimal(left, right).value, l + r)
  {
    SumDenotes(left, right, l, r, p, q);
    DenotesAmount(AddDecimal(left, right).value, l + r, if p >= q then p else q);
  }

  lemma DenotesAmount(s: bytes, v: real, places: nat)
    requires Denotes(s, v, places)
    ensures IsAmount(s, v)
  {
    NonEmpty(s, v, places);
  }

  lemma NonEmpty(s: bytes, v: real, places: nat)
    requires Denotes(s, v, places)
    ensures s != []
  {
  }

  /** A whole delivery, in numbers: the cumulative quantity of the order is its starting amount plus the amount of each
      execution newly recorded, once, and its status is the one that this amount calls for. */
  lemma DeliverySums(s: Snapshot, key: string, arrivals: seq<Arrival>, start: real, worth: map<string, real>)
    requires key in s.orders && Startable(s.orders[key]) && AllPlain(arrivals)
    requires AllMatchOnly(s.orders, key, arrivals) && Searched(s, arrivals)
    requires Amounts(s.orders[key].cumFilled, start) && Weighed(Deliver(s, arrivals).executions - s.executions.Keys, worth)
    requires worth != map[]
    ensures var s' := Deliver(s, arrivals);
            && key in s'.orders && IsAmount(s'.orders[key].cumFilled, start + Sum(worth))
            && StatusFor(s.orders[key].status, s'.orders[key].cumFilled, s.orders[key].qty, s'.orders[key].status)
  {
    DeliverIsExecuteAll(s, key, arrivals);
    BatchReflected(s, key, arrivals);
    ReflectedAmount(s.orders[key], Deliver(s, arrivals).executions - s.executions.Keys, Deliver(s, arrivals).orders[key], start, worth);
  }

  lemma ReflectedAmount(o0: Order, news: map<string, Execution>, o: Order, start: real, worth: map<string, real>)
    requires Startable(o0) && Reflects(o0, news, o) && Weighed(news, worth) && Amounts(o0.cumFilled, start) && worth != map[]
    ensures IsAmount(o.cumFilled, start + Sum(worth)) && StatusFor(o0.status, o.cumFilled, o0.qty, o.status)
  {
    assert news != map[] by { assert worth.Keys != {}; }
    TotalAmount(o0.cumFilled, news, start, worth);
    FillStatusIs(o0, o.cumFilled);
  }

  lemma TotalAmount(text: bytes, news: map<string, Execution>, start: real, worth: map<string, real>)
    requires Weighed(news, worth) && Amounts(text, start)
    ensures Quantity(text).Some? && IsAmount(FormatDecimal(Total(Quantity(text).value, news)), start + Sum(worth))
  {
    AmountIs(text, start);
    TotalAmountOf(Quantity(text).value, news, start, worth);
  }

  lemma TotalAmountOf(d: Dec, news: map<string, Execution>, start: real, worth: map<string, real>)
    requires Weighed(news, worth) && DecValue(d) == start
    ensures IsAmount(FormatDecimal(Total(d, news)), start + Sum(worth))
  {
    TotalIsSum(d, news, worth);
    FormattedAmount(Total(d, news), start + Sum(worth));
  }

  lemma FormattedAmount(d: Dec, v: real)
    requires DecValue(d) == v
    ensures IsAmount(FormatDecimal(d), v)
  {
    FormattedDenotes(d);
    DenotesAmount(FormatDecimal(d), v, d.places);
  }
}
