/** The order-state reducer: order updates, executions and REST acknowledgements merged into one snapshot. */
module OrderState {
  import opened Bytes
  import opened Text
  import opened DecimalText

  // ---------------------------------------------------------------------- statuses

  /** `Other` stands for every status text that is not one of the nine constants, the empty text included. */
  datatype Status =
    | Unknown | PendingSubmit | New | PartiallyFilled | Filled | PendingCancel | Cancelled | Rejected | RejectedCancel
    | Other(text: string)

  const NO_STATUS := Other("")

  function Allowed(from: Status): set<Status>
  {
    match from
    case Unknown => {PendingSubmit, New, PartiallyFilled, Filled, Cancelled, Rejected}
    case PendingSubmit => {New, PartiallyFilled, Filled, Cancelled, Rejected}
    case New => {PartiallyFilled, Filled, PendingCancel, Cancelled}
    case PartiallyFilled => {Filled, PendingCancel, Cancelled}
    case PendingCancel => {Cancelled, Filled, RejectedCancel}
    case Cancelled => {Filled}
    case _ => {}
  }

  predicate ValidTransition(from: Status, to: Status) { from == to || to in Allowed(from) }

  // ---------------------------------------------------------------------- entities

  datatype Account = Account(venue: string, environment: string, alias: string)

  /** An order; quantities that are added up are decimal text, and time 0 is the zero time. */
  datatype Order = Order(
    account: Account, category: string, symbol: string, id: string, link: string, side: string, kind: string,
    price: string, qty: bytes, cumFilled: bytes, avgPrice: string, status: Status, raw: string, intentId: string,
    createdAt: int, updatedAt: int)

  datatype Execution = Execution(
    account: Account, executionId: string, orderId: string, link: string, price: string, qty: bytes, receivedAt: int)

  datatype Snapshot = Snapshot(orders: map<string, Order>, executions: map<string, Execution>)

  datatype OrderError = NoIdentifier | BadTransition | NoExecutionId | UnknownOrder | BadQuantity

  const DEFAULT_ACCOUNT := Account("bybit", "testnet", "bybit-test")

  /** Missing parts stand for those of the default account. */
  function Normalized(a: Account): Account
  {
    Account(if a.venue == "" then DEFAULT_ACCOUNT.venue else a.venue,
            if a.environment == "" then DEFAULT_ACCOUNT.environment else a.environment,
            if a.alias == "" then DEFAULT_ACCOUNT.alias else a.alias)
  }

  function CanonicalKey(a: Account, namespace: string, id: string): string
  {
    JoinKey([JoinKey([a.venue, a.environment, a.alias]), namespace, id])
  }

  function StorageKey(account: Account, namespace: string, id: string): string
  {
    if Normalized(account) == DEFAULT_ACCOUNT then id else CanonicalKey(Normalized(account), namespace, id)
  }

  /** The key an order is stored under: by its link if it has one, else by its native ID, else none. */
  function OrderKey(account: Account, id: string, link: string): string
  {
    if link != "" then StorageKey(account, "client", link) else if id != "" then StorageKey(account, "native", id) else ""
  }

  function ExecutionKey(x: Execution): string { StorageKey(x.account, "trade", x.executionId) }

  predicate Matches(o: Order, id: string, link: string, account: Account)
  {
    && Normalized(o.account) == Normalized(account)
    && ((link != "" && o.link == link) || (id != "" && o.id == id))
  }

  /** What `findOrder` may return: any matching order, or nothing when none matches. */
  ghost predicate IsFound(orders: map<string, Order>, found: Option<string>, id: string, link: string, account: Account)
  {
    match found
    case Some(key) => key in orders && Matches(orders[key], id, link, account)
    case None => forall key :: key in orders ==> !Matches(orders[key], id, link, account)
  }

  // ------------------------------------------------------------------------ merging

  function Prefer(update: string, current: string): string { if update != "" then update else current }

  function PreferBytes(update: bytes, current: bytes): bytes { if update != [] then update else current }

  function PreferAccount(update: Account, current: Account): Account
  {
    Account(Prefer(update.venue, current.venue), Prefer(update.environment, current.environment), Prefer(update.alias, current.alias))
  }

  function MergeOrder(current: Order, update: Order): Order
  {
    Order(PreferAccount(update.account, current.account),
          Prefer(update.category, current.category), Prefer(update.symbol, current.symbol),
          Prefer(update.id, current.id), Prefer(update.link, current.link),
          Prefer(update.side, current.side), Prefer(update.kind, current.kind),
          Prefer(update.price, current.price), PreferBytes(update.qty, current.qty),
          PreferBytes(update.cumFilled, current.cumFilled), Prefer(update.avgPrice, current.avgPrice),
          if update.status != NO_STATUS then update.status else current.status,
          Prefer(update.raw, current.raw), Prefer(update.intentId, current.intentId),
          if update.createdAt != 0 && current.createdAt == 0 then update.createdAt else current.createdAt,
          if update.updatedAt != 0 then update.updatedAt else current.updatedAt)
  }

  /** The order that a first update is merged into. */
  function BlankOrder(createdAt: int): Order
  {
    Order(Account("", "", ""), "", "", "", "", "", "", "", [], [], "", Unknown, "", "", createdAt, 0)
  }

  function Stamped(o: Order, clock: int): Order
  {
    o.(createdAt := if o.createdAt == 0 then clock else o.createdAt,
       updatedAt := if o.updatedAt == 0 then clock else o.updatedAt)
  }

  /** The order that an update makes of the order it found. */
  function Updated(current: Order, update: Order, clock: int): Order { Stamped(MergeOrder(current, update), clock) }

  /** `applyOrderToSnapshot`, given what the search found. */
  function ApplyOrderAt(orders: map<string, Order>, found: Option<string>, update: Order, clock: int): Result<map<string, Order>, OrderError>
    requires found.Some? ==> found.value in orders
  {
    var key := if found.Some? then found.value else OrderKey(update.account, update.id, update.link);
    var current := if found.Some? then orders[found.value] else BlankOrder(update.createdAt);
    if found.None? && key == "" then Err(NoIdentifier)
    else if !ValidTransition(current.status, update.status) then Err(BadTransition)
    else
      var merged := Updated(current, update, clock);
      var desired := OrderKey(merged.account, merged.id, merged.link);
      if key != desired && desired != "" then Ok((orders - {key})[desired := merged]) else Ok(orders[key := merged])
  }

  predicate PastSubmit(s: Status) { s != Unknown && s != PendingSubmit }

  /** What a REST update is turned into before it is applied to an order that the streams have advanced. */
  function Deferred(current: Order, update: Order): Order
  {
    MergeOrder(current, update).(status := current.status, raw := current.raw, cumFilled := current.cumFilled,
                                 avgPrice := current.avgPrice, updatedAt := current.updatedAt)
  }

  function RestUpdate(orders: map<string, Order>, found: Option<string>, update: Order): Order
    requires found.Some? ==> found.value in orders
  {
    if found.Some? && PastSubmit(orders[found.value].status) then Deferred(orders[found.value], update) else update
  }

  /** The status an execution calls for. */
  function FillStatus(o: Order, cumulative: bytes): Status
  {
    if ReachesDecimal(cumulative, o.qty) && o.qty != [] then Filled
    else if o.status == PendingCancel then PendingCancel
    else PartiallyFilled
  }

  function Executed(o: Order, x: Execution, cumulative: bytes, clock: int): Order
  {
    o.(cumFilled := cumulative, avgPrice := x.price, updatedAt := if x.receivedAt == 0 then clock else x.receivedAt,
       status := FillStatus(o, cumulative))
  }

  /** `ApplyExecution`, given what the search found. */
  function ExecuteAt(s: Snapshot, found: Option<string>, x: Execution, clock: int): (r: Result<Snapshot, OrderError>)
    requires found.Some? ==> found.value in s.orders
    ensures r.Ok? ==> r.value.orders.Keys == s.orders.Keys
  {
    if x.executionId == "" then Err(NoExecutionId)
    else if ExecutionKey(x) in s.executions then Ok(s)
    else if found.None? then Err(UnknownOrder)
    else
      var order := s.orders[found.value];
      match AddDecimal(order.cumFilled, x.qty)
      case None => Err(BadQuantity)
      case Some(cumulative) =>
        if !ValidTransition(order.status, FillStatus(order, cumulative)) then Err(BadTransition)
        else Ok(Snapshot(s.orders[found.value := Executed(order, x, cumulative, clock)], s.executions[ExecutionKey(x) := x]))
  }

  // ----------------------------------------------------------------------- service

  class Service {
    var orders: map<string, Order>
    var executions: map<string, Execution>

    ghost function State(): Snapshot
      reads this
    {
      Snapshot(orders, executions)
    }

    constructor ()
      ensures State() == Snapshot(map[], map[])
    {
      orders, executions := map[], map[];
    }

    /** The search visits the stored orders in no particular sequence. */
    method FindOrder(id: string, link: string, account: Account) returns (found: Option<string>)
      ensures IsFound(orders, found, id, link, account)
    {
      var rest := orders.Keys;
      while rest != {}
        invariant rest <= orders.Keys
        invariant forall key :: key in orders && key !in rest ==> !Matches(orders[key], id, link, account)
      {
        var key :| key in rest;
        if Normalized(orders[key].account) == Normalized(account) {
          if link != "" && orders[key].link == link { return Some(key); }
          if id != "" && orders[key].id == id { return Some(key); }
        }
        rest := rest - {key};
      }
      return None;
    }

    method ApplyOrder(update: Order, clock: int) returns (failure: Option<OrderError>, ghost found: Option<string>)
      modifies this`orders
      ensures IsFound(old(orders), found, update.id, update.link, update.account)
      ensures match ApplyOrderAt(old(orders), found, update, clock)
              case Ok(next) => failure == None && orders == next
              case Err(e) => failure == Some(e) && orders == old(orders)
    {
      var key := FindOrder(update.id, update.link, update.account);
      found := key;
      var target, current;
      if key.Some? {
        target, current := key.value, orders[key.value];
      } else {
        target, current := OrderKey(update.account, update.id, update.link), BlankOrder(update.createdAt);
        if target == "" { return Some(NoIdentifier), found; }
      }
      if !ValidTransition(current.status, update.status) { return Some(BadTransition), found; }
      var merged := MergeOrder(current, update);
      if merged.createdAt == 0 { merged := merged.(createdAt := clock); }
      if merged.updatedAt == 0 { merged := merged.(updatedAt := clock); }
      var desired := OrderKey(merged.account, merged.id, merged.link);
      if target != desired && desired != "" {
        orders := orders - {target};
        target := desired;
      }
      orders := orders[target := merged];
      return None, found;
    }

    method UpsertREST(update: Order, clock: int)
      returns (failure: Option<OrderError>, ghost found: Option<string>, ghost foundAgain: Option<string>)
      modifies this`orders
      ensures IsFound(old(orders), found, update.id, update.link, update.account)
      ensures var applied := RestUpdate(old(orders), found, update);
              && IsFound(old(orders), foundAgain, applied.id, applied.link, applied.account)
              && match ApplyOrderAt(old(orders), foundAgain, applied, clock)
                 case Ok(next) => failure == None && orders == next
                 case Err(e) => failure == Some(e) && orders == old(orders)
    {
      var key := FindOrder(update.id, update.link, update.account);
      found := key;
      var applied := update;
      if key.Some? && orders[key.value].status != Unknown && orders[key.value].status != PendingSubmit {
        var current := orders[key.value];
        applied := MergeOrder(current, update);
        applied := applied.(status := current.status, raw := current.raw, cumFilled := current.cumFilled,
                            avgPrice := current.avgPrice, updatedAt := current.updatedAt);
      }
      failure, foundAgain := ApplyOrder(applied, clock);
    }

    method ApplyExecution(x: Execution, clock: int) returns (failure: Option<OrderError>, ghost found: Option<string>)
      modifies this
      ensures IsFound(old(orders), found, x.orderId, x.link, x.account)
      ensures match ExecuteAt(old(State()), found, x, clock)
              case Ok(next) => failure == None && State() == next
              case Err(e) => failure == Some(e) && State() == old(State())
    {
      var key := FindOrder(x.orderId, x.link, x.account);
      found := key;
      if x.executionId == "" { return Some(NoExecutionId), found; }
      if ExecutionKey(x) in executions { return None, found; }
      if key.None? { return Some(UnknownOrder), found; }
      var order := orders[key.value];
      var cumulative := AddDecimal(order.cumFilled, x.qty);
      if cumulative.None? { return Some(BadQuantity), found; }
      order := order.(cumFilled := cumulative.value, avgPrice := x.price, updatedAt := x.receivedAt);
      if order.updatedAt == 0 { order := order.(updatedAt := clock); }
      var next := PartiallyFilled;
      if ReachesDecimal(cumulative.value, order.qty) && order.qty != [] {
        next := Filled;
      } else if order.status == PendingCancel {
        next := PendingCancel;
      }
      if next != order.status {
        if !ValidTransition(order.status, next) { return Some(BadTransition), found; }
        order := order.(status := next);
      }
      executions := executions[ExecutionKey(x) := x];
      orders := orders[key.value := order];
      return None, found;
    }
  }
}
