/** Statuses only advance: what every run of order updates, executions and REST acknowledgements keeps true when each
    venue order keeps its identifiers. */
module OrderRuns {
  import opened Bytes
  import opened OrderState

  // --------------------------------------------------------------------- identities

  /** A venue order. Its updates always name its link (`byLink`), or always name its native ID; the other
      identifier may be left out. */
  datatype Identity = Identity(account: Account, id: string, link: string, byLink: bool)

  predicate Mentions(r: Identity, account: Account, id: string, link: string)
  {
    Normalized(account) == r.account && (id == "" || id == r.id) && (link == "" || link == r.link)
  }

  predicate Names(r: Identity, account: Account, id: string, link: string)
  {
    Mentions(r, account, id, link) && if r.byLink then link == r.link && link != "" else id == r.id && id != ""
  }

  /** The keys under which an order may come to be stored. */
  function KeysOf(r: Identity): set<string>
  {
    {OrderKey(r.account, r.id, r.link)} + if r.byLink then {} else {OrderKey(r.account, r.id, "")}
  }

  /** Different venue orders share no identifier within an account, and no storage key. */
  ghost predicate Coherent(registry: set<Identity>)
  {
    forall a, b :: a in registry && b in registry && a != b ==> Apart(a, b)
  }

  predicate Apart(a: Identity, b: Identity)
  {
    && (a.account == b.account ==> (a.id == "" || a.id != b.id) && (a.link == "" || a.link != b.link))
    && KeysOf(a) !! KeysOf(b)
  }

  /** `o`, stored under `key`, is the record of venue order `r`. */
  predicate Owns(r: Identity, key: string, o: Order)
  {
    Names(r, o.account, o.id, o.link) && key == OrderKey(o.account, o.id, o.link) && o.updatedAt != 0
  }

  ghost predicate Holds(orders: map<string, Order>, r: Identity, key: string) { key in orders && Owns(r, key, orders[key]) }

  /** Every stored order is the one record of a registered venue order. */
  ghost predicate Kept(registry: set<Identity>, orders: map<string, Order>)
  {
    && (forall key :: key in orders ==> Owned(registry, key, orders[key]))
    && (forall r, key, key' :: r in registry && Holds(orders, r, key) && Holds(orders, r, key') ==> key == key')
  }

  ghost predicate Owned(registry: set<Identity>, key: string, o: Order) { exists r :: r in registry && Owns(r, key, o) }

  lemma KeyDependsOnNormalized(a: Account, b: Account, id: string, link: string)
    requires Normalized(a) == Normalized(b)
    ensures OrderKey(a, id, link) == OrderKey(b, id, link)
  {
  }

  lemma KeyNotEmpty(account: Account, id: string, link: string)
    requires id != "" || link != ""
    ensures OrderKey(account, id, link) != ""
  {
    var a := Normalized(account);
    var namespace, name := if link != "" then "client" else "native", if link != "" then link else id;
    assert |CanonicalKey(a, namespace, name)| > 0;
  }

  lemma NormalizedTwice(a: Account)
    ensures Normalized(Normalized(a)) == Normalized(a)
  {
  }

  lemma OwnedKey(r: Identity, key: string, o: Order)
    requires Owns(r, key, o)
    ensures key in KeysOf(r)
  {
    NormalizedTwice(o.account);
    KeyDependsOnNormalized(o.account, r.account, o.id, o.link);
    assert o.id == r.id || o.link == r.link;
  }

  lemma SameKeySameOrder(registry: set<Identity>, r: Identity, key: string, o: Order, r': Identity, o': Order)
    requires Coherent(registry) && r in registry && r' in registry && Owns(r, key, o) && Owns(r', key, o')
    ensures r == r'
  {
    OwnedKey(r, key, o);
    OwnedKey(r', key, o');
    assert r == r' || Apart(r, r');
  }

  // ----------------------------------------------------------------------- searching

  /** A search by identifiers of `r` finds nothing but its record. */
  lemma SearchFinds(registry: set<Identity>, orders: map<string, Order>, r: Identity, account: Account, id: string, link: string, key: string)
    requires Coherent(registry) && Kept(registry, orders) && r in registry && Mentions(r, account, id, link)
    requires key in orders && Matches(orders[key], id, link, account)
    ensures Holds(orders, r, key)
  {
    assert Owned(registry, key, orders[key]);
    var owner :| owner in registry && Owns(owner, key, orders[key]);
    assert owner == r || Apart(owner, r);
  }

  /** A search by all that an update must name finds the record if there is one. */
  lemma SearchMisses(orders: map<string, Order>, r: Identity, account: Account, id: string, link: string, key: string)
    requires Names(r, account, id, link) && IsFound(orders, None, id, link, account)
    ensures !Holds(orders, r, key)
  {
    if Holds(orders, r, key) {
      assert Matches(orders[key], id, link, account);
    }
  }

  // ------------------------------------------------------------------------ statuses

  /** A rank that every step of the status graph raises, so the graph has no cycle. */
  function Rank(s: Status): nat
  {
    match s
    case Unknown => 0
    case PendingSubmit => 1
    case New => 2
    case PartiallyFilled => 3
    case PendingCancel => 4
    case Cancelled => 5
    case Filled => 6
    case Rejected => 6
    case RejectedCancel => 6
    case Other(_) => 0
  }

  /** The status graph, edge by edge. */
  lemma TransitionTable(from: Status, to: Status)
    ensures ValidTransition(from, to) <==> from == to || (from, to) in {
              (Unknown, PendingSubmit), (Unknown, New), (Unknown, PartiallyFilled), (Unknown, OrderState.Filled), (Unknown, Cancelled),
              (Unknown, Rejected),
              (PendingSubmit, New), (PendingSubmit, PartiallyFilled), (PendingSubmit, OrderState.Filled), (PendingSubmit, Cancelled),
              (PendingSubmit, Rejected),
              (New, PartiallyFilled), (New, OrderState.Filled), (New, PendingCancel), (New, Cancelled),
              (PartiallyFilled, OrderState.Filled), (PartiallyFilled, PendingCancel), (PartiallyFilled, Cancelled),
              (PendingCancel, Cancelled), (PendingCancel, OrderState.Filled), (PendingCancel, RejectedCancel),
              (Cancelled, OrderState.Filled)}
  {
  }

  predicate NotBefore(s: Status, s': Status) { s == s' || Rank(s) < Rank(s') }

  lemma TransitionRaisesRank(s: Status, s': Status)
    requires ValidTransition(s, s')
    ensures NotBefore(s, s')
  {
  }

  /** Every record stays, possibly under another key, and its status never goes back. */
  ghost predicate Advances(registry: set<Identity>, orders: map<string, Order>, orders': map<string, Order>)
  {
    forall r, key :: r in registry && Holds(orders, r, key) ==> Advanced(orders', r, orders[key].status)
  }

  ghost predicate Advanced(orders: map<string, Order>, r: Identity, s: Status)
  {
    exists key :: Holds(orders, r, key) && NotBefore(s, orders[key].status)
  }

  /** Putting a new record of `r` in place of its old one, if any. */
  lemma PutRecord(registry: set<Identity>, orders: map<string, Order>, r: Identity, old_: Option<string>, key: string, o: Order)
    requires Coherent(registry) && Kept(registry, orders) && r in registry && Owns(r, key, o)
    requires match old_ case Some(k) => Holds(orders, r, k) case None => forall k :: !Holds(orders, r, k)
    requires old_.Some? ==> NotBefore(orders[old_.value].status, o.status)
    ensures var orders' := (if old_.Some? then orders - {old_.value} else orders)[key := o];
            Kept(registry, orders') && Advances(registry, orders, orders') && Holds(orders', r, key)
  {
    var others := if old_.Some? then orders - {old_.value} else orders;
    var orders' := others[key := o];
    forall k | k in others ensures k != key && !Owns(r, k, others[k]) {
      assert Owned(registry, k, orders[k]);
      var owner :| owner in registry && Owns(owner, k, orders[k]);
      if k == key { SameKeySameOrder(registry, r, key, o, owner, orders[k]); }
      assert Owns(r, k, orders[k]) ==> Holds(orders, r, k);
    }
    RecordPut(registry, orders, others, r, key, o);
    forall q, k | q in registry && Holds(orders, q, k) ensures Advanced(orders', q, orders[k].status) {
      if old_.Some? && k == old_.value {
        SameKeySameOrder(registry, q, k, orders[k], r, orders[k]);
        assert Holds(orders', r, key);
      } else {
        assert Holds(orders', q, k);
      }
    }
  }

  lemma RecordPut(registry: set<Identity>, orders: map<string, Order>, others: map<string, Order>, r: Identity, key: string, o: Order)
    requires Coherent(registry) && Kept(registry, orders) && r in registry && Owns(r, key, o)
    requires forall k :: k in others ==> k in orders && others[k] == orders[k] && k != key && !Owns(r, k, others[k])
    ensures Kept(registry, others[key := o])
  {
    var orders' := others[key := o];
    forall k | k in orders' ensures Owned(registry, k, orders'[k]) {
      if k == key { assert r in registry && Owns(r, key, o); } else { assert Owned(registry, k, orders[k]); }
    }
    forall q, k, k' | q in registry && Holds(orders', q, k) && Holds(orders', q, k') ensures k == k' {
      if k == key || k' == key {
        SameKeySameOrder(registry, q, key, o, r, o);
      } else {
        assert Holds(orders, q, k) && Holds(orders, q, k');
      }
    }
  }

  // ------------------------------------------------------------------------ updates

  /** `t` is the update's text if it has one, else the text stored before. */
  predicate Chosen<T(==)>(update: seq<T>, before: seq<T>, t: seq<T>) { (update != [] ==> t == update) && (update == [] ==> t == before) }

  /** What an accepted update stores: its own non-empty fields, the rest as before; the first creation time that was given
      or else the clock; its own update time, or the one before, or the clock. */
  ghost predicate Stores(before: Order, u: Order, clock: int, o: Order)
  {
    && Chosen(u.account.venue, before.account.venue, o.account.venue) && Chosen(u.account.environment, before.account.environment, o.account.environment)
    && Chosen(u.account.alias, before.account.alias, o.account.alias) && Chosen(u.category, before.category, o.category)
    && Chosen(u.symbol, before.symbol, o.symbol) && Chosen(u.id, before.id, o.id) && Chosen(u.link, before.link, o.link)
    && Chosen(u.side, before.side, o.side) && Chosen(u.kind, before.kind, o.kind) && Chosen(u.price, before.price, o.price)
    && Chosen(u.qty, before.qty, o.qty) && Chosen(u.cumFilled, before.cumFilled, o.cumFilled) && Chosen(u.avgPrice, before.avgPrice, o.avgPrice)
    && Chosen(u.raw, before.raw, o.raw) && Chosen(u.intentId, before.intentId, o.intentId)
    && o.status == u.status
    && o.createdAt == (if before.createdAt != 0 then before.createdAt else if u.createdAt != 0 then u.createdAt else clock)
    && o.updatedAt == (if u.updatedAt != 0 then u.updatedAt else if before.updatedAt != 0 then before.updatedAt else clock)
  }

  /** An accepted order update stores exactly that, in place of the order found or as a new one; a refused one leaves the
      graph or has no identifier. */
  lemma UpdateStores(orders: map<string, Order>, found: Option<string>, update: Order, clock: int)
    requires found.Some? ==> found.value in orders
    ensures var before := if found.Some? then orders[found.value] else BlankOrder(update.createdAt);
            match ApplyOrderAt(orders, found, update, clock)
            case Err(e) => !ValidTransition(before.status, update.status) || (found.None? && update.id == "" && update.link == "")
            case Ok(orders') =>
              var o := Updated(before, update, clock);
              PutUnder(found, update, o) in orders' && orders'[PutUnder(found, update, o)] == o && Stores(before, update, clock, o)
  {
    var before := if found.Some? then orders[found.value] else BlankOrder(update.createdAt);
    MergeStores(before, update, clock);
    if found.None? && (update.id != "" || update.link != "") { KeyNotEmpty(update.account, update.id, update.link); }
    if ApplyOrderAt(orders, found, update, clock).Ok? { UpdatePuts(orders, found, update, clock); }
  }

  lemma MergeStores(before: Order, u: Order, clock: int)
    ensures ValidTransition(before.status, u.status) ==> Stores(before, u, clock, Updated(before, u, clock))
  {
  }

  lemma MergedAccount(a: Account, b: Account)
    requires Normalized(a) == Normalized(b)
    ensures Normalized(PreferAccount(a, b)) == Normalized(a)
  {
  }

  /** An update of `r` merged into a record of `r` is a record of `r`. */
  lemma UpdatedOwned(r: Identity, key: string, o: Order, update: Order, clock: int)
    requires Owns(r, key, o) && Names(r, update.account, update.id, update.link) && clock != 0
    ensures var o' := Updated(o, update, clock);
            Owns(r, OrderKey(o'.account, o'.id, o'.link), o') && OrderKey(o'.account, o'.id, o'.link) in KeysOf(r)
  {
    MergedAccount(update.account, o.account);
    var o' := Updated(o, update, clock);
    OwnedKey(r, OrderKey(o'.account, o'.id, o'.link), o');
  }

  lemma FirstOwned(r: Identity, update: Order, clock: int)
    requires Names(r, update.account, update.id, update.link) && clock != 0
    ensures var o := Updated(BlankOrder(update.createdAt), update, clock);
            Owns(r, OrderKey(update.account, update.id, update.link), o) && o.account == update.account && o.id == update.id && o.link == update.link
  {
  }

  /** The statuses around an accepted update. */
  lemma UpdatedStatus(o: Order, update: Order, clock: int)
    requires ValidTransition(o.status, update.status)
    ensures NotBefore(o.status, Updated(o, update, clock).status)
  {
    TransitionRaisesRank(o.status, update.status);
  }

  /** An accepted update of a found order replaces it, under its new key. */
  lemma UpdateReplaces(orders: map<string, Order>, k: string, update: Order, clock: int, o': Order, key: string)
    requires k in orders && ValidTransition(orders[k].status, update.status) && o' == Updated(orders[k], update, clock)
    requires key == OrderKey(o'.account, o'.id, o'.link) && key != ""
    ensures ApplyOrderAt(orders, Some(k), update, clock) == Ok((orders - {k})[key := o'])
  {
    assert (orders - {k})[k := o'] == orders[k := o'];
  }

  lemma FoundStep(registry: set<Identity>, orders: map<string, Order>, r: Identity, k: string, update: Order, clock: int)
    requires Coherent(registry) && Kept(registry, orders) && r in registry && clock != 0
    requires Names(r, update.account, update.id, update.link) && Holds(orders, r, k)
    requires ValidTransition(orders[k].status, update.status)
    ensures var o' := Updated(orders[k], update, clock);
            var key := OrderKey(o'.account, o'.id, o'.link);
            var orders' := (orders - {k})[key := o'];
            && ApplyOrderAt(orders, Some(k), update, clock) == Ok(orders')
            && Kept(registry, orders') && Advances(registry, orders, orders') && Holds(orders', r, key)
  {
    var o' := Updated(orders[k], update, clock);
    var key := OrderKey(o'.account, o'.id, o'.link);
    UpdatedStatus(orders[k], update, clock);
    UpdatedOwned(r, k, orders[k], update, clock);
    KeyNotEmpty(o'.account, o'.id, o'.link);
    UpdateReplaces(orders, k, update, clock, o', key);
    PutRecord(registry, orders, r, Some(k), key, o');
  }

  lemma FirstStep(registry: set<Identity>, orders: map<string, Order>, r: Identity, update: Order, clock: int)
    requires Coherent(registry) && Kept(registry, orders) && r in registry && clock != 0
    requires Names(r, update.account, update.id, update.link) && IsFound(orders, None, update.id, update.link, update.account)
    ensures match ApplyOrderAt(orders, None, update, clock)
            case Ok(orders') => Kept(registry, orders') && Advances(registry, orders, orders')
            case Err(_) => true
  {
    var o, key := Updated(BlankOrder(update.createdAt), update, clock), OrderKey(update.account, update.id, update.link);
    forall k ensures !Holds(orders, r, k) { SearchMisses(orders, r, update.account, update.id, update.link, k); }
    FirstOwned(r, update, clock);
    PutRecord(registry, orders, r, None, key, o);
  }

  /** An accepted or refused order update, given what its search found. */
  lemma OrderStep(registry: set<Identity>, orders: map<string, Order>, r: Identity, found: Option<string>, update: Order, clock: int)
    requires Coherent(registry) && Kept(registry, orders) && r in registry && clock != 0
    requires Names(r, update.account, update.id, update.link) && IsFound(orders, found, update.id, update.link, update.account)
    ensures match ApplyOrderAt(orders, found, update, clock)
            case Ok(orders') => Kept(registry, orders') && Advances(registry, orders, orders')
            case Err(_) => true
  {
    match found
    case Some(k) =>
      SearchFinds(registry, orders, r, update.account, update.id, update.link, k);
      if ValidTransition(orders[k].status, update.status) { FoundStep(registry, orders, r, k, update, clock); }
    case None => FirstStep(registry, orders, r, update, clock);
  }

  /** A REST update becomes an update of the same venue order. */
  lemma RestStillNames(registry: set<Identity>, orders: map<string, Order>, r: Identity, found: Option<string>, update: Order)
    requires Coherent(registry) && Kept(registry, orders) && r in registry
    requires Names(r, update.account, update.id, update.link) && IsFound(orders, found, update.id, update.link, update.account)
    ensures var u := RestUpdate(orders, found, update); Names(r, u.account, u.id, u.link)
  {
    if found.Some? {
      SearchFinds(registry, orders, r, update.account, update.id, update.link, found.value);
      MergedAccount(update.account, orders[found.value].account);
    }
  }

  /** What an accepted execution makes of the orders: nothing new for a repeat, else one order moved along the graph. */
  ghost predicate Filled(orders: map<string, Order>, k: string, orders': map<string, Order>)
  {
    && k in orders && k in orders' && orders' == orders[k := orders'[k]]
    && var o, o' := orders[k], orders'[k];
       o'.account == o.account && o'.id == o.id && o'.link == o.link && o'.updatedAt != 0 && ValidTransition(o.status, o'.status)
  }

  lemma ExecutionFills(s: Snapshot, found: Option<string>, x: Execution, clock: int)
    requires (found.Some? ==> found.value in s.orders) && clock != 0
    ensures match ExecuteAt(s, found, x, clock)
            case Ok(s') => s' == s || (found.Some? && Filled(s.orders, found.value, s'.orders))
            case Err(_) => true
  {
  }

  lemma FilledStep(registry: set<Identity>, orders: map<string, Order>, r: Identity, k: string, orders': map<string, Order>)
    requires Coherent(registry) && Kept(registry, orders) && r in registry && Holds(orders, r, k) && Filled(orders, k, orders')
    ensures Kept(registry, orders') && Advances(registry, orders, orders')
  {
    TransitionRaisesRank(orders[k].status, orders'[k].status);
    PutRecord(registry, orders, r, Some(k), k, orders'[k]);
    assert (orders - {k})[k := orders'[k]] == orders';
  }

  lemma ExecutionStep(registry: set<Identity>, s: Snapshot, r: Identity, found: Option<string>, x: Execution, clock: int)
    requires Coherent(registry) && Kept(registry, s.orders) && r in registry && clock != 0
    requires Mentions(r, x.account, x.orderId, x.link) && IsFound(s.orders, found, x.orderId, x.link, x.account)
    ensures match ExecuteAt(s, found, x, clock)
            case Ok(s') => Kept(registry, s'.orders) && Advances(registry, s.orders, s'.orders)
            case Err(_) => true
  {
    ExecutionFills(s, found, x, clock);
    var result := ExecuteAt(s, found, x, clock);
    if result.Ok? {
      if result.value == s {
        AdvancesReflexive(registry, s.orders);
      } else {
        SearchFinds(registry, s.orders, r, x.account, x.orderId, x.link, found.value);
        FilledStep(registry, s.orders, r, found.value, result.value.orders);
      }
    }
  }

  lemma AdvancesReflexive(registry: set<Identity>, orders: map<string, Order>)
    ensures Advances(registry, orders, orders)
  {
    forall r, key | r in registry && Holds(orders, r, key) ensures Advanced(orders, r, orders[key].status) {
      assert NotBefore(orders[key].status, orders[key].status);
    }
  }

  lemma AdvancesTransitive(registry: set<Identity>, a: map<string, Order>, b: map<string, Order>, c: map<string, Order>)
    requires Advances(registry, a, b) && Advances(registry, b, c)
    ensures Advances(registry, a, c)
  {
    forall r, key | r in registry && Holds(a, r, key) ensures Advanced(c, r, a[key].status) {
      assert Advanced(b, r, a[key].status);
      var key' :| Holds(b, r, key') && NotBefore(a[key].status, b[key'].status);
      assert Advanced(c, r, b[key'].status);
      var key'' :| Holds(c, r, key'') && NotBefore(b[key'].status, c[key''].status);
    }
  }

  // --------------------------------------------------------------------------- runs

  /** One call of the service, with the venue order it is about, the clock, and the outcomes of its searches. */
  datatype Event =
    | OrderEvent(update: Order, who: Identity, found: Option<string>, clock: int)
    | RestEvent(update: Order, who: Identity, found: Option<string>, foundAgain: Option<string>, clock: int)
    | ExecutionEvent(execution: Execution, who: Identity, found: Option<string>, clock: int)

  ghost predicate Legal(registry: set<Identity>, e: Event)
  {
    && e.who in registry && e.clock != 0
    && match e
       case OrderEvent(u, who, _, _) => Names(who, u.account, u.id, u.link)
       case RestEvent(u, who, _, _, _) => Names(who, u.account, u.id, u.link)
       case ExecutionEvent(x, who, _, _) => Mentions(who, x.account, x.orderId, x.link)
  }

  /** The searches returned what they may return. */
  ghost predicate Searched(s: Snapshot, e: Event)
  {
    match e
    case OrderEvent(u, _, found, _) => IsFound(s.orders, found, u.id, u.link, u.account)
    case RestEvent(u, _, found, again, _) =>
      && IsFound(s.orders, found, u.id, u.link, u.account)
      && var applied := RestUpdate(s.orders, found, u);
         IsFound(s.orders, again, applied.id, applied.link, applied.account)
    case ExecutionEvent(x, _, found, _) => IsFound(s.orders, found, x.orderId, x.link, x.account)
  }

  function OrdersOr(s: Snapshot, r: Result<map<string, Order>, OrderError>): Snapshot { if r.Ok? then s.(orders := r.value) else s }

  /** A call that fails changes nothing, and a search outcome that cannot be is no call at all. */
  ghost function Apply(s: Snapshot, e: Event): Snapshot
  {
    if !Searched(s, e) then s
    else
      match e
      case OrderEvent(u, _, found, clock) => OrdersOr(s, ApplyOrderAt(s.orders, found, u, clock))
      case RestEvent(u, _, found, again, clock) => OrdersOr(s, ApplyOrderAt(s.orders, again, RestUpdate(s.orders, found, u), clock))
      case ExecutionEvent(x, _, found, clock) =>
        match ExecuteAt(s, found, x, clock)
        case Ok(s') => s'
        case Err(_) => s
  }

  ghost function Run(s: Snapshot, events: seq<Event>): Snapshot
  {
    if events == [] then s else Apply(Run(s, events[..|events| - 1]), events[|events| - 1])
  }

  lemma ApplyAdvances(registry: set<Identity>, s: Snapshot, e: Event)
    requires Coherent(registry) && Kept(registry, s.orders) && Legal(registry, e)
    ensures Kept(registry, Apply(s, e).orders) && Advances(registry, s.orders, Apply(s, e).orders)
  {
    AdvancesReflexive(registry, s.orders);
    if Searched(s, e) {
      match e
      case OrderEvent(u, who, found, clock) => OrderStep(registry, s.orders, who, found, u, clock);
      case RestEvent(u, who, found, again, clock) =>
        RestStillNames(registry, s.orders, who, found, u);
        OrderStep(registry, s.orders, who, again, RestUpdate(s.orders, found, u), clock);
      case ExecutionEvent(x, who, found, clock) => ExecutionStep(registry, s, who, found, x, clock);
    }
  }

  /** No run of order updates, REST acknowledgements and executions loses a record or lowers its status in the
      status graph. */
  lemma {:induction false} RunAdvances(registry: set<Identity>, s: Snapshot, events: seq<Event>)
    requires Coherent(registry) && Kept(registry, s.orders)
    requires forall i :: 0 <= i < |events| ==> Legal(registry, events[i])
    ensures Kept(registry, Run(s, events).orders) && Advances(registry, s.orders, Run(s, events).orders)
  {
    if events == [] {
      AdvancesReflexive(registry, s.orders);
    } else {
      var before, last := Run(s, events[..|events| - 1]), events[|events| - 1];
      RunAdvances(registry, s, events[..|events| - 1]);
      ApplyAdvances(registry, before, last);
      AdvancesTransitive(registry, s.orders, before.orders, Apply(before, last).orders);
    }
  }

  lemma EmptyIsKept(registry: set<Identity>)
    ensures Kept(registry, map[])
  {
  }

  lemma {:induction false} RunInTwo(s: Snapshot, events: seq<Event>, k: nat)
    requires k <= |events|
    ensures Run(s, events) == Run(Run(s, events[..k]), events[k..])
    decreases |events|
  {
    if k == |events| {
      assert events[..k] == events;
    } else {
      var init := events[..|events| - 1];
      RunInTwo(s, init, k);
      assert init[..k] == events[..k] && events[k..][..|events| - k - 1] == init[k..];
    }
  }

  /** For a service that starts empty: from any point of a run to its end, every record stays and no status goes back. */
  lemma FreshServiceAdvances(registry: set<Identity>, events: seq<Event>, k: nat)
    requires Coherent(registry) && k <= |events| && forall i :: 0 <= i < |events| ==> Legal(registry, events[i])
    ensures Kept(registry, Run(Snapshot(map[], map[]), events).orders)
    ensures Advances(registry, Run(Snapshot(map[], map[]), events[..k]).orders, Run(Snapshot(map[], map[]), events).orders)
  {
    var empty := Snapshot(map[], map[]);
    EmptyIsKept(registry);
    RunAdvances(registry, empty, events[..k]);
    RunAdvances(registry, Run(empty, events[..k]), events[k..]);
    RunInTwo(empty, events, k);
  }

  // -------------------------------------------------------- without coherent identities

  /** Some key that stays in use ends up with a status that it had gone past. */
  ghost predicate Lowered(orders: map<string, Order>, orders': map<string, Order>)
  {
    exists k :: k in orders && k in orders' && !NotBefore(orders[k].status, orders'[k].status)
  }

  /** The key under which an accepted update stores its order. */
  function PutUnder(found: Option<string>, update: Order, o: Order): string
  {
    var desired := OrderKey(o.account, o.id, o.link);
    if desired != "" then desired else if found.Some? then found.value else OrderKey(update.account, update.id, update.link)
  }

  /** Whatever the stored orders and the identifiers, an accepted update lowers the status under some key exactly when
      it takes the key of an order that it did not find and that is further on. */
  lemma UpdateLowersExactly(orders: map<string, Order>, found: Option<string>, update: Order, clock: int)
    requires (found.Some? ==> found.value in orders) && ApplyOrderAt(orders, found, update, clock).Ok?
    ensures var o := Updated(if found.Some? then orders[found.value] else BlankOrder(update.createdAt), update, clock);
            var key := PutUnder(found, update, o);
            Lowered(orders, ApplyOrderAt(orders, found, update, clock).value)
            <==> key in orders && Some(key) != found && !NotBefore(orders[key].status, o.status)
  {
    var current := if found.Some? then orders[found.value] else BlankOrder(update.createdAt);
    var o := Updated(current, update, clock);
    var key := PutUnder(found, update, o);
    var orders' := ApplyOrderAt(orders, found, update, clock).value;
    UpdatedStatus(current, update, clock);
    UpdatePuts(orders, found, update, clock);
    assert forall k :: k in orders && k in orders' && k != key ==> orders'[k] == orders[k];
    assert key in orders' && orders'[key] == o;
  }

  lemma UpdatePuts(orders: map<string, Order>, found: Option<string>, update: Order, clock: int)
    requires (found.Some? ==> found.value in orders) && ApplyOrderAt(orders, found, update, clock).Ok?
    ensures var o := Updated(if found.Some? then orders[found.value] else BlankOrder(update.createdAt), update, clock);
            var key := PutUnder(found, update, o);
            ApplyOrderAt(orders, found, update, clock).value == (if found.Some? && found.value != key then orders - {found.value} else orders)[key := o]
  {
    if found.None? {
      var o := Updated(BlankOrder(update.createdAt), update, clock);
      assert o.account == update.account && o.id == update.id && o.link == update.link;
    }
  }

  function SampleOrder(id: string, link: string, status: Status): Order
  {
    BlankOrder(1).(id := id, link := link, status := status, updatedAt := 1)
  }

  /** The identity assumption matters: one venue order reported by link alone, then by native ID alone, then by both,
      has two records, and the search may find the one that is behind. */
  lemma MixedNamingRegresses(who: Identity) returns (events: seq<Event>)
    ensures |events| == 3
    ensures var before, after := Run(Snapshot(map[], map[]), events[..2]), Run(Snapshot(map[], map[]), events);
            Searched(before, events[2]) && Lowered(before.orders, after.orders)
  {
    var byLink, byId, both := SampleOrder("", "L", OrderState.Filled), SampleOrder("I", "", New), SampleOrder("I", "L", PartiallyFilled);
    var e1, e2, e3 := OrderEvent(byLink, who, None, 1), OrderEvent(byId, who, None, 1), OrderEvent(both, who, Some("I"), 1);
    events := [e1, e2, e3];
    RunThree(Snapshot(map[], map[]), e1, e2, e3);
    TwoRecords(who, byLink, byId);
    BehindIsFound(who, byLink, byId, both);
  }

  lemma RunThree(s: Snapshot, a: Event, b: Event, c: Event)
    ensures Run(s, [a, b, c][..2]) == Apply(Apply(s, a), b) && Run(s, [a, b, c]) == Apply(Apply(Apply(s, a), b), c)
  {
    assert [a, b, c][..2] == [a, b] && [a, b][..1] == [a] && [a][..0] == [];
    assert Run(s, [a]) == Apply(s, a) && Run(s, [a, b]) == Apply(Apply(s, a), b);
  }

  lemma TwoRecords(who: Identity, byLink: Order, byId: Order)
    requires byLink == SampleOrder("", "L", OrderState.Filled) && byId == SampleOrder("I", "", New)
    ensures Apply(Apply(Snapshot(map[], map[]), OrderEvent(byLink, who, None, 1)), OrderEvent(byId, who, None, 1))
         == Snapshot(map["L" := byLink, "I" := byId], map[])
  {
    assert Apply(Snapshot(map[], map[]), OrderEvent(byLink, who, None, 1)) == Snapshot(map["L" := byLink], map[]);
  }

  lemma BehindIsFound(who: Identity, byLink: Order, byId: Order, both: Order)
    requires byLink == SampleOrder("", "L", OrderState.Filled) && byId == SampleOrder("I", "", New) && both == SampleOrder("I", "L", PartiallyFilled)
    ensures var s, e := Snapshot(map["L" := byLink, "I" := byId], map[]), OrderEvent(both, who, Some("I"), 1);
            Searched(s, e) && Lowered(s.orders, Apply(s, e).orders)
  {
    var s, e := Snapshot(map["L" := byLink, "I" := byId], map[]), OrderEvent(both, who, Some("I"), 1);
    assert s.orders["L"].status == OrderState.Filled && Apply(s, e).orders["L"].status == PartiallyFilled;
  }

  // --------------------------------------------------------------------- late replies

  /** What the streams have established about an order. */
  predicate SameProgress(o: Order, o': Order)
  {
    && o'.status == o.status && o'.raw == o.raw && o'.cumFilled == o.cumFilled && o'.avgPrice == o.avgPrice
    && o'.updatedAt == o.updatedAt
  }

  lemma DeferredKeepsProgress(o: Order, update: Order, clock: int)
    requires o.updatedAt != 0
    ensures SameProgress(o, Updated(o, Deferred(o, update), clock)) && ValidTransition(o.status, Deferred(o, update).status)
  {
  }

  /** Whatever the identifiers: a REST reply for an order past PendingSubmit is accepted and keeps that order's progress
      if both searches find it. */
  lemma LateRestKeepsFound(orders: map<string, Order>, k: string, update: Order, clock: int)
    requires k in orders && PastSubmit(orders[k].status) && orders[k].updatedAt != 0
    ensures var r := ApplyOrderAt(orders, Some(k), RestUpdate(orders, Some(k), update), clock);
            r.Ok? && exists key :: key in r.value && SameProgress(orders[k], r.value[key])
  {
    var applied := RestUpdate(orders, Some(k), update);
    DeferredKeepsProgress(orders[k], update, clock);
    UpdatePuts(orders, Some(k), applied, clock);
    var o := Updated(orders[k], applied, clock);
    var r := ApplyOrderAt(orders, Some(k), applied, clock).value;
    assert r[PutUnder(Some(k), applied, o)] == o;
  }

  /** In every reachable state, a REST reply for an order past PendingSubmit is accepted and changes neither its status,
      raw status, cumulative fill, average price nor update time, and no other order at all. */
  lemma LateRestHarmless(registry: set<Identity>, s: Snapshot, e: Event, key: string)
    requires Coherent(registry) && Kept(registry, s.orders) && Legal(registry, e) && e.RestEvent? && Searched(s, e)
    requires Holds(s.orders, e.who, key) && PastSubmit(s.orders[key].status)
    ensures ApplyOrderAt(s.orders, e.foundAgain, RestUpdate(s.orders, e.found, e.update), e.clock).Ok?
    ensures exists key' :: && Holds(Apply(s, e).orders, e.who, key')
                           && SameProgress(s.orders[key], Apply(s, e).orders[key'])
                           && Apply(s, e).orders - {key'} == s.orders - {key}
  {
    var u, r, orders := e.update, e.who, s.orders;
    if e.found.None? {
      SearchMisses(orders, r, u.account, u.id, u.link, key);
      assert false;
    }
    SearchFinds(registry, orders, r, u.account, u.id, u.link, e.found.value);
    RestStillNames(registry, orders, r, e.found, u);
    var applied := RestUpdate(orders, e.found, u);
    if e.foundAgain.None? {
      SearchMisses(orders, r, applied.account, applied.id, applied.link, key);
      assert false;
    }
    SearchFinds(registry, orders, r, applied.account, applied.id, applied.link, e.foundAgain.value);
    LateRestAt(registry, s, e, key, applied);
  }

  lemma LateRestAt(registry: set<Identity>, s: Snapshot, e: Event, key: string, applied: Order)
    requires Coherent(registry) && Kept(registry, s.orders) && Legal(registry, e) && e.RestEvent? && Searched(s, e)
    requires Holds(s.orders, e.who, key) && PastSubmit(s.orders[key].status) && e.found == Some(key) && e.foundAgain == Some(key)
    requires applied == Deferred(s.orders[key], e.update) && Names(e.who, applied.account, applied.id, applied.link)
    ensures ApplyOrderAt(s.orders, e.foundAgain, RestUpdate(s.orders, e.found, e.update), e.clock).Ok?
    ensures exists key' :: && Holds(Apply(s, e).orders, e.who, key')
                           && SameProgress(s.orders[key], Apply(s, e).orders[key'])
                           && Apply(s, e).orders - {key'} == s.orders - {key}
  {
    var orders, o := s.orders, s.orders[key];
    var o' := Updated(o, applied, e.clock);
    var key' := OrderKey(o'.account, o'.id, o'.link);
    DeferredKeepsProgress(o, e.update, e.clock);
    FoundStep(registry, orders, e.who, key, applied, e.clock);
    NoOtherAt(registry, orders, e.who, key, key', o');
    assert (orders - {key})[key' := o'] - {key'} == orders - {key};
  }

  /** A record of `r` displaces no order but the old record of `r`. */
  lemma NoOtherAt(registry: set<Identity>, orders: map<string, Order>, r: Identity, key: string, key': string, o': Order)
    requires Coherent(registry) && Kept(registry, orders) && r in registry && Holds(orders, r, key) && Owns(r, key', o')
    ensures key' in orders ==> key' == key
  {
    if key' in orders {
      assert Owned(registry, key', orders[key']);
      var owner :| owner in registry && Owns(owner, key', orders[key']);
      SameKeySameOrder(registry, owner, key', orders[key'], r, o');
      assert Holds(orders, r, key');
    }
  }
}
