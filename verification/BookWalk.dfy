/** The order-book snapshot that a quote uses, and the greedy walk that estimates an execution on it. */
module BookWalk {
  import opened Bytes
  import opened QuoteMath

  datatype Level = Level(price: real, quantity: real)

  /** A level as received: a text that is not a decimal has no value. */
  datatype RawLevel = RawLevel(price: Option<real>, quantity: Option<real>)

  datatype Book = Book(bids: seq<Level>, asks: seq<Level>)

  datatype BookError = StaleMarketData | InvalidBook

  const SECOND := 1_000_000_000

  // ------------------------------------------------------------------- parsing

  predicate Positive(level: RawLevel)
  {
    level.price.Some? && level.price.value > 0.0 && level.quantity.Some? && level.quantity.value > 0.0
  }

  predicate AllPositive(levels: seq<RawLevel>) { forall i :: 0 <= i < |levels| ==> Positive(levels[i]) }

  function Values(levels: seq<RawLevel>): (r: seq<Level>)
    requires AllPositive(levels)
    ensures |r| == |levels|
  {
    seq(|levels|, i requires 0 <= i < |levels| => Level(levels[i].price.value, levels[i].quantity.value))
  }

  /** Best price first: asks rise, bids fall. */
  predicate Ordered(side: Side, levels: seq<Level>)
  {
    forall i, j :: 0 <= i < j < |levels| ==>
      if side == Buy then levels[i].price <= levels[j].price else levels[i].price >= levels[j].price
  }

  predicate PositiveLevels(levels: seq<Level>)
  {
    forall i :: 0 <= i < |levels| ==> levels[i].price > 0.0 && levels[i].quantity > 0.0
  }

  predicate Fresh(observedAt: Option<int>, now: int, maxAge: int)
  {
    observedAt.Some? && now - observedAt.value <= maxAge && observedAt.value <= now + 1_000_000_000
  }

  /** What `parseBook` promises about a book it accepts. */
  predicate ValidBook(book: Book)
  {
    && |book.bids| > 0 && |book.asks| > 0 && book.bids[0].price < book.asks[0].price
    && PositiveLevels(book.bids) && PositiveLevels(book.asks)
    && Ordered(Sell, book.bids) && Ordered(Buy, book.asks)
  }

  method ParseLevels(levels: seq<RawLevel>) returns (r: Option<seq<Level>>)
    ensures r.Some? <==> AllPositive(levels)
    ensures r.Some? ==> r.value == Values(levels)
  {
    var result: seq<Level> := [];
    for i := 0 to |levels|
      invariant |result| == i && forall j :: 0 <= j < i ==> Positive(levels[j])
      invariant forall j :: 0 <= j < i ==> result[j] == Level(levels[j].price.value, levels[j].quantity.value)
    {
      var level := levels[i];
      if level.price.None? || level.price.value <= 0.0 { return None; }
      if level.quantity.None? || level.quantity.value <= 0.0 { return None; }
      result := result + [Level(level.price.value, level.quantity.value)];
    }
    return Some(result);
  }

  /** The adjacent comparisons of `parseBook` order the whole side. */
  method CheckOrder(side: Side, levels: seq<Level>) returns (ok: bool)
    ensures ok <==> Ordered(side, levels)
  {
    if |levels| == 0 { return true; }
    for index := 1 to |levels|
      invariant Ordered(side, levels[..index])
    {
      var out := if side == Buy then levels[index - 1].price > levels[index].price else levels[index - 1].price < levels[index].price;
      if out { return false; }
      OrderGrows(side, levels, index);
    }
    assert levels[..|levels|] == levels;
    return true;
  }

  lemma OrderGrows(side: Side, levels: seq<Level>, n: nat)
    requires 0 < n < |levels| && Ordered(side, levels[..n])
    requires if side == Buy then levels[n - 1].price <= levels[n].price else levels[n - 1].price >= levels[n].price
    ensures Ordered(side, levels[..n + 1])
  {
    forall i, j | 0 <= i < j < n + 1
      ensures if side == Buy then levels[i].price <= levels[j].price else levels[i].price >= levels[j].price
    {
      assert levels[..n][i] == levels[i];
      assert levels[..n][n - 1] == levels[n - 1];
      if j < n { assert levels[..n][j] == levels[j]; }
    }
  }

  method ParseBook(bids: seq<RawLevel>, asks: seq<RawLevel>, observedAt: Option<int>, now: int, maxAge: int)
    returns (r: Result<Book, BookError>)
    ensures r == Err(StaleMarketData) <==> !Fresh(observedAt, now, maxAge)
    ensures r.Ok? <==> Fresh(observedAt, now, maxAge) && AllPositive(bids) && AllPositive(asks)
                       && ValidBook(Book(Values(bids), Values(asks)))
    ensures r.Ok? ==> r.value == Book(Values(bids), Values(asks))
  {
    if observedAt.None? || now - observedAt.value > maxAge || observedAt.value > now + SECOND { return Err(StaleMarketData); }
    var b := ParseLevels(bids);
    if b.None? { return Err(InvalidBook); }
    var a := ParseLevels(asks);
    if a.None? { return Err(InvalidBook); }
    if |b.value| == 0 || |a.value| == 0 || b.value[0].price >= a.value[0].price { return Err(InvalidBook); }
    var ordered := CheckOrder(Sell, b.value);
    if !ordered { return Err(InvalidBook); }
    ordered := CheckOrder(Buy, a.value);
    if !ordered { return Err(InvalidBook); }
    return Ok(Book(b.value, a.value));
  }

  // ---------------------------------------------------------------------- walk

  predicate Within(side: Side, price: real, limit: real) { if side == Buy then price <= limit else price >= limit }

  function Min(a: real, b: real): real { if a <= b then a else b }

  /** How much the walk takes from each level: in order, up to the request, stopping at the limit. */
  function Taken(side: Side, levels: seq<Level>, limit: real, remaining: real): (taken: seq<real>)
    ensures |taken| == |levels|
  {
    if levels == [] then []
    else if !Within(side, levels[0].price, limit) then Nothing(|levels|)
    else
      var take := Min(remaining, levels[0].quantity);
      [take] + (if remaining - take == 0.0 then Nothing(|levels| - 1) else Taken(side, levels[1..], limit, remaining - take))
  }

  function Nothing(n: nat): (taken: seq<real>)
    ensures |taken| == n
  {
    seq(n, _ => 0.0)
  }

  function Total(placed: seq<real>): real { if placed == [] then 0.0 else placed[0] + Total(placed[1..]) }

  /** What a quantity is worth at a price. The walk's properties need only the laws in `Fair`. */
  type Pricing = (real, real) -> real

  function Times(): Pricing { (quantity: real, price: real) => quantity * price }

  function Proceeds(worth: Pricing, placed: seq<real>, levels: seq<Level>): real
    requires |placed| == |levels|
  {
    if placed == [] then 0.0 else worth(placed[0], levels[0].price) + Proceeds(worth, placed[1..], levels[1..])
  }

  ghost predicate NothingIsFree(worth: Pricing) { forall price :: worth(0.0, price) == 0.0 }

  lemma {:induction false} NothingEarnsNothing(worth: Pricing, levels: seq<Level>)
    requires NothingIsFree(worth)
    ensures Total(Nothing(|levels|)) == 0.0 && Proceeds(worth, Nothing(|levels|), levels) == 0.0
  {
    if levels == [] {
    } else {
      NothingEarnsNothing(worth, levels[1..]);
      assert Nothing(|levels|)[1..] == Nothing(|levels| - 1);
    }
  }

  /** `executableEstimate`: quantity filled and destination amount received. */
  method ExecutableEstimate(side: Side, requested: real, limit: real, book: Book) returns (filled: real, received: real)
    ensures var levels := if side == Sell then book.bids else book.asks;
            var taken := Taken(side, levels, limit, requested);
            filled == Total(taken) && received == if side == Sell then Proceeds(Times(), taken, levels) else Total(taken)
  {
    TimesIsFair();
    filled, received := WalkLevels(Times(), side, requested, limit, if side == Sell then book.bids else book.asks);
    if side == Buy { received := filled; }
  }

  /** The loop of `executableEstimate`. */
  method WalkLevels(worth: Pricing, side: Side, requested: real, limit: real, levels: seq<Level>) returns (filled: real, received: real)
    requires NothingIsFree(worth)
    ensures var taken := Taken(side, levels, limit, requested);
            filled == Total(taken) && (side == Sell ==> received == Proceeds(worth, taken, levels))
  {
    var remaining := requested;
    filled, received := 0.0, 0.0;
    ghost var value := 0.0;
    ghost var whole := Taken(side, levels, limit, requested);
    for i := 0 to |levels|
      invariant Total(whole) == filled + Total(Taken(side, levels[i..], limit, remaining))
      invariant Proceeds(worth, whole, levels) == value + Proceeds(worth, Taken(side, levels[i..], limit, remaining), levels[i..])
      invariant side == Sell ==> received == value
    {
      var level := levels[i];
      assert levels[i..][0] == level && levels[i..][1..] == levels[i + 1..];
      if !Within(side, level.price, limit) {
        NothingEarnsNothing(worth, levels[i..]);
        break;
      }
      var take := Min(remaining, level.quantity);
      StepTaken(worth, side, levels[i..], limit, remaining);
      filled := filled + take;
      value := value + worth(take, level.price);
      if side == Sell { received := received + worth(take, level.price); }
      remaining := remaining - take;
      if remaining == 0.0 { break; }
    }
  }

  /** One turn of the loop. */
  lemma StepTaken(worth: Pricing, side: Side, levels: seq<Level>, limit: real, remaining: real)
    requires NothingIsFree(worth) && |levels| > 0 && Within(side, levels[0].price, limit)
    ensures var taken := Taken(side, levels, limit, remaining);
            var take := taken[0];
            var rest := Taken(side, levels[1..], limit, remaining - take);
            && take == Min(remaining, levels[0].quantity)
            && Total(taken) == take + (if remaining - take == 0.0 then 0.0 else Total(rest))
            && Proceeds(worth, taken, levels)
               == worth(take, levels[0].price) + (if remaining - take == 0.0 then 0.0 else Proceeds(worth, rest, levels[1..]))
  {
    NothingEarnsNothing(worth, levels[1..]);
    var taken := Taken(side, levels, limit, remaining);
    assert taken[1..] == if remaining - taken[0] == 0.0 then Nothing(|levels| - 1) else Taken(side, levels[1..], limit, remaining - taken[0]);
  }

  // ------------------------------------------------------------------ the fill

  /** Total depth of all levels within the limit, wherever they stand. */
  function DepthWithin(side: Side, levels: seq<Level>, limit: real): real
  {
    if levels == [] then 0.0
    else
      var counts := if side == Buy then levels[0].price <= limit else levels[0].price >= limit;
      (if counts then levels[0].quantity else 0.0) + DepthWithin(side, levels[1..], limit)
  }

  lemma OrderedTail(side: Side, levels: seq<Level>)
    requires |levels| > 0 && Ordered(side, levels) && PositiveLevels(levels)
    ensures Ordered(side, levels[1..]) && PositiveLevels(levels[1..])
  {
    forall i, j | 0 <= i < j < |levels[1..]|
      ensures if side == Buy then levels[1..][i].price <= levels[1..][j].price else levels[1..][i].price >= levels[1..][j].price
    {
      assert levels[1..][i] == levels[i + 1] && levels[1..][j] == levels[j + 1];
    }
  }

  lemma {:induction false} NoneWithin(side: Side, levels: seq<Level>, limit: real)
    requires forall i :: 0 <= i < |levels| ==> !Within(side, levels[i].price, limit)
    ensures DepthWithin(side, levels, limit) == 0.0
  {
    if levels == [] {
    } else {
      assert !Within(side, levels[0].price, limit);
      NoneWithin(side, levels[1..], limit);
    }
  }

  lemma {:induction false} DepthNonNegative(side: Side, levels: seq<Level>, limit: real)
    requires PositiveLevels(levels)
    ensures DepthWithin(side, levels, limit) >= 0.0
  {
    if levels == [] {
    } else {
      assert levels[0].quantity > 0.0;
      DepthNonNegative(side, levels[1..], limit);
    }
  }

  /** The walk fills exactly the smaller of the request and the total depth within the limit. */
  lemma {:induction false} WalkFillsAll(worth: Pricing, side: Side, levels: seq<Level>, limit: real, requested: real)
    requires NothingIsFree(worth) && Ordered(side, levels) && PositiveLevels(levels) && requested >= 0.0
    ensures Total(Taken(side, levels, limit, requested)) == Min(requested, DepthWithin(side, levels, limit))
  {
    if levels == [] {
    } else if !Within(side, levels[0].price, limit) {
      forall i | 0 <= i < |levels|
        ensures !Within(side, levels[i].price, limit)
      {
        if i > 0 { assert if side == Buy then levels[0].price <= levels[i].price else levels[0].price >= levels[i].price; }
      }
      NoneWithin(side, levels, limit);
      NothingEarnsNothing(worth, levels);
    } else {
      OrderedTail(side, levels);
      DepthNonNegative(side, levels[1..], limit);
      StepTaken(worth, side, levels, limit, requested);
      var take := Min(requested, levels[0].quantity);
      if requested - take != 0.0 {
        WalkFillsAll(worth, side, levels[1..], limit, requested - take);
      }
    }
  }

  /** On an accepted book and either side, that is what the estimate reports as filled. */
  lemma FillIsDepthWithinLimit(book: Book, side: Side, limit: real, requested: real)
    requires ValidBook(book) && requested >= 0.0
    ensures var levels := if side == Sell then book.bids else book.asks;
            var filled, depth := Total(Taken(side, levels, limit, requested)), DepthWithin(side, levels, limit);
            filled == if requested <= depth then requested else depth
  {
    TimesIsFair();
    WalkFillsAll(Times(), side, if side == Sell then book.bids else book.asks, limit, requested);
  }

  // --------------------------------------------------------------- the proceeds

  /** A way to place a quantity on the levels. */
  ghost predicate Placement(placed: seq<real>, levels: seq<Level>)
  {
    |placed| == |levels| && forall i :: 0 <= i < |placed| ==> 0.0 <= placed[i] <= levels[i].quantity
  }

  /** A quantity at a price no better, with the rest at the best price, is worth no more than all at the best. */
  ghost predicate Capped(worth: Pricing, quantity: real, price: real, others: real, best: real)
  {
    quantity >= 0.0 && price <= best ==> worth(quantity, price) + worth(others, best) <= worth(quantity + others, best)
  }

  /** A quantity at a price no worse than the limit, with the rest at the limit, is worth no less than all at the limit. */
  ghost predicate Floored(worth: Pricing, quantity: real, price: real, others: real, limit: real)
  {
    quantity >= 0.0 && limit <= price ==> worth(quantity + others, limit) <= worth(quantity, price) + worth(others, limit)
  }

  /** Moving quantity to the better price loses nothing; `excess` is what is placed beyond the walk. */
  ghost predicate Exchange(worth: Pricing, taken: real, placed: real, excess: real, best: real, price: real)
  {
    excess >= 0.0 && best <= price ==>
      worth(placed, best) + worth(taken - placed + excess, best) <= worth(taken, best) + worth(excess, price)
  }

  ghost predicate Fair(worth: Pricing)
  {
    && NothingIsFree(worth)
    && (forall quantity, price, others, best :: Capped(worth, quantity, price, others, best))
    && (forall quantity, price, others, limit :: Floored(worth, quantity, price, others, limit))
    && (forall taken, placed, excess, best, price :: Exchange(worth, taken, placed, excess, best, price))
  }

  lemma CappedTimes(quantity: real, price: real, others: real, best: real)
    ensures Capped(Times(), quantity, price, others, best)
  {
    Distribute(quantity, others, best);
    if quantity >= 0.0 && price <= best { MulMonotone(price, best, quantity); }
  }

  lemma FlooredTimes(quantity: real, price: real, others: real, limit: real)
    ensures Floored(Times(), quantity, price, others, limit)
  {
    Distribute(quantity, others, limit);
    if quantity >= 0.0 && limit <= price { MulMonotone(limit, price, quantity); }
  }

  lemma ExchangeTimes(taken: real, placed: real, excess: real, best: real, price: real)
    ensures Exchange(Times(), taken, placed, excess, best, price)
  {
    Distribute(taken - placed, excess, best);
    Distribute(taken, -placed, best);
    if excess >= 0.0 && best <= price { MulMonotone(best, price, excess); }
  }

  /** Multiplication obeys the laws. */
  lemma TimesIsFair()
    ensures Fair(Times())
  {
    forall quantity, price, others, best
      ensures Capped(Times(), quantity, price, others, best)
    {
      CappedTimes(quantity, price, others, best);
    }
    forall quantity, price, others, limit
      ensures Floored(Times(), quantity, price, others, limit)
    {
      FlooredTimes(quantity, price, others, limit);
    }
    forall taken, placed, excess, best, price
      ensures Exchange(Times(), taken, placed, excess, best, price)
    {
      ExchangeTimes(taken, placed, excess, best, price);
    }
  }

  lemma PlacementTail(placed: seq<real>, levels: seq<Level>)
    requires |placed| > 0 && Placement(placed, levels)
    ensures Placement(placed[1..], levels[1..])
  {
  }

  lemma {:induction false} TotalNonNegative(placed: seq<real>, levels: seq<Level>)
    requires Placement(placed, levels)
    ensures Total(placed) >= 0.0
  {
    if placed == [] {
    } else {
      PlacementTail(placed, levels);
      TotalNonNegative(placed[1..], levels[1..]);
    }
  }

  predicate AtMost(levels: seq<Level>, price: real) { forall i :: 0 <= i < |levels| ==> levels[i].price <= price }

  lemma BestFirst(levels: seq<Level>)
    requires |levels| > 0 && Ordered(Sell, levels)
    ensures AtMost(levels, levels[0].price) && AtMost(levels[1..], levels[0].price)
  {
    assert forall i :: 0 < i < |levels| ==> levels[0].price >= levels[i].price;
  }

  /** No placement earns more than its total at the best price. */
  lemma {:induction false} ProceedsAtMost(worth: Pricing, placed: seq<real>, levels: seq<Level>, price: real)
    requires Fair(worth) && Placement(placed, levels) && AtMost(levels, price)
    ensures Proceeds(worth, placed, levels) <= worth(Total(placed), price)
  {
    if placed == [] {
    } else {
      PlacementTail(placed, levels);
      ProceedsAtMost(worth, placed[1..], levels[1..], price);
      assert Capped(worth, placed[0], levels[0].price, Total(placed[1..]), price);
    }
  }

  /** The walk on bids beats every placement of as much quantity, up to the excess at the best price. */
  lemma {:induction false} WalkBeats(worth: Pricing, levels: seq<Level>, limit: real, requested: real, placed: seq<real>, excess: real, price: real)
    requires Fair(worth) && Ordered(Sell, levels) && PositiveLevels(levels) && requested >= 0.0
    requires Placement(placed, levels) && AtMost(levels, price) && excess >= 0.0
    requires Total(placed) == Total(Taken(Sell, levels, limit, requested)) + excess
    ensures Proceeds(worth, placed, levels) <= Proceeds(worth, Taken(Sell, levels, limit, requested), levels) + worth(excess, price)
  {
    if levels == [] {
    } else if !Within(Sell, levels[0].price, limit) {
      NothingEarnsNothing(worth, levels);
      ProceedsAtMost(worth, placed, levels, price);
    } else {
      OrderedTail(Sell, levels);
      PlacementTail(placed, levels);
      BestFirst(levels);
      StepTaken(worth, Sell, levels, limit, requested);
      var best, take := levels[0].price, Taken(Sell, levels, limit, requested)[0];
      assert Exchange(worth, take, placed[0], excess, best, price);
      if requested - take == 0.0 {
        TotalNonNegative(placed[1..], levels[1..]);
        ProceedsAtMost(worth, placed[1..], levels[1..], best);
        assert Total(placed[1..]) == take - placed[0] + excess;
      } else {
        WalkBeats(worth, levels[1..], limit, requested - take, placed[1..], take - placed[0] + excess, best);
      }
    }
  }

  lemma PlacementCons(first: real, rest: seq<real>, levels: seq<Level>)
    requires |levels| > 0 && 0.0 <= first <= levels[0].quantity && Placement(rest, levels[1..])
    ensures Placement([first] + rest, levels)
  {
    forall i | 0 <= i < |levels|
      ensures 0.0 <= ([first] + rest)[i] <= levels[i].quantity
    {
      if i > 0 { assert levels[i] == levels[1..][i - 1]; }
    }
  }

  lemma NothingIsPlacement(levels: seq<Level>)
    requires PositiveLevels(levels)
    ensures Placement(Nothing(|levels|), levels)
  {
  }

  lemma {:induction false} TakenIsPlacement(side: Side, levels: seq<Level>, limit: real, requested: real)
    requires PositiveLevels(levels) && requested >= 0.0
    ensures Placement(Taken(side, levels, limit, requested), levels)
  {
    if levels == [] {
    } else if !Within(side, levels[0].price, limit) {
      NothingIsPlacement(levels);
    } else {
      assert levels[0].quantity > 0.0;
      var take := Min(requested, levels[0].quantity);
      if requested - take == 0.0 {
        NothingIsPlacement(levels[1..]);
        PlacementCons(take, Nothing(|levels| - 1), levels);
      } else {
        TakenIsPlacement(side, levels[1..], limit, requested - take);
        PlacementCons(take, Taken(side, levels[1..], limit, requested - take), levels);
      }
    }
  }

  /** On an accepted book, a sell walk fills what the bids within the limit hold and no more than requested;
      it is a placement of that quantity on the bids, and no placement of as much earns more. */
  lemma SellWalkIsOptimal(book: Book, limit: real, requested: real, placed: seq<real>)
    requires ValidBook(book) && requested >= 0.0
    requires Placement(placed, book.bids) && Total(placed) == Min(requested, DepthWithin(Sell, book.bids, limit))
    ensures var taken := Taken(Sell, book.bids, limit, requested);
            && Placement(taken, book.bids)
            && Total(taken) == Total(placed)
            && Proceeds(Times(), placed, book.bids) <= Proceeds(Times(), taken, book.bids)
  {
    TimesIsFair();
    BestFirst(book.bids);
    WalkFillsAll(Times(), Sell, book.bids, limit, requested);
    TakenIsPlacement(Sell, book.bids, limit, requested);
    WalkBeats(Times(), book.bids, limit, requested, placed, 0.0, book.bids[0].price);
  }

  lemma {:induction false} WalkAtLeastLimit(worth: Pricing, levels: seq<Level>, limit: real, requested: real)
    requires Fair(worth) && PositiveLevels(levels) && requested >= 0.0
    ensures var taken := Taken(Sell, levels, limit, requested); worth(Total(taken), limit) <= Proceeds(worth, taken, levels)
  {
    var taken := Taken(Sell, levels, limit, requested);
    if levels == [] {
    } else if !Within(Sell, levels[0].price, limit) {
      NothingEarnsNothing(worth, levels);
    } else {
      assert levels[0].quantity > 0.0;
      StepTaken(worth, Sell, levels, limit, requested);
      var take := taken[0];
      if requested - take == 0.0 {
        assert Floored(worth, take, levels[0].price, 0.0, limit);
      } else {
        WalkAtLeastLimit(worth, levels[1..], limit, requested - take);
        assert Floored(worth, take, levels[0].price, Total(Taken(Sell, levels[1..], limit, requested - take)), limit);
      }
    }
  }

  /** Sell proceeds lie between the filled quantity at the limit and at the best bid. */
  lemma SellProceedsBounded(book: Book, limit: real, requested: real)
    requires ValidBook(book) && requested >= 0.0
    ensures var taken := Taken(Sell, book.bids, limit, requested);
            Total(taken) * limit <= Proceeds(Times(), taken, book.bids) <= Total(taken) * book.bids[0].price
  {
    TimesIsFair();
    BestFirst(book.bids);
    WalkAtLeastLimit(Times(), book.bids, limit, requested);
    TakenIsPlacement(Sell, book.bids, limit, requested);
    ProceedsAtMost(Times(), Taken(Sell, book.bids, limit, requested), book.bids, book.bids[0].price);
  }
}
