/** The incremental order book: a snapshot followed by a chain of numbered changes. */
module OrderBook {
  import opened Bytes

  // ---------------------------------------------------------------------- entities

  /** A decoded JSON value. */
  datatype Json = Text(text: string) | Number(value: real) | OtherJson

  datatype Level = Level(price: real, amount: real)

  datatype Update = Update(kind: string, instrument: string, changeId: int, prevChangeId: int, bids: seq<seq<Json>>, asks: seq<seq<Json>>)

  datatype BookError = InstrumentMismatch | MalformedLevel | UnknownType | BookStale | SequenceGap

  type Side = map<real, real>

  datatype Book = Book(instrument: string, changeId: int, stale: bool, bids: Side, asks: Side)

  /** A well-formed level: an action, a positive price and an amount that is not negative. */
  predicate WellFormed(raw: seq<Json>)
  {
    && |raw| == 3 && raw[0].Text? && raw[0].text in {"new", "change", "delete"}
    && raw[1].Number? && raw[1].value > 0.0 && raw[2].Number? && raw[2].value >= 0.0
  }

  predicate AllWellFormed(levels: seq<seq<Json>>) { forall i :: 0 <= i < |levels| ==> WellFormed(levels[i]) }

  predicate Removes(raw: seq<Json>)
    requires WellFormed(raw)
  {
    raw[0].text == "delete" || raw[2].value == 0.0
  }

  function SetLevel(side: Side, raw: seq<Json>): Side
    requires WellFormed(raw)
  {
    if Removes(raw) then side - {raw[1].value} else side[raw[1].value := raw[2].value]
  }

  /** The levels up to the first malformed one, applied in turn. */
  function Applied(side: Side, levels: seq<seq<Json>>): Side
  {
    if levels == [] then side
    else if !AllWellFormed(levels) then Applied(side, levels[..|levels| - 1])
    else SetLevel(Applied(side, levels[..|levels| - 1]), levels[|levels| - 1])
  }

  // ------------------------------------------------------------------ what a side means

  /** The last level that speaks of a price. */
  ghost function LastWord(levels: seq<seq<Json>>, price: real): Option<seq<Json>>
    requires AllWellFormed(levels)
  {
    if levels == [] then None
    else if levels[|levels| - 1][1].value == price then Some(levels[|levels| - 1])
    else LastWord(levels[..|levels| - 1], price)
  }

  /** A side built from nothing holds exactly the prices whose last word sets an amount, with that amount. */
  lemma {:induction false} SideIsLastWord(levels: seq<seq<Json>>, price: real)
    requires AllWellFormed(levels)
    ensures var side, word := Applied(map[], levels), LastWord(levels, price);
            && (price in side <==> && word.Some? && |word.value| == 3 && word.value[0] in {Text("new"), Text("change")}
                                   && word.value[2].Number? && word.value[2].value > 0.0)
            && (price in side ==> side[price] == word.value[2].value)
            && (price in side ==> price > 0.0 && side[price] > 0.0)
  {
    if levels != [] {
      SideIsLastWord(levels[..|levels| - 1], price);
      assert WellFormed(levels[|levels| - 1]);
    }
  }

  lemma {:induction false} AppliedInTurn(side: Side, a: seq<seq<Json>>, b: seq<seq<Json>>)
    requires AllWellFormed(a) && AllWellFormed(b)
    ensures Applied(side, a + b) == Applied(Applied(side, a), b) && AllWellFormed(a + b)
  {
    if b == [] {
      assert a + b == a;
    } else {
      var init, last := b[..|b| - 1], b[|b| - 1];
      AppliedInTurn(side, a, init);
      assert (a + b)[..|a + b| - 1] == a + init;
      assert (a + b)[|a + b| - 1] == last;
    }
  }

  // ---------------------------------------------------------------------- one update

  function Refuse(b: Book, bids: Side, asks: Side, e: BookError): (Book, Option<BookError>)
  {
    (b.(stale := true, bids := bids, asks := asks), Some(e))
  }

  /** Both sides' levels on given sides; a malformed level leaves the book stale. */
  function Install(b: Book, bids: Side, asks: Side, u: Update): (Book, Option<BookError>)
  {
    var bids' := Applied(bids, u.bids);
    var asks' := Applied(asks, u.asks);
    if !AllWellFormed(u.bids) then Refuse(b, bids', asks, MalformedLevel)
    else if !AllWellFormed(u.asks) then Refuse(b, bids', asks', MalformedLevel)
    else (b.(changeId := u.changeId, stale := false, bids := bids', asks := asks'), None)
  }

  function Apply(b: Book, u: Update): (Book, Option<BookError>)
  {
    if u.instrument != b.instrument then (b, Some(InstrumentMismatch))
    else if u.kind == "snapshot" then Install(b, map[], map[], u)
    else if u.kind != "change" then Refuse(b, b.bids, b.asks, UnknownType)
    else if b.stale then (b, Some(BookStale))
    else if u.changeId == b.changeId then (b, None)
    else if u.prevChangeId != b.changeId || u.changeId <= b.changeId then Refuse(b, b.bids, b.asks, SequenceGap)
    else Install(b, b.bids, b.asks, u)
  }

  function NewBook(instrument: string): Book { Book(instrument, 0, true, map[], map[]) }

  function Run(instrument: string, updates: seq<Update>): Book
  {
    if updates == [] then NewBook(instrument) else Apply(Run(instrument, updates[..|updates| - 1]), updates[|updates| - 1]).0
  }

  // --------------------------------------------------------------------- whole histories

  predicate GoodUpdate(instrument: string, u: Update) { u.instrument == instrument && AllWellFormed(u.bids) && AllWellFormed(u.asks) }

  predicate Follows(changeId: int, u: Update) { u.kind == "change" && u.prevChangeId == changeId && u.changeId > changeId }

  /** A snapshot, then changes each of which names its predecessor and has a larger ID. */
  ghost predicate IsChain(instrument: string, chain: seq<Update>)
  {
    && |chain| > 0 && chain[0].kind == "snapshot"
    && (forall i :: 0 <= i < |chain| ==> GoodUpdate(instrument, chain[i]))
    && (forall i :: 0 < i < |chain| ==> Follows(chain[i - 1].changeId, chain[i]))
  }

  function BidsOf(chain: seq<Update>): seq<seq<Json>> { if chain == [] then [] else BidsOf(chain[..|chain| - 1]) + chain[|chain| - 1].bids }

  function AsksOf(chain: seq<Update>): seq<seq<Json>> { if chain == [] then [] else AsksOf(chain[..|chain| - 1]) + chain[|chain| - 1].asks }

  /** An update that says nothing new after a chain that ends at `changeId`. */
  predicate Ignorable(instrument: string, changeId: int, u: Update)
  {
    u.instrument != instrument || (u.kind == "change" && u.changeId == changeId)
  }

  /** `chain` is the last snapshot in `updates` with all that was accepted after it; the rest said nothing new. */
  ghost predicate ChainOf(instrument: string, updates: seq<Update>, chain: seq<Update>)
    decreases |updates|
  {
    && |updates| > 0 && IsChain(instrument, chain)
    && var init, last := updates[..|updates| - 1], updates[|updates| - 1];
       || (Ignorable(instrument, chain[|chain| - 1].changeId, last) && ChainOf(instrument, init, chain))
       || (chain == [last])
       || (|chain| > 1 && chain[|chain| - 1] == last && ChainOf(instrument, init, chain[..|chain| - 1]))
  }

  /** The book holds the chain's levels and its last ID. */
  ghost predicate Replays(b: Book, chain: seq<Update>)
  {
    && |chain| > 0 && b.changeId == chain[|chain| - 1].changeId
    && AllWellFormed(BidsOf(chain)) && AllWellFormed(AsksOf(chain))
    && b.bids == Applied(map[], BidsOf(chain)) && b.asks == Applied(map[], AsksOf(chain))
  }

  lemma RunInstrument(instrument: string, updates: seq<Update>)
    ensures Run(instrument, updates).instrument == instrument
  {
  }

  lemma FirstReplays(b: Book, u: Update)
    requires u.instrument == b.instrument && u.kind == "snapshot" && !Apply(b, u).0.stale
    ensures IsChain(b.instrument, [u]) && Replays(Apply(b, u).0, [u])
  {
    LevelsGrow([], u);
    assert [] + [u] == [u] && [] + u.bids == u.bids && [] + u.asks == u.asks;
  }

  lemma NextReplays(b: Book, chain: seq<Update>, u: Update)
    requires IsChain(b.instrument, chain) && Replays(b, chain) && !b.stale
    requires u.instrument == b.instrument && u.kind == "change" && u.changeId != b.changeId && !Apply(b, u).0.stale
    ensures IsChain(b.instrument, chain + [u]) && Replays(Apply(b, u).0, chain + [u])
  {
    LevelsGrow(chain, u);
    AppliedInTurn(map[], BidsOf(chain), u.bids);
    AppliedInTurn(map[], AsksOf(chain), u.asks);
    ChainGrows(b.instrument, chain, u);
  }

  lemma LevelsGrow(chain: seq<Update>, u: Update)
    ensures BidsOf(chain + [u]) == BidsOf(chain) + u.bids && AsksOf(chain + [u]) == AsksOf(chain) + u.asks
  {
    assert (chain + [u])[..|chain|] == chain;
  }

  lemma ChainGrows(instrument: string, chain: seq<Update>, u: Update)
    requires IsChain(instrument, chain) && GoodUpdate(instrument, u) && Follows(chain[|chain| - 1].changeId, u)
    ensures IsChain(instrument, chain + [u])
  {
  }

  /** Whenever the book is not stale, its sides are the last snapshot followed by an unbroken chain of accepted changes
      with strictly increasing IDs, and nothing else received since was news. */
  lemma {:induction false} FreshBookIsChain(instrument: string, updates: seq<Update>) returns (chain: seq<Update>)
    requires !Run(instrument, updates).stale
    ensures ChainOf(instrument, updates, chain) && Replays(Run(instrument, updates), chain)
  {
    var init, u := updates[..|updates| - 1], updates[|updates| - 1];
    var before := Run(instrument, init);
    RunInstrument(instrument, init);
    if u.instrument == instrument && u.kind == "snapshot" {
      FirstReplays(before, u);
      return [u];
    }
    chain := FreshBookIsChain(instrument, init);
    if u.instrument == instrument && u.changeId != before.changeId {
      NextReplays(before, chain, u);
      assert (chain + [u])[..|chain|] == chain;
      chain := chain + [u];
    }
  }

  /** So every price and amount of a fresh book is positive, and is the chain's last word on that price. */
  lemma FreshBookPositive(instrument: string, updates: seq<Update>, price: real)
    requires !Run(instrument, updates).stale
    ensures var b := Run(instrument, updates);
            && (price in b.bids ==> price > 0.0 && b.bids[price] > 0.0)
            && (price in b.asks ==> price > 0.0 && b.asks[price] > 0.0)
  {
    var chain := FreshBookIsChain(instrument, updates);
    SideIsLastWord(BidsOf(chain), price);
    SideIsLastWord(AsksOf(chain), price);
  }

  /** A stale book becomes fresh exactly by a well-formed snapshot of its instrument; a fresh one becomes stale exactly
      by an unknown type, a gap or a malformed level. */
  lemma StalenessExactly(b: Book, u: Update)
    ensures var isFresh := !Apply(b, u).0.stale;
            && (b.stale ==> (isFresh <==> GoodUpdate(b.instrument, u) && u.kind == "snapshot"))
            && (!b.stale ==>
                  (isFresh <==> (|| Ignorable(b.instrument, b.changeId, u)
                                 || (GoodUpdate(b.instrument, u) && u.kind == "snapshot")
                                 || (GoodUpdate(b.instrument, u) && Follows(b.changeId, u)))))
    ensures Ignorable(b.instrument, b.changeId, u) ==> Apply(b, u).0 == b || b.stale
  {
  }

  /** After a gap or a malformed level, only a snapshot clears staleness, however many changes follow. */
  lemma {:induction false} StaleUntilSnapshot(instrument: string, updates: seq<Update>, from: nat)
    requires from <= |updates| && Run(instrument, updates[..from]).stale
    requires forall i :: from <= i < |updates| ==> !(GoodUpdate(instrument, updates[i]) && updates[i].kind == "snapshot")
    ensures Run(instrument, updates).stale
    decreases |updates|
  {
    if from == |updates| {
      assert updates[..from] == updates;
    } else {
      var init := updates[..|updates| - 1];
      assert init[..from] == updates[..from];
      StaleUntilSnapshot(instrument, init, from);
      RunInstrument(instrument, init);
      StalenessExactly(Run(instrument, init), updates[|updates| - 1]);
    }
  }

  // ------------------------------------------------------------------------ the object

  /** `applyLevels`: stops at the first malformed level, keeping what it did before. */
  method ApplyLevels(side: Side, levels: seq<seq<Json>>) returns (side': Side, failure: Option<BookError>)
    ensures side' == Applied(side, levels)
    ensures failure == if AllWellFormed(levels) then None else Some(MalformedLevel)
    ensures failure.None? <==> forall i :: 0 <= i < |levels| ==>
              && |levels[i]| == 3 && levels[i][0] in {Text("new"), Text("change"), Text("delete")}
              && levels[i][1].Number? && levels[i][1].value > 0.0 && levels[i][2].Number? && levels[i][2].value >= 0.0
  {
    side' := side;
    for i := 0 to |levels|
      invariant AllWellFormed(levels[..i]) && side' == Applied(side, levels[..i])
    {
      var raw := levels[i];
      if |raw| != 3 || !raw[0].Text? || !raw[1].Number? || raw[1].value <= 0.0 || !raw[2].Number? || raw[2].value < 0.0
         || (raw[0].text != "new" && raw[0].text != "change" && raw[0].text != "delete") {
        StopsAt(side, levels, i);
        return side', Some(MalformedLevel);
      }
      assert levels[..i + 1][..i] == levels[..i];
      if raw[0].text == "delete" || raw[2].value == 0.0 {
        side' := side' - {raw[1].value};
      } else {
        side' := side'[raw[1].value := raw[2].value];
      }
    }
    assert levels[..|levels|] == levels;
    return side', None;
  }

  lemma {:induction false} StopsAt(side: Side, levels: seq<seq<Json>>, i: nat)
    requires i < |levels| && !WellFormed(levels[i]) && AllWellFormed(levels[..i])
    ensures Applied(side, levels) == Applied(side, levels[..i])
    decreases |levels|
  {
    var init := levels[..|levels| - 1];
    if i < |init| {
      assert init[..i] == levels[..i];
      StopsAt(side, init, i);
    }
  }

  predicate Ahead(descending: bool, p: real, q: real) { if descending then p > q else p < q }

  ghost predicate SortedLevels(descending: bool, levels: seq<Level>)
  {
    forall i, j :: 0 <= i < j < |levels| ==> Ahead(descending, levels[i].price, levels[j].price)
  }

  ghost predicate Lists(levels: seq<Level>, side: Side)
  {
    && (forall i :: 0 <= i < |levels| ==> levels[i].price in side && side[levels[i].price] == levels[i].amount)
    && (forall p :: p in side ==> Level(p, side[p]) in levels)
  }

  /** One level put in its place among sorted ones. */
  method InsertLevel(descending: bool, levels: seq<Level>, level: Level) returns (r: seq<Level>)
    requires SortedLevels(descending, levels) && forall i :: 0 <= i < |levels| ==> levels[i].price != level.price
    ensures SortedLevels(descending, r) && multiset(r) == multiset(levels) + multiset{level}
  {
    var k := 0;
    while k < |levels| && Ahead(descending, levels[k].price, level.price)
      invariant 0 <= k <= |levels| && forall i :: 0 <= i < k ==> Ahead(descending, levels[i].price, level.price)
    {
      k := k + 1;
    }
    r := levels[..k] + [level] + levels[k..];
    assert levels == levels[..k] + levels[k..];
  }

  lemma SomePrice(prices: set<real>)
    ensures prices == {} || exists p :: p in prices
  {
    assert (forall p :: p !in prices) ==> prices == {};
  }

  /** One side as a sorted list of its levels. */
  method ListSide(descending: bool, side: Side) returns (levels: seq<Level>)
    ensures SortedLevels(descending, levels) && Lists(levels, side) && |levels| == |side|
  {
    levels := [];
    var rest := side.Keys;
    while rest != {}
      invariant rest <= side.Keys && |levels| + |rest| == |side.Keys| && SortedLevels(descending, levels)
      invariant forall l :: l in levels <==> l.price in side && l.price !in rest && side[l.price] == l.amount
    {
      SomePrice(rest);
      var p :| p in rest;
      ghost var before := levels;
      levels := InsertLevel(descending, levels, Level(p, side[p]));
      forall l ensures l in levels <==> l in before || l == Level(p, side[p]) {
        assert l in levels <==> l in multiset(levels);
      }
      assert |levels| == |multiset(levels)|;
      rest := rest - {p};
    }
    assert |side.Keys| == |side|;
  }

  class LiveBook {
    const instrument: string
    var changeId: int
    var stale: bool
    var bids: Side
    var asks: Side

    ghost function State(): Book
      reads this
    {
      Book(instrument, changeId, stale, bids, asks)
    }

    constructor (name: string)
      ensures State() == NewBook(name)
    {
      instrument, changeId, stale, bids, asks := name, 0, true, map[], map[];
    }

    method ApplyUpdate(u: Update) returns (failure: Option<BookError>)
      modifies this
      ensures (State(), failure) == Apply(old(State()), u)
    {
      if u.instrument != instrument { return Some(InstrumentMismatch); }
      if u.kind == "snapshot" {
        bids, asks := map[], map[];
      } else {
        if u.kind != "change" {
          stale := true;
          return Some(UnknownType);
        }
        if stale { return Some(BookStale); }
        if u.changeId == changeId { return None; }
        if u.prevChangeId != changeId || u.changeId <= changeId {
          stale := true;
          return Some(SequenceGap);
        }
      }
      bids, failure := ApplyLevels(bids, u.bids);
      if failure.Some? {
        stale := true;
        return;
      }
      asks, failure := ApplyLevels(asks, u.asks);
      if failure.Some? {
        stale := true;
        return;
      }
      changeId, stale := u.changeId, false;
    }

    method Levels() returns (bidLevels: seq<Level>, askLevels: seq<Level>)
      ensures SortedLevels(true, bidLevels) && Lists(bidLevels, bids)
      ensures SortedLevels(false, askLevels) && Lists(askLevels, asks)
    {
      bidLevels := ListSide(true, bids);
      askLevels := ListSide(false, asks);
    }
  }
}
