/** Local valuation of cached accounts from public USD prices, in exact arithmetic. */
module Valuation {
  import opened Bytes
  import opened Text
  import opened Ordering

  // ---------------------------------------------------------------------- entities

  /** A price; `value` is `None` for text that is not a number, and time 0 is the zero time. */
  datatype Price = Price(asset: string, value: Option<real>, source: string, observedAt: int, receivedAt: int)

  /** An asset line; `usdValue` is `None` when the text is empty. */
  datatype Asset = Asset(name: string, quantity: Option<real>, usdValue: Option<real>, source: string, priceAsOf: int, quality: string)

  datatype Completeness = Complete | Partial | Unpriced | NotValued

  datatype Snapshot = Snapshot(
    asOf: int, revision: nat, total: Option<real>, subtotal: Option<real>, basis: string, completeness: Completeness,
    unpriced: seq<string>, assets: seq<Asset>)

  /** What valuation depends on besides the account itself. */
  datatype Market = Market(prices: map<string, Price>, now: int, maxAge: int)

  function UpperChar(c: char): char { if 'a' <= c <= 'z' then c - ' ' else c }

  /** `strings.ToUpper` on ASCII text. */
  function Upper(s: string): string { seq(|s|, i requires 0 <= i < |s| => UpperChar(s[i])) }

  // ------------------------------------------------------------------------- one asset

  /** A price that is stored, stamped, not too old, and positive. */
  predicate HasPrice(m: Market, name: string)
  {
    && Upper(name) in m.prices
    && var p := m.prices[Upper(name)];
       p.receivedAt != 0 && m.now - p.receivedAt <= m.maxAge && p.value.Some? && p.value.value > 0.0
  }

  predicate Countable(a: Asset) { a.quantity.Some? && a.quantity.value >= 0.0 }

  predicate Valuable(m: Market, a: Asset) { Countable(a) && (a.quantity.value == 0.0 || HasPrice(m, a.name)) }

  /** Quantity times price; nothing for a zero quantity, whatever its price. */
  function Worth(m: Market, a: Asset): real
    requires Valuable(m, a)
  {
    if a.quantity.value == 0.0 then 0.0 else a.quantity.value * m.prices[Upper(a.name)].value.value
  }

  function Marked(m: Market, asOf: int, a: Asset): Asset
  {
    if !Valuable(m, a) then a.(usdValue := None, source := "", priceAsOf := 0, quality := "unpriced")
    else if a.quantity.value == 0.0 then a.(usdValue := Some(0.0), source := "zero valuation quantity", priceAsOf := asOf, quality := "fresh")
    else
      var p := m.prices[Upper(a.name)];
      a.(usdValue := Some(Worth(m, a)), source := p.source, priceAsOf := p.observedAt, quality := "fresh")
  }

  // ----------------------------------------------------------------------- an account

  function MarkedAll(m: Market, asOf: int, assets: seq<Asset>): (r: seq<Asset>)
    ensures |r| == |assets| && forall i :: 0 <= i < |r| ==> r[i] == Marked(m, asOf, assets[i])
  {
    seq(|assets|, i requires 0 <= i < |assets| => Marked(m, asOf, assets[i]))
  }

  /** The names of the assets that cannot be valued, in the account's order. */
  function UnpricedNames(m: Market, assets: seq<Asset>): seq<string>
  {
    if assets == [] then []
    else
      var last := assets[|assets| - 1];
      UnpricedNames(m, assets[..|assets| - 1]) + if Valuable(m, last) then [] else [last.name]
  }

  /** The worth of the assets that can be valued. */
  function Subtotal(m: Market, assets: seq<Asset>): real
  {
    if assets == [] then 0.0
    else
      var last := assets[|assets| - 1];
      Subtotal(m, assets[..|assets| - 1]) + if Valuable(m, last) then Worth(m, last) else 0.0
  }

  ghost predicate AllValuable(m: Market, assets: seq<Asset>) { forall i :: 0 <= i < |assets| ==> Valuable(m, assets[i]) }

  ghost predicate SomeValuable(m: Market, assets: seq<Asset>) { exists i :: 0 <= i < |assets| && Valuable(m, assets[i]) }

  const MARK_BASIS := "public USD mark prices"

  /** The valuation of an account, all but its revision. */
  ghost function Valued(m: Market, s: Snapshot): Snapshot
  {
    var assets := MarkedAll(m, s.asOf, s.assets);
    var base := s.(total := None, subtotal := None, basis := MARK_BASIS, unpriced := UnpricedNames(m, s.assets), assets := assets);
    if s.assets != [] && AllValuable(m, s.assets) then
      base.(completeness := Complete, subtotal := Some(Subtotal(m, s.assets)), total := Some(Subtotal(m, s.assets)))
    else if SomeValuable(m, s.assets) then base.(completeness := Partial, subtotal := Some(Subtotal(m, s.assets)))
    else base.(completeness := Unpriced)
  }

  // ---------------------------------------------------------------------- main results

  /** Marking an asset changes neither whether it can be valued nor its worth. */
  lemma MarkedKeeps(m: Market, asOf: int, a: Asset)
    ensures Valuable(m, Marked(m, asOf, a)) == Valuable(m, a)
    ensures Valuable(m, a) ==> Worth(m, Marked(m, asOf, a)) == Worth(m, a)
    ensures Marked(m, asOf, Marked(m, asOf, a)) == Marked(m, asOf, a)
  {
  }

  lemma {:induction false} MarkedAllKeeps(m: Market, asOf: int, assets: seq<Asset>)
    ensures var marked := MarkedAll(m, asOf, assets);
            UnpricedNames(m, marked) == UnpricedNames(m, assets) && Subtotal(m, marked) == Subtotal(m, assets)
  {
    if assets != [] {
      var init, last := assets[..|assets| - 1], assets[|assets| - 1];
      MarkedAllKeeps(m, asOf, init);
      MarkedKeeps(m, asOf, last);
      assert MarkedAll(m, asOf, assets)[..|assets| - 1] == MarkedAll(m, asOf, init);
    }
  }

  /** Valuing an account again at the same instant changes nothing. */
  lemma ValuedTwice(m: Market, s: Snapshot)
    ensures Valued(m, Valued(m, s)) == Valued(m, s)
  {
    var marked := MarkedAll(m, s.asOf, s.assets);
    MarkedAllKeeps(m, s.asOf, s.assets);
    forall i | 0 <= i < |s.assets| ensures Valuable(m, marked[i]) == Valuable(m, s.assets[i]) && Marked(m, s.asOf, marked[i]) == marked[i] {
      MarkedKeeps(m, s.asOf, s.assets[i]);
    }
    assert MarkedAll(m, s.asOf, marked) == marked;
    assert AllValuable(m, marked) == AllValuable(m, s.assets);
    assert SomeValuable(m, marked) == SomeValuable(m, s.assets) by {
      if i :| 0 <= i < |marked| && Valuable(m, marked[i]) { assert Valuable(m, s.assets[i]); }
      if i :| 0 <= i < |marked| && Valuable(m, s.assets[i]) { assert Valuable(m, marked[i]); }
    }
  }

  /** The sum of the values shown on the asset lines. */
  function ShownTotal(assets: seq<Asset>): real
  {
    if assets == [] then 0.0
    else ShownTotal(assets[..|assets| - 1]) + match assets[|assets| - 1].usdValue case Some(v) => v case None => 0.0
  }

  lemma {:induction false} SubtotalIsShown(m: Market, asOf: int, assets: seq<Asset>)
    ensures ShownTotal(MarkedAll(m, asOf, assets)) == Subtotal(m, assets)
  {
    if assets != [] {
      SubtotalIsShown(m, asOf, assets[..|assets| - 1]);
      assert MarkedAll(m, asOf, assets)[..|assets| - 1] == MarkedAll(m, asOf, assets[..|assets| - 1]);
    }
  }

  /** The line `v` of asset `a` shows its quantity times its price, or nothing's worth for a zero quantity. */
  ghost predicate ShowsProduct(m: Market, a: Asset, v: Asset)
  {
    && a.quantity.Some? && v.quality == "fresh"
    && if a.quantity.value == 0.0 then v.usdValue == Some(0.0)
       else && Upper(a.name) in m.prices && m.prices[Upper(a.name)].value.Some?
            && v.usdValue == Some(a.quantity.value * m.prices[Upper(a.name)].value.value)
            && v.source == m.prices[Upper(a.name)].source && v.priceAsOf == m.prices[Upper(a.name)].observedAt
  }

  predicate ShowsNothing(v: Asset) { v.usdValue == None && v.source == "" && v.priceAsOf == 0 && v.quality == "unpriced" }

  /** A valued account is complete exactly when it has assets and all of them can be valued; then every line shows a
      value and the total is their exact sum. It has a subtotal, of the lines that show a value, exactly when some line does. */
  lemma CompleteIsExact(m: Market, s: Snapshot)
    ensures var v := Valued(m, s);
            && (v.completeness == Complete <==> s.assets != [] && AllValuable(m, s.assets))
            && (v.completeness == Complete ==>
                  && v.unpriced == [] && v.total == Some(ShownTotal(v.assets)) && v.subtotal == v.total
                  && forall i :: 0 <= i < |v.assets| ==> ShowsProduct(m, s.assets[i], v.assets[i]))
            && (v.completeness != Complete ==> v.total == None)
            && (v.completeness == Partial ==> v.subtotal == Some(ShownTotal(v.assets)))
            && (v.subtotal.Some? <==> exists i :: 0 <= i < |v.assets| && v.assets[i].usdValue.Some?)
  {
    var v := Valued(m, s);
    SubtotalIsShown(m, s.asOf, s.assets);
    NoneUnpriced(m, s.assets);
    forall i | 0 <= i < |v.assets| ensures v.assets[i].usdValue.Some? <==> Valuable(m, s.assets[i]) { }
    if s.assets != [] && AllValuable(m, s.assets) {
      assert v.assets[0].usdValue.Some?;
    } else if SomeValuable(m, s.assets) {
      var i :| 0 <= i < |s.assets| && Valuable(m, s.assets[i]);
      assert v.assets[i].usdValue.Some?;
    }
  }

  /** The same, read off an account that a price batch or a revaluation has just left behind. */
  lemma SettledIsExact(m: Market, s: Snapshot)
    requires Valued(m, s) == s
    ensures s.completeness == Complete <==> s.assets != [] && AllValuable(m, s.assets)
    ensures s.completeness == Complete ==> s.total == Some(ShownTotal(s.assets)) && s.total == Some(Subtotal(m, s.assets))
    ensures s.unpriced == UnpricedNames(m, s.assets) && (s.unpriced == [] <==> AllValuable(m, s.assets))
    ensures forall i :: 0 <= i < |s.assets| ==>
              if Valuable(m, s.assets[i]) then ShowsProduct(m, s.assets[i], s.assets[i]) else ShowsNothing(s.assets[i])
  {
    CompleteIsExact(m, s);
    NoneUnpriced(m, s.assets);
    forall i | 0 <= i < |s.assets|
      ensures if Valuable(m, s.assets[i]) then ShowsProduct(m, s.assets[i], s.assets[i]) else ShowsNothing(s.assets[i])
    {
      assert s.assets[i] == Marked(m, s.asOf, s.assets[i]);
    }
  }

  /** An asset can be valued exactly when its quantity is known and not negative, and is zero or has a positive price
      received, and received no longer ago than the maximum age. */
  lemma ValuableExactly(m: Market, a: Asset)
    ensures Valuable(m, a)
       <==> a.quantity.Some? && a.quantity.value >= 0.0
            && (a.quantity.value == 0.0
                || exists p :: Upper(a.name) in m.prices && m.prices[Upper(a.name)] == p && p.receivedAt != 0
                               && p.receivedAt >= m.now - m.maxAge && p.value.Some? && p.value.value > 0.0)
  {
  }

  /** Every asset that cannot be valued is named, as often and in the order it occurs. */
  lemma {:induction false} UnpricedExactly(m: Market, a: seq<Asset>, b: seq<Asset>, x: Asset)
    ensures UnpricedNames(m, [x]) == if Valuable(m, x) then [] else [x.name]
    ensures UnpricedNames(m, a + b) == UnpricedNames(m, a) + UnpricedNames(m, b)
  {
    assert [x][..0] == [];
    if b == [] {
      assert a + b == a;
    } else {
      UnpricedExactly(m, a, b[..|b| - 1], x);
      assert (a + b)[..|a + b| - 1] == a + b[..|b| - 1];
    }
  }

  lemma {:induction false} NoneUnpriced(m: Market, assets: seq<Asset>)
    ensures UnpricedNames(m, assets) == [] <==> AllValuable(m, assets)
  {
    if assets != [] { NoneUnpriced(m, assets[..|assets| - 1]); }
  }

  // ------------------------------------------------------------------------- prices

  /** Upper-casing changes the letters a to z, each to its capital, and nothing else. */
  lemma UpperExactly(s: string, i: nat)
    requires i < |s|
    ensures |Upper(s)| == |s|
    ensures 'a' <= s[i] <= 'z' ==> Upper(s)[i] as int == s[i] as int - 32
    ensures !('a' <= s[i] <= 'z') ==> Upper(s)[i] == s[i]
  {
  }

  /** A valid price update in stored form. */
  function Normalized(p: Price, now: int): Price
  {
    var received := if p.receivedAt == 0 then now else p.receivedAt;
    Price(Upper(Trim(p.asset)), p.value, Trim(p.source), if p.observedAt == 0 then received else p.observedAt, received)
  }

  predicate ValidUpdate(p: Price) { Upper(Trim(p.asset)) != "" && Trim(p.source) != "" && p.value.Some? && p.value.value > 0.0 }

  predicate ValidBatch(updates: seq<Price>) { forall i :: 0 <= i < |updates| ==> ValidUpdate(updates[i]) }

  function NormalizedAll(updates: seq<Price>, now: int): seq<Price>
  {
    seq(|updates|, i requires 0 <= i < |updates| => Normalized(updates[i], now))
  }

  function Install(prices: map<string, Price>, p: Price): map<string, Price>
  {
    if p.asset in prices && prices[p.asset].receivedAt > p.receivedAt then prices else prices[p.asset := p]
  }

  function InstallAll(prices: map<string, Price>, updates: seq<Price>): map<string, Price>
  {
    if updates == [] then prices else Install(InstallAll(prices, updates[..|updates| - 1]), updates[|updates| - 1])
  }

  lemma {:induction false} InstallInTurn(prices: map<string, Price>, a: seq<Price>, b: seq<Price>)
    ensures InstallAll(prices, a + b) == InstallAll(InstallAll(prices, a), b)
  {
    if b == [] {
      assert a + b == a;
    } else {
      InstallInTurn(prices, a, b[..|b| - 1]);
      assert (a + b)[..|a + b| - 1] == a + b[..|b| - 1];
    }
  }

  /** `updates[i]` is the latest-received update of its asset, and the last such. */
  ghost predicate IsLatest(updates: seq<Price>, i: nat)
    requires i < |updates|
  {
    forall j :: 0 <= j < |updates| && updates[j].asset == updates[i].asset ==>
      if j <= i then updates[j].receivedAt <= updates[i].receivedAt else updates[j].receivedAt < updates[i].receivedAt
  }

  /** Over all updates ever installed, in however many batches: exactly the assets mentioned have a price, and it is the
      one with the latest receive time. */
  lemma {:induction false} LatestPriceKept(updates: seq<Price>, asset: string)
    ensures var prices := InstallAll(map[], updates);
            && (asset in prices <==> exists i :: 0 <= i < |updates| && updates[i].asset == asset)
            && (asset in prices ==>
                  exists i :: 0 <= i < |updates| && updates[i].asset == asset && prices[asset] == updates[i] && IsLatest(updates, i))
  {
    if updates != [] {
      var init, last := updates[..|updates| - 1], updates[|updates| - 1];
      LatestPriceKept(init, asset);
      var before := InstallAll(map[], init);
      forall j | 0 <= j < |init| ensures updates[j] == init[j] { }
      if last.asset == asset && !(asset in before && before[asset].receivedAt > last.receivedAt) {
        assert IsLatest(updates, |updates| - 1);
      } else if asset in before {
        var i :| 0 <= i < |init| && init[i].asset == asset && before[asset] == init[i] && IsLatest(init, i);
        assert IsLatest(updates, i);
      }
    }
  }

  // ------------------------------------------------------------------------ the manager

  /** How each part of a valuation takes in one more asset. */
  lemma OneMore(m: Market, asOf: int, init: seq<Asset>, last: Asset)
    ensures var all := init + [last];
            && MarkedAll(m, asOf, all) == MarkedAll(m, asOf, init) + [Marked(m, asOf, last)]
            && UnpricedNames(m, all) == UnpricedNames(m, init) + (if Valuable(m, last) then [] else [last.name])
            && Subtotal(m, all) == Subtotal(m, init) + (if Valuable(m, last) then Worth(m, last) else 0.0)
            && (SomeValuable(m, all) <==> SomeValuable(m, init) || Valuable(m, last))
            && (AllValuable(m, all) <==> AllValuable(m, init) && Valuable(m, last))
  {
    var all := init + [last];
    assert all[..|all| - 1] == init;
    forall i | 0 <= i < |init| ensures all[i] == init[i] { }
    assert all[|init|] == last;
    if SomeValuable(m, init) {
      var i :| 0 <= i < |init| && Valuable(m, init[i]);
      assert Valuable(m, all[i]);
    }
    if AllValuable(m, all) {
      assert forall i :: 0 <= i < |init| ==> Valuable(m, all[i]);
    }
  }

  /** One turn of the loop over an account's assets: the marked line, and its worth if it can be valued. */
  method MarkAsset(m: Market, asOf: int, asset: Asset) returns (marked: Asset, worth: Option<real>)
    ensures marked == Marked(m, asOf, asset)
    ensures worth == if Valuable(m, asset) then Some(Worth(m, asset)) else None
  {
    var cleared := asset.(usdValue := None, source := "", priceAsOf := 0, quality := "unpriced");
    if asset.quantity.None? || asset.quantity.value < 0.0 { return cleared, None; }
    if asset.quantity.value == 0.0 {
      return asset.(usdValue := Some(0.0), source := "zero valuation quantity", priceAsOf := asOf, quality := "fresh"), Some(0.0);
    }
    if Upper(asset.name) !in m.prices { return cleared, None; }
    var price := m.prices[Upper(asset.name)];
    if price.receivedAt == 0 || m.now - price.receivedAt > m.maxAge { return cleared, None; }
    if price.value.None? || price.value.value <= 0.0 { return cleared, None; }
    var amount := asset.quantity.value * price.value.value;
    assert HasPrice(m, asset.name) && amount == Worth(m, asset);
    return asset.(usdValue := Some(amount), source := price.source, priceAsOf := price.observedAt, quality := "fresh"), Some(amount);
  }

  /** What the loop over an account's assets has gathered; `complete` starts out as whether there are any. */
  datatype Tally = Tally(assets: seq<Asset>, unpriced: seq<string>, subtotal: real, priced: bool, complete: bool)

  ghost predicate Tallies(m: Market, asOf: int, any: bool, items: seq<Asset>, t: Tally)
  {
    && t.assets == MarkedAll(m, asOf, items) && t.unpriced == UnpricedNames(m, items) && t.subtotal == Subtotal(m, items)
    && (t.priced <==> SomeValuable(m, items)) && (t.complete <==> any && AllValuable(m, items))
  }

  function Tallied(t: Tally, name: string, marked: Asset, worth: Option<real>): Tally
  {
    if worth.None? then t.(assets := t.assets + [marked], unpriced := t.unpriced + [name], complete := false)
    else t.(assets := t.assets + [marked], subtotal := t.subtotal + worth.value, priced := true)
  }

  lemma TallyMore(m: Market, asOf: int, any: bool, init: seq<Asset>, t: Tally, last: Asset, worth: Option<real>)
    requires Tallies(m, asOf, any, init, t) && worth == if Valuable(m, last) then Some(Worth(m, last)) else None
    ensures Tallies(m, asOf, any, init + [last], Tallied(t, last.name, Marked(m, asOf, last), worth))
  {
    OneMore(m, asOf, init, last);
  }

  lemma TallyNone(m: Market, asOf: int, any: bool)
    ensures Tallies(m, asOf, any, [], Tally([], [], 0.0, false, any))
  {
  }

  /** The loop over an account's assets. */
  method MarkAssets(m: Market, asOf: int, items: seq<Asset>) returns (t: Tally)
    ensures Tallies(m, asOf, items != [], items, t)
  {
    t := Tally([], [], 0.0, false, |items| > 0);
    TallyNone(m, asOf, items != []);
    for i := 0 to |items|
      invariant Tallies(m, asOf, items != [], items[..i], t)
    {
      var marked, worth := MarkAsset(m, asOf, items[i]);
      TallyMore(m, asOf, items != [], items[..i], t, items[i], worth);
      assert items[..i + 1] == items[..i] + [items[i]];
      t := Tallied(t, items[i].name, marked, worth);
    }
    assert items[..|items|] == items;
  }

  /** `applyValuationLocked`: values the account and says whether anything shown has changed. */
  method ApplyValuation(m: Market, s: Snapshot) returns (v: Snapshot, changed: bool)
    ensures v == Valued(m, s)
    ensures changed <==> v != s
  {
    var t := MarkAssets(m, s.asOf, s.assets);
    v := s.(total := None, subtotal := None, basis := MARK_BASIS, unpriced := t.unpriced, assets := t.assets, completeness := Unpriced);
    if t.complete {
      v := v.(completeness := Complete, subtotal := Some(t.subtotal), total := Some(t.subtotal));
    } else if t.priced {
      v := v.(completeness := Partial, subtotal := Some(t.subtotal));
    }
    changed := v != s;
  }

  type Accounts = map<string, Snapshot>

  function Elements(venues: seq<string>): set<string> { set v | v in venues }

  ghost function Valuer(m: Market): Snapshot -> Snapshot { (s: Snapshot) => Valued(m, s) }

  /** `value` is the valuation at `m`. */
  ghost predicate IsValuer(value: Snapshot -> Snapshot, m: Market) { forall s {:trigger Valued(m, s)} :: value(s) == Valued(m, s) }

  /** `v` is the new valuation of `s` under a revision in the given range, and differs from `s`. */
  ghost predicate Bumped(value: Snapshot -> Snapshot, s: Snapshot, v: Snapshot, low: nat, high: nat)
  {
    low < v.revision <= high && v == value(s).(revision := v.revision) && value(s) != s
  }

  /** `after` is `before` with exactly the accounts in `changed` revalued, under different revisions above `low`, and
      every other account outside `rest` already as its valuation would have it. */
  ghost predicate Revalued(value: Snapshot -> Snapshot, before: Accounts, after: Accounts, changed: set<string>, rest: set<string>, low: nat)
  {
    && after.Keys == before.Keys && changed <= after.Keys && changed !! rest
    && (forall v :: v in before ==> Handled(value, before[v], after[v], v in changed, v in rest, low, low + |changed|))
    && RevisionsDiffer(after, changed)
  }

  ghost predicate Handled(value: Snapshot -> Snapshot, s: Snapshot, v: Snapshot, moved: bool, waiting: bool, low: nat, high: nat)
  {
    if moved then Bumped(value, s, v, low, high) else v == s && (waiting || value(s) == s)
  }

  ghost predicate RevisionsDiffer(accounts: Accounts, venues: set<string>)
    requires venues <= accounts.Keys
  {
    forall a, b :: a in venues && b in venues && accounts[a].revision == accounts[b].revision ==> a == b
  }

  lemma RevaluedMore(value: Snapshot -> Snapshot, before: Accounts, after: Accounts, changed: set<string>, rest: set<string>, low: nat,
                     venue: string, v: Snapshot)
    requires Revalued(value, before, after, changed, rest, low) && venue in rest && rest <= after.Keys
    requires v == value(after[venue]) && v != after[venue]
    ensures Revalued(value, before, after[venue := v.(revision := low + |changed| + 1)], changed + {venue}, rest - {venue}, low)
    ensures |changed + {venue}| == |changed| + 1 && rest - {venue} <= after[venue := v.(revision := low + |changed| + 1)].Keys
  {
    var after', changed' := after[venue := v.(revision := low + |changed| + 1)], changed + {venue};
    assert |changed'| == |changed| + 1;
    forall w | w in before
      ensures Handled(value, before[w], after'[w], w in changed', w in rest - {venue}, low, low + |changed'|)
    {
      assert Handled(value, before[w], after[w], w in changed, w in rest, low, low + |changed|);
    }
    forall w | w in changed ensures after[w].revision < after'[venue].revision {
      assert Handled(value, before[w], after[w], w in changed, w in rest, low, low + |changed|);
    }
    RevisionsStayDifferent(after, changed, venue, after'[venue]);
  }

  lemma RevisionsStayDifferent(accounts: Accounts, venues: set<string>, venue: string, v: Snapshot)
    requires venues <= accounts.Keys && RevisionsDiffer(accounts, venues)
    requires forall a :: a in venues ==> accounts[a].revision < v.revision
    ensures RevisionsDiffer(accounts[venue := v], venues + {venue})
  {
  }

  lemma RevaluedNone(value: Snapshot -> Snapshot, before: Accounts, low: nat)
    ensures Revalued(value, before, before, {}, before.Keys, low)
  {
  }

  lemma RevaluedSame(value: Snapshot -> Snapshot, before: Accounts, after: Accounts, changed: set<string>, rest: set<string>, low: nat, venue: string)
    requires Revalued(value, before, after, changed, rest, low) && venue in rest && venue in after && value(after[venue]) == after[venue]
    ensures Revalued(value, before, after, changed, rest - {venue}, low)
  {
    forall w | w in before
      ensures Handled(value, before[w], after[w], w in changed, w in rest - {venue}, low, low + |changed|)
    {
      assert Handled(value, before[w], after[w], w in changed, w in rest, low, low + |changed|);
    }
  }

  /** After a revaluation every account is its own valuation. */
  lemma RevaluedSettles(m: Market, before: Accounts, after: Accounts, changed: set<string>, low: nat, venue: string)
    requires Revalued(Valuer(m), before, after, changed, {}, low) && venue in after
    ensures Valuer(m)(after[venue]) == after[venue]
  {
    assert Handled(Valuer(m), before[venue], after[venue], venue in changed, false, low, low + |changed|);
    if venue in changed {
      ValuedTwice(m, before[venue]);
      RevisionUnread(m, Valued(m, before[venue]), after[venue].revision);
    }
  }

  /** Accounts that are their own valuation give no revaluation anything to change. */
  lemma SettledUnchanged(value: Snapshot -> Snapshot, before: Accounts, after: Accounts, changed: set<string>, low: nat)
    requires Revalued(value, before, after, changed, {}, low) && forall v :: v in before ==> value(before[v]) == before[v]
    ensures changed == {} && after == before
  {
    forall v | v in before ensures v in changed ==> value(before[v]) != before[v] {
      assert Handled(value, before[v], after[v], v in changed, false, low, low + |changed|);
    }
    assert changed == set v | v in before && value(before[v]) != before[v] && v in changed;
  }

  lemma RevisionUnread(m: Market, s: Snapshot, revision: nat)
    ensures Valued(m, s.(revision := revision)) == Valued(m, s).(revision := revision)
  {
  }

  // ------------------------------------------------------------------------ the object

  /** A batch in stored form, or nothing if any of it is invalid. */
  method NormalizeBatch(updates: seq<Price>, now: int) returns (normalized: Option<seq<Price>>)
    ensures normalized == if ValidBatch(updates) then Some(NormalizedAll(updates, now)) else None
  {
    var result: seq<Price> := [];
    for i := 0 to |updates|
      invariant ValidBatch(updates[..i]) && result == NormalizedAll(updates[..i], now)
    {
      var update := updates[i];
      var asset, source := Upper(Trim(update.asset)), Trim(update.source);
      if asset == "" || source == "" || update.value.None? || update.value.value <= 0.0 { return None; }
      var received := if update.receivedAt == 0 then now else update.receivedAt;
      var observed := if update.observedAt == 0 then received else update.observedAt;
      result := result + [Price(asset, update.value, source, observed, received)];
    }
    assert updates[..|updates|] == updates;
    return Some(result);
  }

  class Manager {
    var prices: map<string, Price>
    var snapshots: map<string, Snapshot>
    var revision: nat
    var maxAge: int
    ghost var installed: seq<Price>   // every update ever installed, oldest first

    ghost predicate Valid()
      reads this
    {
      prices == InstallAll(map[], installed)
    }

    ghost predicate Settled(now: int)
      reads this
    {
      forall venue :: venue in snapshots ==> Valuer(Market(prices, now, maxAge))(snapshots[venue]) == snapshots[venue]
    }

    constructor (age: int, accounts: map<string, Snapshot>)
      ensures Valid() && installed == [] && snapshots == accounts && maxAge == age
    {
      prices, snapshots, revision, maxAge, installed := map[], accounts, 0, age, [];
    }

    /** `revalueLocked`: every account is valued; the changed ones, and only they, get new revisions, all different, and
        are listed in order; so nothing changes if all were already valued at this instant. */
    method Revalue(now: int) returns (changed: seq<string>)
      modifies this`snapshots, this`revision
      ensures Settled(now) && revision == old(revision) + |changed| && SortedBy(LessText, changed)
      ensures Revalued(Valuer(Market(prices, now, maxAge)), old(snapshots), snapshots, Elements(changed), {}, old(revision))
      ensures old(Settled(now)) ==> changed == [] && snapshots == old(snapshots) && revision == old(revision)
    {
      var m := Market(prices, now, maxAge);
      ghost var value := Valuer(m);
      var venues := RevalueEach(m, value);
      forall venue | venue in snapshots ensures value(snapshots[venue]) == snapshots[venue] {
        RevaluedSettles(m, old(snapshots), snapshots, venues, old(revision), venue);
      }
      if old(Settled(now)) { SettledUnchanged(value, old(snapshots), snapshots, venues, old(revision)); }
      LessTextIsOrder();
      changed := SortSet(LessText, venues);
      assert Elements(changed) == venues;
    }

    /** One account: a new revision exactly when its valuation changes it. */
    method RevalueOne(m: Market, ghost value: Snapshot -> Snapshot, venue: string) returns (moved: bool)
      requires IsValuer(value, m) && venue in snapshots
      modifies this`snapshots, this`revision
      ensures moved <==> value(old(snapshots)[venue]) != old(snapshots)[venue]
      ensures revision == old(revision) + if moved then 1 else 0
      ensures snapshots == if moved then old(snapshots)[venue := value(old(snapshots)[venue]).(revision := revision)] else old(snapshots)
    {
      var v;
      v, moved := ApplyValuation(m, snapshots[venue]);
      assert v == value(snapshots[venue]);
      if moved {
        revision := revision + 1;
        snapshots := snapshots[venue := v.(revision := revision)];
      }
    }

    /** One turn of the loop over the accounts. */
    method RevalueNext(m: Market, ghost value: Snapshot -> Snapshot, venue: string, changed: set<string>,
                       ghost start: Accounts, ghost low: nat, ghost rest: set<string>) returns (changed': set<string>)
      requires IsValuer(value, m) && venue in rest && rest <= snapshots.Keys && revision == low + |changed|
      requires Revalued(value, start, snapshots, changed, rest, low)
      modifies this`snapshots, this`revision
      ensures rest - {venue} <= snapshots.Keys && revision == low + |changed'|
      ensures Revalued(value, start, snapshots, changed', rest - {venue}, low)
    {
      ghost var before := snapshots;
      var moved := RevalueOne(m, value, venue);
      if moved {
        RevaluedMore(value, start, before, changed, rest, low, venue, value(before[venue]));
        return changed + {venue};
      } else {
        RevaluedSame(value, start, snapshots, changed, rest, low, venue);
        return changed;
      }
    }

    method RevalueEach(m: Market, ghost value: Snapshot -> Snapshot) returns (changed: set<string>)
      requires IsValuer(value, m)
      modifies this`snapshots, this`revision
      ensures revision == old(revision) + |changed|
      ensures Revalued(value, old(snapshots), snapshots, changed, {}, old(revision))
    {
      ghost var start, low := snapshots, revision;
      changed := {};
      RevaluedNone(value, start, low);
      var rest := snapshots.Keys;
      while rest != {}
        invariant rest <= snapshots.Keys && revision == low + |changed|
        invariant Revalued(value, start, snapshots, changed, rest, low)
      {
        var venue :| venue in rest;
        changed := RevalueNext(m, value, venue, changed, start, low, rest);
        rest := rest - {venue};
      }
    }

    method InstallBatch(updates: seq<Price>)
      modifies this`prices
      ensures prices == InstallAll(old(prices), updates)
    {
      for i := 0 to |updates|
        invariant prices == InstallAll(old(prices), updates[..i])
      {
        assert updates[..i + 1][..i] == updates[..i];
        var update := updates[i];
        if !(update.asset in prices && prices[update.asset].receivedAt > update.receivedAt) {
          prices := prices[update.asset := update];
        }
      }
      assert updates[..|updates|] == updates;
    }

    /** `UpdateUSDPrices`: a batch is installed whole or, if any of it is invalid, not at all. */
    method UpdateUSDPrices(updates: seq<Price>, at: int, clock: int) returns (ok: bool, changed: seq<string>)
      requires Valid()
      modifies this`prices, this`snapshots, this`revision, this`installed
      ensures Valid() && (ok <==> ValidBatch(updates))
      ensures !ok || updates == [] ==>
                prices == old(prices) && snapshots == old(snapshots) && revision == old(revision) && installed == old(installed)
      ensures var now := if at == 0 then clock else at;
              ok && updates != [] ==> installed == old(installed) + NormalizedAll(updates, now) && Settled(now)
    {
      if updates == [] { return true, []; }
      var now := if at == 0 then clock else at;
      var normalized := NormalizeBatch(updates, now);
      if normalized.None? { return false, []; }
      InstallBatch(normalized.value);
      InstallInTurn(map[], installed, normalized.value);
      installed := installed + normalized.value;
      changed := Revalue(now);
      return true, changed;
    }
  }
}
