/** Reconciliation of real fills: totals, fees by asset and kind, and the amounts that left and reached the
    account. Decimal texts are their exact values. */
module Reconcile {
  import opened Bytes
  import opened Ordering
  import opened QuoteMath

  /** A venue execution; an absent number is a nil pointer, and the fee asset is already trimmed and upper-cased. */
  datatype Fill = Fill(qty: Option<real>, price: Option<real>, fee: Option<real>, feeAsset: string)

  datatype FeeKey = FeeKey(asset: string, rebate: bool)

  datatype TradeFee = TradeFee(key: FeeKey, amount: real)

  datatype FillError = InvalidRequested | InvalidFill | MissingFeeAsset

  datatype Resolution = Resolution(
    filled: real, averagePrice: Option<real>, grossSource: real, grossDestination: real, fees: seq<TradeFee>, allFilled: bool)

  // --------------------------------------------------------------- specification

  predicate HasFee(f: Fill) { f.fee.Some? && f.fee.value != 0.0 }

  predicate ValidFill(f: Fill)
  {
    && f.qty.Some? && f.price.Some? && f.qty.value > 0.0 && f.price.value > 0.0
    && (HasFee(f) ==> f.feeAsset != "")
  }

  predicate AllValid(fills: seq<Fill>) { forall i :: 0 <= i < |fills| ==> ValidFill(fills[i]) }

  function KeyOf(f: Fill): FeeKey
    requires HasFee(f)
  {
    FeeKey(f.feeAsset, f.fee.value < 0.0)
  }

  function Abs(x: real): real { if x < 0.0 then -x else x }

  function Filled(fills: seq<Fill>): real
    requires AllValid(fills)
  {
    if fills == [] then 0.0 else Filled(fills[..|fills| - 1]) + fills[|fills| - 1].qty.value
  }

  function QuoteTotal(fills: seq<Fill>): real
    requires AllValid(fills)
  {
    if fills == [] then 0.0
    else QuoteTotal(fills[..|fills| - 1]) + fills[|fills| - 1].qty.value * fills[|fills| - 1].price.value
  }

  function FeeIn(f: Fill, key: FeeKey): real { if HasFee(f) && KeyOf(f) == key then Abs(f.fee.value) else 0.0 }

  /** The absolute fees, or rebates, in one asset. */
  function FeeTotal(fills: seq<Fill>, key: FeeKey): (r: real)
    ensures r >= 0.0
  {
    if fills == [] then 0.0 else FeeTotal(fills[..|fills| - 1], key) + FeeIn(fills[|fills| - 1], key)
  }

  ghost predicate KeyOccurs(fills: seq<Fill>, key: FeeKey)
  {
    exists i :: 0 <= i < |fills| && HasFee(fills[i]) && KeyOf(fills[i]) == key
  }

  // --------------------------------------------------------------------- sorting

  predicate Less(a: FeeKey, b: FeeKey)
  {
    LessText(a.asset, b.asset) || (a.asset == b.asset && !a.rebate && b.rebate)
  }

  lemma LessOrder(a: FeeKey, b: FeeKey, c: FeeKey)
    ensures !Less(a, a)
    ensures Less(a, b) || Less(b, a) || a == b
    ensures Less(a, b) && Less(b, c) ==> Less(a, c)
  {
    LessTextIrreflexive(a.asset);
    LessTextTotal(a.asset, b.asset);
    if LessText(a.asset, b.asset) && LessText(b.asset, c.asset) {
      LessTextTransitive(a.asset, b.asset, c.asset);
    }
  }

  ghost predicate Sorted(keys: seq<FeeKey>) { forall i, j :: 0 <= i < j < |keys| ==> Less(keys[i], keys[j]) }

  lemma LessIsOrder()
    ensures StrictOrder(Less)
  {
    forall a, b, c ensures OrderedAt(Less, a, b, c) { LessOrder(a, b, c); }
  }

  /** `sort.Slice` over the fee keys. */
  method SortKeys(keys: set<FeeKey>) returns (sorted: seq<FeeKey>)
    ensures Sorted(sorted) && forall k :: k in sorted <==> k in keys
    ensures forall i, j :: 0 <= i < j < |sorted| ==>
              || LessText(sorted[i].asset, sorted[j].asset)
              || (sorted[i].asset == sorted[j].asset && !sorted[i].rebate && sorted[j].rebate)
  {
    LessIsOrder();
    sorted := SortSet(Less, keys);
  }

  // -------------------------------------------------------------- summarizeFills

  ghost predicate Reports(fees: seq<TradeFee>, fills: seq<Fill>)
  {
    && Sorted(Keys(fees))
    && (forall i :: 0 <= i < |fees| ==> fees[i].amount == FeeTotal(fills, fees[i].key))
    && (forall k :: k in Keys(fees) <==> KeyOccurs(fills, k))
  }

  function Keys(fees: seq<TradeFee>): (keys: seq<FeeKey>)
    ensures |keys| == |fees|
  {
    seq(|fees|, i requires 0 <= i < |fees| => fees[i].key)
  }

  /** Quantity, value and fee map of the fills, or the first reason to refuse them. */
  method Accumulate(fills: seq<Fill>) returns (error: Option<FillError>, filled: real, quoteTotal: real, fees: map<FeeKey, real>)
    ensures error.None? <==> AllValid(fills)
    ensures error != Some(InvalidRequested)
    ensures error.None? ==> filled == Filled(fills) && quoteTotal == QuoteTotal(fills)
    ensures error.None? ==> forall k :: k in fees <==> KeyOccurs(fills, k)
    ensures error.None? ==> forall k :: k in fees ==> fees[k] == FeeTotal(fills, k)
  {
    error, filled, quoteTotal, fees := None, 0.0, 0.0, map[];
    for i := 0 to |fills|
      invariant error.None? && AllValid(fills[..i])
      invariant filled == Filled(fills[..i]) && quoteTotal == QuoteTotal(fills[..i])
      invariant forall k :: k in fees <==> KeyOccurs(fills[..i], k)
      invariant forall k :: k in fees ==> fees[k] == FeeTotal(fills[..i], k)
    {
      var item := fills[i];
      if item.qty.None? || item.price.None? || item.qty.value <= 0.0 || item.price.value <= 0.0 {
        error := Some(InvalidFill);
        return;
      }
      assert fills[..i + 1][..i] == fills[..i] && fills[..i + 1][i] == item;
      ghost var before := fees;
      if item.fee.Some? && item.fee.value != 0.0 {
        if item.feeAsset == "" {
          error := Some(MissingFeeAsset);
          return;
        }
        var key := FeeKey(item.feeAsset, item.fee.value < 0.0);
        var sofar := if key in fees then fees[key] else 0.0;
        fees := fees[key := sofar + Abs(item.fee.value)];
      }
      filled := filled + item.qty.value;
      quoteTotal := quoteTotal + item.qty.value * item.price.value;
      FeesGrow(fills, i, before, fees);
    }
    assert fills[..|fills|] == fills;
  }

  lemma FeesGrow(fills: seq<Fill>, i: nat, before: map<FeeKey, real>, after: map<FeeKey, real>)
    requires i < |fills|
    requires forall k :: k in before <==> KeyOccurs(fills[..i], k)
    requires forall k :: k in before ==> before[k] == FeeTotal(fills[..i], k)
    requires var item := fills[i];
             after == if !HasFee(item) then before
                      else before[KeyOf(item) := (if KeyOf(item) in before then before[KeyOf(item)] else 0.0) + Abs(item.fee.value)]
    ensures forall k :: k in after <==> KeyOccurs(fills[..i + 1], k)
    ensures forall k :: k in after ==> after[k] == FeeTotal(fills[..i + 1], k)
  {
    var item := fills[i];
    assert fills[..i + 1][..i] == fills[..i] && fills[..i + 1][i] == item;
    forall k
      ensures KeyOccurs(fills[..i + 1], k) <==> KeyOccurs(fills[..i], k) || (HasFee(item) && KeyOf(item) == k)
    {
      OccursGrows(fills, i, k);
    }
    if HasFee(item) && KeyOf(item) !in before {
      AbsentFeeIsZero(fills[..i], KeyOf(item));
    }
  }

  lemma OccursGrows(fills: seq<Fill>, i: nat, key: FeeKey)
    requires i < |fills|
    ensures KeyOccurs(fills[..i + 1], key) <==> KeyOccurs(fills[..i], key) || (HasFee(fills[i]) && KeyOf(fills[i]) == key)
  {
    if KeyOccurs(fills[..i], key) {
      var j :| 0 <= j < i && HasFee(fills[..i][j]) && KeyOf(fills[..i][j]) == key;
      assert fills[..i + 1][j] == fills[..i][j];
    }
    if KeyOccurs(fills[..i + 1], key) {
      var j :| 0 <= j < i + 1 && HasFee(fills[..i + 1][j]) && KeyOf(fills[..i + 1][j]) == key;
      if j < i { assert fills[..i][j] == fills[..i + 1][j]; }
    }
    if HasFee(fills[i]) && KeyOf(fills[i]) == key {
      assert fills[..i + 1][i] == fills[i];
    }
  }

  lemma {:induction false} AbsentFeeIsZero(fills: seq<Fill>, key: FeeKey)
    requires !KeyOccurs(fills, key)
    ensures FeeTotal(fills, key) == 0.0
  {
    if fills == [] {
    } else {
      var n := |fills| - 1;
      OccursGrows(fills, n, key);
      assert fills[..n + 1] == fills;
      AbsentFeeIsZero(fills[..n], key);
    }
  }

  /** The totals of the fills, seen from the source and the destination of the route. */
  ghost predicate Summarizes(r: Resolution, side: Side, requested: real, fills: seq<Fill>)
    requires AllValid(fills)
  {
    && r.filled == Filled(fills)
    && r.grossSource == (if side == Buy then QuoteTotal(fills) else Filled(fills))
    && r.grossDestination == (if side == Buy then Filled(fills) else QuoteTotal(fills))
    && r.averagePrice == (if Filled(fills) == 0.0 then None else Some(QuoteTotal(fills) / Filled(fills)))
    && r.allFilled == (Filled(fills) != 0.0 && Filled(fills) >= requested)
    && Reports(r.fees, fills)
  }

  /** `summarizeFills`. */
  method SummarizeFills(side: Side, requested: Option<real>, fills: seq<Fill>) returns (r: Result<Resolution, FillError>)
    ensures r.Ok? <==> requested.Some? && requested.value > 0.0 && AllValid(fills)
    ensures r == Err(InvalidRequested) <==> requested.None? || requested.value <= 0.0
    ensures r.Ok? ==> Summarizes(r.value, side, requested.value, fills)
  {
    if requested.None? || requested.value <= 0.0 { return Err(InvalidRequested); }
    var error, filled, quoteTotal, totals := Accumulate(fills);
    if error.Some? { return Err(error.value); }
    if filled == 0.0 {
      NoFills(fills);
      return Ok(Resolution(0.0, None, 0.0, 0.0, [], false));
    }
    var keys := SortKeys(totals.Keys);
    var fees: seq<TradeFee> := [];
    for i := 0 to |keys|
      invariant |fees| == i && forall j :: 0 <= j < i ==> fees[j] == TradeFee(keys[j], FeeTotal(fills, keys[j]))
    {
      assert keys[i] in totals;
      fees := fees + [TradeFee(keys[i], totals[keys[i]])];
    }
    assert Keys(fees) == keys;
    var source, destination := if side == Buy then quoteTotal else filled, if side == Buy then filled else quoteTotal;
    return Ok(Resolution(filled, Some(quoteTotal / filled), source, destination, fees, filled >= requested.value));
  }

  lemma {:induction false} FilledPositive(fills: seq<Fill>)
    requires AllValid(fills)
    ensures Filled(fills) >= 0.0 && (fills != [] ==> Filled(fills) > 0.0)
  {
    if fills == [] {
    } else {
      FilledPositive(fills[..|fills| - 1]);
      assert ValidFill(fills[|fills| - 1]);
    }
  }

  lemma NoFills(fills: seq<Fill>)
    requires AllValid(fills) && Filled(fills) == 0.0
    ensures fills == [] && QuoteTotal(fills) == 0.0 && Reports([], fills)
  {
    FilledPositive(fills);
  }

  // ------------------------------------------------------------------ applyAssets

  /** The two running amounts that `applyAssets` keeps. */
  datatype Amounts = Amounts(netDestination: real, actualSource: real)

  function Signed(fee: TradeFee): real { if fee.key.rebate then -fee.amount else fee.amount }

  /** One fee: it reduces what arrives, never below zero, and adds to what left; an amount that is already
      negative no longer reads as a decimal and is left alone. */
  function ApplyFee(a: Amounts, fee: TradeFee, source: string, destination: string): Amounts
  {
    var net := if fee.key.asset == destination && a.netDestination >= 0.0
               then (if a.netDestination - Signed(fee) < 0.0 then 0.0 else a.netDestination - Signed(fee))
               else a.netDestination;
    var actual := if fee.key.asset == source && a.actualSource >= 0.0 then a.actualSource + Signed(fee) else a.actualSource;
    Amounts(net, actual)
  }

  function ApplyFees(a: Amounts, fees: seq<TradeFee>, source: string, destination: string): Amounts
  {
    if fees == [] then a
    else ApplyFee(ApplyFees(a, fees[..|fees| - 1], source, destination), fees[|fees| - 1], source, destination)
  }

  /** `applyAssets`. */
  method ApplyAssets(result: Resolution, side: Side, base: string, quote: string) returns (amounts: Amounts)
    ensures amounts == ApplyFees(Amounts(result.grossDestination, result.grossSource), result.fees,
                                 if side == Buy then quote else base, if side == Buy then base else quote)
  {
    var source, destination := base, quote;
    if side == Buy { source, destination := quote, base; }
    amounts := Amounts(result.grossDestination, result.grossSource);
    for i := 0 to |result.fees|
      invariant amounts == ApplyFees(Amounts(result.grossDestination, result.grossSource), result.fees[..i], source, destination)
    {
      var fee := result.fees[i];
      assert result.fees[..i + 1][..i] == result.fees[..i] && result.fees[..i + 1][i] == fee;
      var amount := if fee.key.rebate then -fee.amount else fee.amount;
      if fee.key.asset == destination && amounts.netDestination >= 0.0 {
        var value := amounts.netDestination - amount;
        amounts := amounts.(netDestination := if value < 0.0 then 0.0 else value);
      }
      if fee.key.asset == source && amounts.actualSource >= 0.0 {
        amounts := amounts.(actualSource := amounts.actualSource + amount);
      }
    }
    assert result.fees[..|result.fees|] == result.fees;
  }

  /** The amount listed under a key. */
  function Listed(fees: seq<TradeFee>, key: FeeKey): real
  {
    if fees == [] then 0.0
    else Listed(fees[..|fees| - 1], key) + (if fees[|fees| - 1].key == key then fees[|fees| - 1].amount else 0.0)
  }

  lemma {:induction false} ListedAbsent(fees: seq<TradeFee>, key: FeeKey)
    requires forall i :: 0 <= i < |fees| ==> fees[i].key != key
    ensures Listed(fees, key) == 0.0
  {
    if fees == [] {
    } else {
      ListedAbsent(fees[..|fees| - 1], key);
    }
  }

  ghost predicate SortedFees(fees: seq<TradeFee>)
  {
    && (forall i, j :: 0 <= i < j < |fees| ==> Less(fees[i].key, fees[j].key))
    && (forall i :: 0 <= i < |fees| ==> fees[i].amount >= 0.0)
  }

  /** In a sorted list, nothing before an entry has its key or a later one: a rebate comes after the fee. */
  lemma NotYetListed(fees: seq<TradeFee>, key: FeeKey)
    requires |fees| > 0 && SortedFees(fees)
    requires key == fees[|fees| - 1].key || Less(fees[|fees| - 1].key, key)
    ensures Listed(fees[..|fees| - 1], key) == 0.0
  {
    var init, last := fees[..|fees| - 1], fees[|fees| - 1];
    forall i | 0 <= i < |init|
      ensures init[i].key != key
    {
      assert Less(fees[i].key, last.key);
      LessOrder(fees[i].key, last.key, key);
    }
    ListedAbsent(init, key);
  }

  /** What the loop computes from a sorted fee list, in closed form. */
  lemma {:induction false} ApplyFeesClosed(gross: Amounts, fees: seq<TradeFee>, source: string, destination: string)
    requires SortedFees(fees) && gross.netDestination >= 0.0 && gross.actualSource >= 0.0
    ensures var a := ApplyFees(gross, fees, source, destination);
            var fee := gross.netDestination - Listed(fees, FeeKey(destination, false));
            && a.actualSource == gross.actualSource + Listed(fees, FeeKey(source, false)) - Listed(fees, FeeKey(source, true))
            && a.netDestination == (if fee < 0.0 then 0.0 else fee) + Listed(fees, FeeKey(destination, true))
            && Listed(fees, FeeKey(source, false)) >= 0.0 && Listed(fees, FeeKey(destination, true)) >= 0.0
  {
    if fees == [] {
    } else {
      var n := |fees| - 1;
      var init, last := fees[..n], fees[n];
      assert SortedFees(init);
      ApplyFeesClosed(gross, init, source, destination);
      if last.key.asset == source {
        NotYetListed(fees, FeeKey(source, true));
      }
      if last.key.asset == destination {
        NotYetListed(fees, last.key);
        NotYetListed(fees, FeeKey(destination, true));
      }
    }
  }
}
