/** The promise behind a quote: what reconciliation finds to have left the account stays within the quoted
    debit bound, and so within the spend budget. */
module DebitBound {
  import opened Bytes
  import opened Ordering
  import opened QuoteMath
  import opened Reconcile

  // ------------------------------------------------------------- fees, fill by fill

  function SignedFee(f: Fill, asset: string): real { if HasFee(f) && f.feeAsset == asset then f.fee.value else 0.0 }

  /** Fees less rebates charged in one asset, over all fills. */
  function SignedFees(fills: seq<Fill>, asset: string): real
  {
    if fills == [] then 0.0 else SignedFees(fills[..|fills| - 1], asset) + SignedFee(fills[|fills| - 1], asset)
  }

  lemma {:induction false} FeesLessRebates(fills: seq<Fill>, asset: string)
    ensures FeeTotal(fills, FeeKey(asset, false)) - FeeTotal(fills, FeeKey(asset, true)) == SignedFees(fills, asset)
  {
    if fills == [] {
    } else {
      FeesLessRebates(fills[..|fills| - 1], asset);
    }
  }

  lemma {:induction false} ListedOnce(fees: seq<TradeFee>, i: nat)
    requires SortedFees(fees) && i < |fees|
    ensures Listed(fees, fees[i].key) == fees[i].amount
  {
    var n := |fees| - 1;
    assert SortedFees(fees[..n]);
    if i == n {
      NotYetListed(fees, fees[n].key);
    } else {
      assert fees[..n][i] == fees[i];
      ListedOnce(fees[..n], i);
      LessOrder(fees[i].key, fees[n].key, fees[i].key);
      assert Less(fees[i].key, fees[n].key);
    }
  }

  lemma ReportedIsSorted(fees: seq<TradeFee>, fills: seq<Fill>)
    requires Reports(fees, fills)
    ensures SortedFees(fees)
  {
    forall i, j | 0 <= i < j < |fees|
      ensures Less(fees[i].key, fees[j].key)
    {
      assert Less(Keys(fees)[i], Keys(fees)[j]);
    }
  }

  /** The fee list holds, under each key, the total over the fills. */
  lemma ReportedAmount(fees: seq<TradeFee>, fills: seq<Fill>, key: FeeKey)
    requires Reports(fees, fills)
    ensures Listed(fees, key) == FeeTotal(fills, key)
  {
    ReportedIsSorted(fees, fills);
    if KeyOccurs(fills, key) {
      assert key in Keys(fees);
      var i :| 0 <= i < |fees| && Keys(fees)[i] == key;
      ListedOnce(fees, i);
    } else {
      forall i | 0 <= i < |fees|
        ensures fees[i].key != key
      {
        assert Keys(fees)[i] in Keys(fees);
      }
      ListedAbsent(fees, key);
      AbsentFeeIsZero(fills, key);
    }
  }

  lemma {:induction false} QuoteTotalNonNegative(fills: seq<Fill>)
    requires AllValid(fills)
    ensures QuoteTotal(fills) >= 0.0
  {
    if fills == [] {
    } else {
      QuoteTotalNonNegative(fills[..|fills| - 1]);
      var f := fills[|fills| - 1];
      assert ValidFill(f);
      MulPositive(f.qty.value, f.price.value);
    }
  }

  /** What reconciliation reports, in terms of the fills alone: the source debit is the gross amount plus fees
      less rebates in the source asset, and the net amount is the gross amount less fees, not below zero, plus
      rebates in the destination asset. */
  lemma ReconciledAmounts(r: Resolution, side: Side, requested: real, fills: seq<Fill>, source: string, destination: string)
    requires AllValid(fills) && Summarizes(r, side, requested, fills)
    ensures var a := ApplyFees(Amounts(r.grossDestination, r.grossSource), r.fees, source, destination);
            var afterFees := r.grossDestination - FeeTotal(fills, FeeKey(destination, false));
            && a.actualSource == r.grossSource + SignedFees(fills, source)
            && a.netDestination == (if afterFees < 0.0 then 0.0 else afterFees) + FeeTotal(fills, FeeKey(destination, true))
  {
    ReportedIsSorted(r.fees, fills);
    FilledPositive(fills);
    QuoteTotalNonNegative(fills);
    ApplyFeesClosed(Amounts(r.grossDestination, r.grossSource), r.fees, source, destination);
    ReportedAmount(r.fees, fills, FeeKey(source, false));
    ReportedAmount(r.fees, fills, FeeKey(source, true));
    ReportedAmount(r.fees, fills, FeeKey(destination, false));
    ReportedAmount(r.fees, fills, FeeKey(destination, true));
    FeesLessRebates(fills, source);
  }

  // ------------------------------------------------------------------- the bound

  /** The source amount that one fill consumes before fees. */
  function SourceOf(side: Side, f: Fill): real
    requires ValidFill(f)
  {
    if side == Buy then f.qty.value * f.price.value else f.qty.value
  }

  /** The fee rate, on the source amount, that the quote allows for in the source asset. */
  function SourceRate(charge: Charge, rate: real): real { if charge == FromAsset then rate else 0.0 }

  /** The venue kept the order's terms: prices within the limit, source-asset fees within the quoted rate. */
  ghost predicate Honoured(side: Side, limit: real, charge: Charge, rate: real, f: Fill, source: string)
    requires ValidFill(f)
  {
    && (if side == Buy then f.price.value <= limit else f.price.value >= limit)
    && SignedFee(f, source) <= SourceRate(charge, rate) * SourceOf(side, f)
  }

  lemma CostArithmetic(q: real, p: real, limit: real, fee: real, rate: real)
    requires q > 0.0 && p <= limit && rate >= 0.0 && fee <= rate * (q * p)
    ensures q * p + fee <= (q * limit) * (1.0 + rate)
  {
    MulMonotone(p, limit, q);
    MulMonotone(q * p, q * limit, rate);
    assert (q * limit) * (1.0 + rate) == q * limit + rate * (q * limit);
  }

  lemma FeeArithmetic(q: real, fee: real, rate: real)
    requires fee <= rate * q
    ensures q + fee <= q * (1.0 + rate)
  {
  }

  /** One honoured fill costs at most the bound on its own quantity. */
  lemma FillCost(side: Side, limit: real, charge: Charge, rate: real, f: Fill, source: string)
    requires ValidFill(f) && rate >= 0.0 && Honoured(side, limit, charge, rate, f, source)
    ensures SourceOf(side, f) + SignedFee(f, source) <= SourceDebitUpperBound(side, f.qty.value, limit, charge, rate)
  {
    var q, fee, r := f.qty.value, SignedFee(f, source), SourceRate(charge, rate);
    if side == Buy {
      CostArithmetic(q, f.price.value, limit, fee, r);
    } else {
      FeeArithmetic(q, fee, r);
    }
  }

  /** The bound is no larger than it must be: a fill of the whole quantity at the limit, charged the full rate in the
      source asset if the quote allows for a charge there and nothing otherwise, costs exactly the bound. */
  lemma BoundIsAttained(side: Side, limit: real, charge: Charge, rate: real, f: Fill, source: string)
    requires ValidFill(f) && (side == Buy ==> f.price.value == limit)
    requires SignedFee(f, source) == if charge == FromAsset then rate * (if side == Buy then f.qty.value * f.price.value else f.qty.value) else 0.0
    ensures (if side == Buy then f.qty.value * f.price.value else f.qty.value) + SignedFee(f, source)
         == SourceDebitUpperBound(side, f.qty.value, limit, charge, rate)
  {
    var gross := if side == Buy then f.qty.value * f.price.value else f.qty.value;
    assert gross * (1.0 + rate) == gross + rate * gross;
  }

  /** A bound on the source amount as a function of the base quantity. */
  type Bounding = real -> real

  predicate AdditiveAt(debit: Bounding, a: real, b: real) { debit(a + b) == debit(a) + debit(b) }

  predicate MonotoneAt(debit: Bounding, a: real, b: real) { a <= b ==> debit(a) <= debit(b) }

  /** Quantities may be bounded one by one, and larger ones have larger bounds. */
  ghost predicate Proportional(debit: Bounding)
  {
    debit(0.0) == 0.0 && forall a, b :: AdditiveAt(debit, a, b) && MonotoneAt(debit, a, b)
  }

  function DebitOf(side: Side, limit: real, charge: Charge, rate: real): Bounding
  {
    (quantity: real) => SourceDebitUpperBound(side, quantity, limit, charge, rate)
  }

  lemma DebitAdds(side: Side, limit: real, charge: Charge, rate: real, a: real, b: real)
    ensures SourceDebitUpperBound(side, a + b, limit, charge, rate)
         == SourceDebitUpperBound(side, a, limit, charge, rate) + SourceDebitUpperBound(side, b, limit, charge, rate)
  {
    Distribute(a, b, limit);
    Distribute(a, b, 1.0 + rate);
    Distribute(a * limit, b * limit, 1.0 + rate);
  }

  lemma DebitGrows(side: Side, limit: real, charge: Charge, rate: real, a: real, b: real)
    requires limit > 0.0 && rate >= 0.0 && a <= b
    ensures SourceDebitUpperBound(side, a, limit, charge, rate) <= SourceDebitUpperBound(side, b, limit, charge, rate)
  {
    MulMonotone(a, b, limit);
    MulMonotone(a, b, 1.0 + rate);
    MulMonotone(a * limit, b * limit, 1.0 + rate);
  }

  lemma DebitIsProportional(side: Side, limit: real, charge: Charge, rate: real)
    requires limit > 0.0 && rate >= 0.0
    ensures Proportional(DebitOf(side, limit, charge, rate))
  {
    var debit := DebitOf(side, limit, charge, rate);
    forall a, b ensures AdditiveAt(debit, a, b) { DebitAdds(side, limit, charge, rate, a, b); }
    forall a, b ensures MonotoneAt(debit, a, b) { if a <= b { DebitGrows(side, limit, charge, rate, a, b); } }
  }

  /** A per-fill cost summed over the fills. */
  function TotalCost(cost: Fill -> real, fills: seq<Fill>): real
  {
    if fills == [] then 0.0 else TotalCost(cost, fills[..|fills| - 1]) + cost(fills[|fills| - 1])
  }

  /** Fills that each stay within the bound on their quantity stay within the bound on any larger total. */
  lemma {:induction false} CostWithinBound(cost: Fill -> real, fills: seq<Fill>, debit: Bounding, quantity: real)
    requires AllValid(fills) && Proportional(debit) && Filled(fills) <= quantity
    requires forall i :: 0 <= i < |fills| ==> cost(fills[i]) <= debit(fills[i].qty.value)
    ensures TotalCost(cost, fills) <= debit(quantity)
  {
    assert MonotoneAt(debit, Filled(fills), quantity);
    if fills != [] {
      var init, last := fills[..|fills| - 1], fills[|fills| - 1];
      CostWithinBound(cost, init, debit, Filled(init));
      assert AdditiveAt(debit, Filled(init), last.qty.value);
    }
  }

  function CostOf(side: Side, source: string): Fill -> real
  {
    (f: Fill) => (if ValidFill(f) then SourceOf(side, f) + SignedFee(f, source) else 0.0)
  }

  lemma {:induction false} TotalCostIs(side: Side, fills: seq<Fill>, source: string)
    requires AllValid(fills)
    ensures TotalCost(CostOf(side, source), fills) == (if side == Buy then QuoteTotal(fills) else Filled(fills)) + SignedFees(fills, source)
  {
    if fills == [] {
    } else {
      TotalCostIs(side, fills[..|fills| - 1], source);
      assert ValidFill(fills[|fills| - 1]);
    }
  }

  lemma HonouredCosts(side: Side, limit: real, charge: Charge, rate: real, fills: seq<Fill>, source: string, quantity: real, debit: Bounding)
    requires AllValid(fills) && limit > 0.0 && rate >= 0.0 && Filled(fills) <= quantity && debit == DebitOf(side, limit, charge, rate)
    requires forall i :: 0 <= i < |fills| ==> Honoured(side, limit, charge, rate, fills[i], source)
    ensures TotalCost(CostOf(side, source), fills) <= debit(quantity)
  {
    forall i | 0 <= i < |fills|
      ensures CostOf(side, source)(fills[i]) <= debit(fills[i].qty.value)
    {
      FillCost(side, limit, charge, rate, fills[i], source);
    }
    DebitIsProportional(side, limit, charge, rate);
    CostWithinBound(CostOf(side, source), fills, debit, quantity);
  }

  /** If every fill honours the order and the total fill is at most the order's quantity, the reconciled
      source debit is within the quoted upper bound. */
  lemma DebitWithinBound(r: Resolution, side: Side, requested: real, fills: seq<Fill>, source: string, destination: string,
                         quantity: real, limit: real, charge: Charge, rate: real)
    requires AllValid(fills) && Summarizes(r, side, requested, fills)
    requires limit > 0.0 && rate >= 0.0 && Filled(fills) <= quantity
    requires forall i :: 0 <= i < |fills| ==> Honoured(side, limit, charge, rate, fills[i], source)
    ensures ApplyFees(Amounts(r.grossDestination, r.grossSource), r.fees, source, destination).actualSource
         <= SourceDebitUpperBound(side, quantity, limit, charge, rate)
  {
    ReconciledAmounts(r, side, requested, fills, source, destination);
    TotalCostIs(side, fills, source);
    HonouredCosts(side, limit, charge, rate, fills, source, quantity, DebitOf(side, limit, charge, rate));
  }

  /** For an order that `Create` accepted: debit found by reconciliation <= SourceDebitUpperBound <= SpendBudget,
      on both sides and for every charge asset. */
  lemma DebitWithinBudget(side: Side, spend: real, available: real, bid: real, ask: real, rules: Rules, bps: int, charge: Charge, rate: real,
                          order: Order, r: Resolution, fills: seq<Fill>, source: string, destination: string)
    requires ValidRules(rules) && spend > 0.0 && bid > 0.0 && ask > 0.0 && 0 < bps <= 50 && rate >= 0.0
    requires PlanOrder(side, spend, available, bid, ask, rules, bps, charge, rate) == Ok(order)
    requires AllValid(fills) && Summarizes(r, side, order.quantity, fills) && Filled(fills) <= order.quantity
    requires forall i :: 0 <= i < |fills| ==> Honoured(side, order.limit, charge, rate, fills[i], source)
    ensures ApplyFees(Amounts(r.grossDestination, r.grossSource), r.fees, source, destination).actualSource <= order.debit
    ensures order.debit <= spend && order.debit <= available
  {
    PlanOrderExact(side, spend, available, bid, ask, rules, bps, charge, rate);
    LimitPositive(side, bid, ask, rules.tick, bps);
    DebitWithinBound(r, side, order.quantity, fills, source, destination, order.quantity, order.limit, charge, rate);
  }

  /** The reconciliation of a trade's fills, as both venue readers perform it. */
  method ReconcileFills(side: Side, requested: Option<real>, fills: seq<Fill>, base: string, quote: string)
    returns (r: Result<Amounts, FillError>)
    ensures r.Ok? <==> requested.Some? && requested.value > 0.0 && AllValid(fills)
    ensures r.Ok? ==>
              var source, destination := if side == Buy then quote else base, if side == Buy then base else quote;
              var gross := if side == Buy then QuoteTotal(fills) else Filled(fills);
              var arrived := if side == Buy then Filled(fills) else QuoteTotal(fills);
              var afterFees := arrived - FeeTotal(fills, FeeKey(destination, false));
              && r.value.actualSource == gross + SignedFees(fills, source)
              && r.value.netDestination == (if afterFees < 0.0 then 0.0 else afterFees) + FeeTotal(fills, FeeKey(destination, true))
  {
    var summary := SummarizeFills(side, requested, fills);
    if summary.Err? { return Err(summary.error); }
    var amounts := ApplyAssets(summary.value, side, base, quote);
    ReconciledAmounts(summary.value, side, requested.value, fills,
                      if side == Buy then quote else base, if side == Buy then base else quote);
    return Ok(amounts);
  }
}
