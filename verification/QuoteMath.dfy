/** Exact quote arithmetic: tick and step rounding, price protection and budget-maximal sizing.
    `big.Rat` values are reals. */
module QuoteMath {
  import opened Bytes

  datatype Side = Buy | Sell

  /** The asset in which the venue charges its fee, relative to the route. */
  datatype Charge = FromAsset | ToAsset | ThirdAsset

  // ------------------------------------------------------------ real arithmetic

  lemma MulMonotone(a: real, b: real, c: real)
    requires a <= b && c >= 0.0
    ensures a * c <= b * c
  {
  }

  lemma MulStrict(a: real, b: real, c: real)
    requires a < b && c > 0.0
    ensures a * c < b * c
  {
  }

  lemma Distribute(a: real, b: real, c: real)
    ensures (a + b) * c == a * c + b * c
  {
  }

  lemma MulPositive(a: real, b: real)
    requires a > 0.0 && b > 0.0
    ensures a * b > 0.0
  {
  }

  lemma DivTimes(a: real, b: real)
    requires b != 0.0
    ensures (a / b) * b == a
  {
  }

  lemma MulAssoc(a: real, b: real, c: real)
    ensures (a * b) * c == a * (b * c)
  {
  }

  lemma MulCancel(a: real, b: real, c: real)
    requires c > 0.0
    ensures a * c <= b * c <==> a <= b
  {
    if a <= b { MulMonotone(a, b, c); } else { MulStrict(b, a, c); }
  }

  // ------------------------------------------------------------------- rounding

  /** Integer part, toward zero: `big.Int.Quo` of a fraction's numerator and denominator. */
  function Truncate(x: real): int { if x >= 0.0 then x.Floor else -((-x).Floor) }

  /** `k` whole steps. */
  function Multiple(k: int, step: real): real { k as real * step }

  ghost predicate MultipleOf(value: real, step: real) { exists k :: value == Multiple(k, step) }

  function FloorToStep(value: real, step: real): real
    requires step != 0.0
  {
    Multiple(Truncate(value / step), step)
  }

  function CeilToStep(value: real, step: real): real
    requires step != 0.0
  {
    var units := value / step;
    var whole := Truncate(units);
    Multiple(if units != whole as real then whole + 1 else whole, step)
  }

  lemma MultipleOrder(j: int, k: int, step: real)
    requires step > 0.0
    ensures Multiple(j, step) <= Multiple(k, step) <==> j <= k
  {
    MulCancel(j as real, k as real, step);
  }

  /** Comparing a multiple with a value is comparing whole units. */
  lemma MultipleVersus(k: int, value: real, step: real)
    requires step > 0.0
    ensures Multiple(k, step) <= value <==> k as real <= value / step
    ensures value <= Multiple(k, step) <==> value / step <= k as real
  {
    DivTimes(value, step);
    MulCancel(k as real, value / step, step);
    MulCancel(value / step, k as real, step);
  }

  lemma UnitsNonNegative(value: real, step: real)
    requires value >= 0.0 && step > 0.0
    ensures value / step >= 0.0
  {
  }

  /** For a non-negative value, `floorToStep` is the greatest multiple of the step not above it. */
  lemma FloorToStepGreatest(value: real, step: real, k: int)
    requires value >= 0.0 && step > 0.0
    ensures MultipleOf(FloorToStep(value, step), step)
    ensures 0.0 <= FloorToStep(value, step) <= value
    ensures Multiple(k, step) <= value <==> Multiple(k, step) <= FloorToStep(value, step)
  {
    UnitsNonNegative(value, step);
    var n := Truncate(value / step);
    MultipleVersus(n, value, step);
    MultipleVersus(k, value, step);
    MultipleOrder(k, n, step);
    MultipleOrder(0, n, step);
    assert Multiple(0, step) == 0.0;
  }

  /** For a non-negative value, `ceilToStep` is the least multiple of the step not below it. */
  lemma CeilToStepLeast(value: real, step: real, k: int)
    requires value >= 0.0 && step > 0.0
    ensures MultipleOf(CeilToStep(value, step), step)
    ensures value <= CeilToStep(value, step)
    ensures value <= Multiple(k, step) <==> CeilToStep(value, step) <= Multiple(k, step)
  {
    UnitsNonNegative(value, step);
    var units := value / step;
    var n := if units != Truncate(units) as real then Truncate(units) + 1 else Truncate(units);
    MultipleVersus(n, value, step);
    MultipleVersus(k, value, step);
    MultipleOrder(n, k, step);
  }

  ghost predicate GreatestBelow(f: real, value: real, step: real)
  {
    MultipleOf(f, step) && f <= value && forall k :: Multiple(k, step) <= value ==> Multiple(k, step) <= f
  }

  ghost predicate LeastAbove(c: real, value: real, step: real)
  {
    MultipleOf(c, step) && value <= c && forall k :: value <= Multiple(k, step) ==> c <= Multiple(k, step)
  }

  /** `floorToStep` truncates toward zero. It finds the greatest multiple at or below the value, or indeed any at or
      below it, exactly when the value is non-negative or already a multiple of the step. */
  lemma FloorToStepExact(value: real, step: real)
    requires step > 0.0
    ensures GreatestBelow(FloorToStep(value, step), value, step) <==> value >= 0.0 || MultipleOf(value, step)
    ensures FloorToStep(value, step) <= value <==> value >= 0.0 || MultipleOf(value, step)
  {
    var n := Truncate(value / step);
    assert FloorToStep(value, step) == Multiple(n, step);
    if value >= 0.0 {
      forall k ensures Multiple(k, step) <= value ==> Multiple(k, step) <= FloorToStep(value, step) { FloorToStepGreatest(value, step, k); }
      FloorToStepGreatest(value, step, 0);
    } else {
      NegativeUnits(value, step);
      TruncateNegative(value / step);
      MultipleVersus(n, value, step);
      if MultipleOf(value, step) { MultiplesStay(value, step); }
    }
  }

  /** `ceilToStep` adds a step to the truncated quotient. It finds the least multiple at or above the value exactly
      when the value is non-negative or already a multiple of the step; otherwise it is one step too high. */
  lemma CeilToStepExact(value: real, step: real)
    requires step > 0.0
    ensures LeastAbove(CeilToStep(value, step), value, step) <==> value >= 0.0 || MultipleOf(value, step)
    ensures value <= CeilToStep(value, step)
  {
    var units := value / step;
    if value >= 0.0 {
      forall k ensures value <= Multiple(k, step) ==> CeilToStep(value, step) <= Multiple(k, step) { CeilToStepLeast(value, step, k); }
      CeilToStepLeast(value, step, 0);
    } else if MultipleOf(value, step) {
      MultiplesStay(value, step);
    } else {
      var n := Truncate(units);
      NegativeUnits(value, step);
      TruncateNegative(units);
      MultipleVersus(n, value, step);
      MultipleVersus(n + 1, value, step);
      MultipleOrder(n + 1, n, step);
      DivTimes(value, step);
      assert units == n as real ==> value == Multiple(n, step);
    }
  }

  /** A multiple is its own floor and ceiling. */
  lemma MultiplesStay(value: real, step: real)
    requires step > 0.0 && MultipleOf(value, step)
    ensures FloorToStep(value, step) == value && CeilToStep(value, step) == value
  {
    var k :| value == Multiple(k, step);
    MultipleVersus(k, value, step);
    TruncateWhole(k);
    assert value / step == k as real;
  }

  /** Both at minus one and a half in steps of one. */
  lemma RoundingBelowZero()
    ensures FloorToStep(-1.5, 1.0) == -1.0 && CeilToStep(-1.5, 1.0) == 0.0 && -1.5 <= Multiple(-1, 1.0) < CeilToStep(-1.5, 1.0)
  {
    assert (1.5).Floor == 1;
  }

  lemma NegativeUnits(value: real, step: real)
    requires value < 0.0 && step > 0.0
    ensures value / step < 0.0
  {
    MultipleVersus(0, value, step);
    assert Multiple(0, step) == 0.0;
  }

  lemma TruncateNegative(units: real)
    requires units < 0.0
    ensures units <= Truncate(units) as real
  {
  }

  lemma TruncateWhole(k: int)
    ensures Truncate(k as real) == k
  {
  }

  // ----------------------------------------------------------- price protection

  const BPS := 10_000.0

  /** The worst price the slippage setting allows. */
  function Bound(side: Side, bid: real, ask: real, bps: int): real
  {
    match side
    case Buy => ask * ((10_000 + bps) as real / BPS)
    case Sell => bid * ((10_000 - bps) as real / BPS)
  }

  function ProtectedLimit(side: Side, bid: real, ask: real, tick: real, bps: int): real
    requires tick != 0.0
  {
    match side
    case Buy => FloorToStep(Bound(side, bid, ask, bps), tick)
    case Sell => CeilToStep(Bound(side, bid, ask, bps), tick)
  }

  /** A price at or beyond the touch, away from it by at most `bps` ten-thousandths of it. */
  predicate Protected(side: Side, price: real, bid: real, ask: real, bps: int)
  {
    match side
    case Buy => ask <= price && 10_000.0 * (price - ask) <= bps as real * ask
    case Sell => price <= bid && 10_000.0 * (bid - price) <= bps as real * bid
  }

  /** The marketability guard of `Create`. */
  predicate Marketable(side: Side, limit: real, bid: real, ask: real)
  {
    match side
    case Buy => limit >= ask
    case Sell => limit <= bid
  }

  lemma BoundPositive(side: Side, bid: real, ask: real, bps: int)
    requires bid > 0.0 && ask > 0.0 && 0 < bps <= 50
    ensures Bound(side, bid, ask, bps) > 0.0
  {
    MulPositive(ask, (10_000 + bps) as real / BPS);
    MulPositive(bid, (10_000 - bps) as real / BPS);
  }

  lemma Slipped(touch: real, away: int, price: real)
    ensures price <= touch * ((10_000 + away) as real / BPS) <==> 10_000.0 * (price - touch) <= away as real * touch
    ensures touch * ((10_000 + away) as real / BPS) <= price <==> 10_000.0 * (touch - price) <= -(away as real) * touch
  {
    var a := away as real;
    assert touch * ((10_000.0 + a) / 10_000.0) == touch + (a * touch) / 10_000.0;
  }

  /** Staying within the computed bound is staying within the slippage setting. */
  lemma BoundIsSlippage(side: Side, price: real, bid: real, ask: real, bps: int)
    ensures Protected(side, price, bid, ask, bps)
       <==> if side == Buy then ask <= price <= Bound(side, bid, ask, bps) else Bound(side, bid, ask, bps) <= price <= bid
  {
    match side
    case Buy => Slipped(ask, bps, price);
    case Sell => Slipped(bid, -bps, price);
  }

  /** The limit passes the guard exactly when some legal tick lies between the touch and the bound, and then
      it is the most permissive such tick. */
  lemma LimitIsMostPermissive(side: Side, bid: real, ask: real, tick: real, bps: int, k: int)
    requires bid > 0.0 && ask > 0.0 && tick > 0.0 && 0 < bps <= 50
    ensures var limit := ProtectedLimit(side, bid, ask, tick, bps);
            && MultipleOf(limit, tick)
            && (Marketable(side, limit, bid, ask) ==> Protected(side, limit, bid, ask, bps))
            && (Protected(side, Multiple(k, tick), bid, ask, bps) ==>
                  Marketable(side, limit, bid, ask) && (if side == Buy then Multiple(k, tick) <= limit else limit <= Multiple(k, tick)))
  {
    BoundPositive(side, bid, ask, bps);
    BoundIsSlippage(side, ProtectedLimit(side, bid, ask, tick, bps), bid, ask, bps);
    BoundIsSlippage(side, Multiple(k, tick), bid, ask, bps);
    match side {
      case Buy => FloorToStepGreatest(Bound(side, bid, ask, bps), tick, k);
      case Sell => CeilToStepLeast(Bound(side, bid, ask, bps), tick, k);
    }
  }

  // --------------------------------------------------------------------- sizing

  /** What one unit of base asset can cost in the source asset, fee included. */
  function UnitDebit(side: Side, limit: real, charge: Charge, rate: real): real
  {
    var price := if side == Sell then 1.0 else limit;
    if charge == FromAsset then price * (1.0 + rate) else price
  }

  function MaximumBaseQuantity(side: Side, spend: real, limit: real, step: real, charge: Charge, rate: real): real
    requires step != 0.0 && UnitDebit(side, limit, charge, rate) != 0.0
  {
    FloorToStep(spend / UnitDebit(side, limit, charge, rate), step)
  }

  function SourceDebitUpperBound(side: Side, quantity: real, limit: real, charge: Charge, rate: real): real
  {
    var debit := if side == Buy then quantity * limit else quantity;
    if charge == FromAsset then debit * (1.0 + rate) else debit
  }

  lemma UnitDebitPositive(side: Side, limit: real, charge: Charge, rate: real)
    requires limit > 0.0 && rate >= 0.0
    ensures UnitDebit(side, limit, charge, rate) > 0.0
  {
    MulPositive(if side == Sell then 1.0 else limit, 1.0 + rate);
  }

  lemma DebitIsLinear(side: Side, quantity: real, limit: real, charge: Charge, rate: real)
    ensures SourceDebitUpperBound(side, quantity, limit, charge, rate) == quantity * UnitDebit(side, limit, charge, rate)
  {
    MulAssoc(quantity, limit, 1.0 + rate);
  }

  lemma DebitFits(side: Side, quantity: real, spend: real, limit: real, charge: Charge, rate: real)
    requires limit > 0.0 && rate >= 0.0
    ensures UnitDebit(side, limit, charge, rate) > 0.0
    ensures SourceDebitUpperBound(side, quantity, limit, charge, rate) <= spend <==> quantity <= spend / UnitDebit(side, limit, charge, rate)
  {
    UnitDebitPositive(side, limit, charge, rate);
    var unit := UnitDebit(side, limit, charge, rate);
    DebitIsLinear(side, quantity, limit, charge, rate);
    DivTimes(spend, unit);
    MulCancel(quantity, spend / unit, unit);
  }

  /** The chosen quantity is a step multiple whose debit bound fits the budget, and a step multiple fits the
      budget exactly when it is no larger. */
  lemma QuantityIsBudgetMaximal(side: Side, spend: real, limit: real, step: real, charge: Charge, rate: real, k: int)
    requires spend >= 0.0 && limit > 0.0 && step > 0.0 && rate >= 0.0
    ensures UnitDebit(side, limit, charge, rate) > 0.0
    ensures var best := MaximumBaseQuantity(side, spend, limit, step, charge, rate);
            && MultipleOf(best, step) && best >= 0.0
            && SourceDebitUpperBound(side, best, limit, charge, rate) <= spend
            && (SourceDebitUpperBound(side, Multiple(k, step), limit, charge, rate) <= spend <==> Multiple(k, step) <= best)
  {
    UnitDebitPositive(side, limit, charge, rate);
    var exact := spend / UnitDebit(side, limit, charge, rate);
    UnitsNonNegative(spend, UnitDebit(side, limit, charge, rate));
    FloorToStepGreatest(exact, step, k);
    DebitFits(side, FloorToStep(exact, step), spend, limit, charge, rate);
    DebitFits(side, Multiple(k, step), spend, limit, charge, rate);
  }

  // ------------------------------------------------------- the guards of `Create`

  datatype Rules = Rules(tick: real, step: real, minimumQuantity: real, minimumNotional: Option<real>, maximumQuantity: Option<real>)

  predicate ValidRules(rules: Rules)
  {
    && rules.tick > 0.0 && rules.step > 0.0 && rules.minimumQuantity > 0.0
    && (rules.minimumNotional.Some? ==> rules.minimumNotional.value > 0.0)
    && (rules.maximumQuantity.Some? ==> rules.maximumQuantity.value > 0.0)
  }

  datatype QuoteError = PriceProtectionUnavailable | AmountTooSmall | AmountTooLarge | InsufficientBalance

  datatype Order = Order(limit: real, quantity: real, debit: real)

  /** The guards on a sized order. */
  function CheckSize(side: Side, available: real, limit: real, rules: Rules, charge: Charge, rate: real, quantity: real): Result<Order, QuoteError>
  {
    if quantity <= 0.0 || quantity < rules.minimumQuantity then Err(AmountTooSmall)
    else if rules.maximumQuantity.Some? && quantity > rules.maximumQuantity.value then Err(AmountTooLarge)
    else if rules.minimumNotional.Some? && quantity * limit < rules.minimumNotional.value then Err(AmountTooSmall)
    else
      var debit := SourceDebitUpperBound(side, quantity, limit, charge, rate);
      if debit > available then Err(InsufficientBalance) else Ok(Order(limit, quantity, debit))
  }

  /** The part of `Create` after the limit is known: size the order and check it. */
  function SizeOrder(side: Side, spend: real, available: real, limit: real, rules: Rules, charge: Charge, rate: real): Result<Order, QuoteError>
    requires rules.step != 0.0 && UnitDebit(side, limit, charge, rate) != 0.0
  {
    CheckSize(side, available, limit, rules, charge, rate, MaximumBaseQuantity(side, spend, limit, rules.step, charge, rate))
  }

  /** The numeric part of `Create`, with its guards in order. */
  function PlanOrder(side: Side, spend: real, available: real, bid: real, ask: real, rules: Rules, bps: int,
                     charge: Charge, rate: real): Result<Order, QuoteError>
    requires ValidRules(rules) && spend > 0.0 && bid > 0.0 && ask > 0.0 && 0 < bps <= 50 && rate >= 0.0
  {
    var limit := ProtectedLimit(side, bid, ask, rules.tick, bps);
    if !Marketable(side, limit, bid, ask) then Err(PriceProtectionUnavailable)
    else
      LimitPositive(side, bid, ask, rules.tick, bps);
      UnitDebitPositive(side, limit, charge, rate);
      SizeOrder(side, spend, available, limit, rules, charge, rate)
  }

  lemma LimitPositive(side: Side, bid: real, ask: real, tick: real, bps: int)
    requires bid > 0.0 && ask > 0.0 && tick > 0.0 && 0 < bps <= 50
    requires Marketable(side, ProtectedLimit(side, bid, ask, tick, bps), bid, ask)
    ensures ProtectedLimit(side, bid, ask, tick, bps) > 0.0
  {
    BoundPositive(side, bid, ask, bps);
    LimitIsMostPermissive(side, bid, ask, tick, bps, 0);
  }

  predicate MeetsMinimums(limit: real, rules: Rules, quantity: real)
  {
    && quantity > 0.0 && quantity >= rules.minimumQuantity
    && (rules.minimumNotional.Some? ==> quantity * limit >= rules.minimumNotional.value)
  }

  lemma MinimumsGrow(limit: real, rules: Rules, less: real, more: real)
    requires limit > 0.0 && less <= more && MeetsMinimums(limit, rules, less)
    ensures MeetsMinimums(limit, rules, more)
  {
    MulMonotone(less, more, limit);
  }

  /** A quantity that meets the venue minimums at this limit within the budget. */
  predicate Affordable(side: Side, spend: real, limit: real, rules: Rules, charge: Charge, rate: real, quantity: real)
  {
    && MeetsMinimums(limit, rules, quantity)
    && SourceDebitUpperBound(side, quantity, limit, charge, rate) <= spend
  }

  /** An accepted size is affordable, within the venue maximum and the balance, and no affordable step
      multiple is larger; a refusal as too small means that no step multiple is affordable. */
  ghost predicate SizedExactly(side: Side, spend: real, available: real, limit: real, rules: Rules, charge: Charge, rate: real,
                               r: Result<Order, QuoteError>)
  {
    && (r.Ok? ==>
          && r.value.limit == limit
          && MultipleOf(r.value.quantity, rules.step)
          && Affordable(side, spend, limit, rules, charge, rate, r.value.quantity)
          && (rules.maximumQuantity.Some? ==> r.value.quantity <= rules.maximumQuantity.value)
          && r.value.debit == SourceDebitUpperBound(side, r.value.quantity, limit, charge, rate)
          && r.value.debit <= spend && r.value.debit <= available
          && forall k :: Affordable(side, spend, limit, rules, charge, rate, Multiple(k, rules.step)) ==>
                           Multiple(k, rules.step) <= r.value.quantity)
    && (r == Err(AmountTooSmall) ==>
          forall k :: !Affordable(side, spend, limit, rules, charge, rate, Multiple(k, rules.step)))
  }

  lemma AffordableBelowBest(side: Side, spend: real, limit: real, rules: Rules, charge: Charge, rate: real, k: int)
    requires ValidRules(rules) && spend > 0.0 && limit > 0.0 && rate >= 0.0
    requires Affordable(side, spend, limit, rules, charge, rate, Multiple(k, rules.step))
    ensures UnitDebit(side, limit, charge, rate) > 0.0
    ensures var best := MaximumBaseQuantity(side, spend, limit, rules.step, charge, rate);
            Multiple(k, rules.step) <= best && Affordable(side, spend, limit, rules, charge, rate, best)
  {
    QuantityIsBudgetMaximal(side, spend, limit, rules.step, charge, rate, k);
    MinimumsGrow(limit, rules, Multiple(k, rules.step), MaximumBaseQuantity(side, spend, limit, rules.step, charge, rate));
  }

  lemma CheckSizeExact(side: Side, spend: real, available: real, limit: real, rules: Rules, charge: Charge, rate: real, best: real)
    requires MultipleOf(best, rules.step) && SourceDebitUpperBound(side, best, limit, charge, rate) <= spend
    requires forall k :: Affordable(side, spend, limit, rules, charge, rate, Multiple(k, rules.step)) ==>
                           Multiple(k, rules.step) <= best && Affordable(side, spend, limit, rules, charge, rate, best)
    ensures SizedExactly(side, spend, available, limit, rules, charge, rate, CheckSize(side, available, limit, rules, charge, rate, best))
  {
  }

  lemma SizeOrderExact(side: Side, spend: real, available: real, limit: real, rules: Rules, charge: Charge, rate: real)
    requires ValidRules(rules) && spend > 0.0 && limit > 0.0 && rate >= 0.0
    ensures UnitDebit(side, limit, charge, rate) > 0.0
    ensures SizedExactly(side, spend, available, limit, rules, charge, rate,
                         SizeOrder(side, spend, available, limit, rules, charge, rate))
  {
    QuantityIsBudgetMaximal(side, spend, limit, rules.step, charge, rate, 0);
    var best := MaximumBaseQuantity(side, spend, limit, rules.step, charge, rate);
    forall k | Affordable(side, spend, limit, rules, charge, rate, Multiple(k, rules.step))
      ensures Multiple(k, rules.step) <= best && Affordable(side, spend, limit, rules, charge, rate, best)
    {
      AffordableBelowBest(side, spend, limit, rules, charge, rate, k);
    }
    CheckSizeExact(side, spend, available, limit, rules, charge, rate, best);
  }

  /** `Create` accepts a limit exactly when a legal tick lies between touch and slippage bound, takes the most
      permissive one, and sizes the order exactly. */
  lemma PlanOrderExact(side: Side, spend: real, available: real, bid: real, ask: real, rules: Rules, bps: int, charge: Charge, rate: real)
    requires ValidRules(rules) && spend > 0.0 && bid > 0.0 && ask > 0.0 && 0 < bps <= 50 && rate >= 0.0
    ensures var r := PlanOrder(side, spend, available, bid, ask, rules, bps, charge, rate);
            var limit := ProtectedLimit(side, bid, ask, rules.tick, bps);
            && (r == Err(PriceProtectionUnavailable) <==> forall k :: !Protected(side, Multiple(k, rules.tick), bid, ask, bps))
            && (r != Err(PriceProtectionUnavailable) ==>
                  && MultipleOf(limit, rules.tick) && Protected(side, limit, bid, ask, bps)
                  && SizedExactly(side, spend, available, limit, rules, charge, rate, r))
  {
    var limit := ProtectedLimit(side, bid, ask, rules.tick, bps);
    forall k
      ensures Protected(side, Multiple(k, rules.tick), bid, ask, bps) ==> Marketable(side, limit, bid, ask)
    {
      LimitIsMostPermissive(side, bid, ask, rules.tick, bps, k);
    }
    LimitIsMostPermissive(side, bid, ask, rules.tick, bps, 0);
    if Marketable(side, limit, bid, ask) {
      LimitPositive(side, bid, ask, rules.tick, bps);
      SizeOrderExact(side, spend, available, limit, rules, charge, rate);
    }
  }

  /** The largest step multiple whose debit bound fits the budget. */
  ghost predicate BudgetMaximal(side: Side, spend: real, limit: real, step: real, charge: Charge, rate: real, quantity: real)
  {
    && MultipleOf(quantity, step) && SourceDebitUpperBound(side, quantity, limit, charge, rate) <= spend
    && forall k :: SourceDebitUpperBound(side, Multiple(k, step), limit, charge, rate) <= spend ==> Multiple(k, step) <= quantity
  }

  /** There is exactly one, and it is the quantity chosen. */
  lemma BudgetMaximalIsChosen(side: Side, spend: real, limit: real, step: real, charge: Charge, rate: real, quantity: real)
    requires spend > 0.0 && limit > 0.0 && step > 0.0 && rate >= 0.0
    ensures UnitDebit(side, limit, charge, rate) > 0.0
    ensures BudgetMaximal(side, spend, limit, step, charge, rate, quantity) <==> quantity == MaximumBaseQuantity(side, spend, limit, step, charge, rate)
  {
    QuantityIsBudgetMaximal(side, spend, limit, step, charge, rate, 0);
    var best := MaximumBaseQuantity(side, spend, limit, step, charge, rate);
    forall k
      ensures SourceDebitUpperBound(side, Multiple(k, step), limit, charge, rate) <= spend ==> Multiple(k, step) <= best
    {
      QuantityIsBudgetMaximal(side, spend, limit, step, charge, rate, k);
    }
    if BudgetMaximal(side, spend, limit, step, charge, rate, quantity) {
      var j, k :| quantity == Multiple(j, step) && best == Multiple(k, step);
    }
  }

  predicate TooLarge(rules: Rules, quantity: real) { rules.maximumQuantity.Some? && quantity > rules.maximumQuantity.value }

  /** When the limit is acceptable, the budget-maximal quantity decides between acceptance and each refusal. */
  lemma PlanOrderVerdict(side: Side, spend: real, available: real, bid: real, ask: real, rules: Rules, bps: int, charge: Charge, rate: real,
                         quantity: real)
    requires ValidRules(rules) && spend > 0.0 && bid > 0.0 && ask > 0.0 && 0 < bps <= 50 && rate >= 0.0
    requires Marketable(side, ProtectedLimit(side, bid, ask, rules.tick, bps), bid, ask)
    requires BudgetMaximal(side, spend, ProtectedLimit(side, bid, ask, rules.tick, bps), rules.step, charge, rate, quantity)
    ensures var r := PlanOrder(side, spend, available, bid, ask, rules, bps, charge, rate);
            var limit := ProtectedLimit(side, bid, ask, rules.tick, bps);
            var debit := SourceDebitUpperBound(side, quantity, limit, charge, rate);
            && (r.Ok? <==> MeetsMinimums(limit, rules, quantity) && !TooLarge(rules, quantity) && debit <= available)
            && (r.Ok? ==> r.value == Order(limit, quantity, debit))
            && (r == Err(InsufficientBalance) <==> MeetsMinimums(limit, rules, quantity) && !TooLarge(rules, quantity) && debit > available)
            && (r == Err(AmountTooLarge) <==> quantity > 0.0 && quantity >= rules.minimumQuantity && TooLarge(rules, quantity))
            && (r == Err(AmountTooSmall) <==> !MeetsMinimums(limit, rules, quantity) && r != Err(AmountTooLarge))
  {
    LimitPositive(side, bid, ask, rules.tick, bps);
    BudgetMaximalIsChosen(side, spend, ProtectedLimit(side, bid, ask, rules.tick, bps), rules.step, charge, rate, quantity);
  }
}
