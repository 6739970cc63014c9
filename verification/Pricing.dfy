/** The pricing pipeline: a fold over the loaded rules, then discounts and tax. Money is in paise; a percentage is in
    hundredths of a percent. */
module Pricing {
  import opened Common
  import opened Rounding
  import Times

  const TAX_RATE_PCT := 18
  const HUNDRED_PCT := 10000

  datatype Adjustment = Fixed | Percentage | Override | Unknown

  datatype Conditions = Conditions(
    days: Option<set<int>>,
    timeRange: Option<(int, int)>,
    bookingType: Option<string>,
    slotType: Option<string>)

  datatype Rule = Rule(
    name: string,
    ruleType: string,
    conditions: Conditions,
    adjustment: Adjustment,
    value: int,
    stackable: bool,
    validFrom: Option<int>,
    validUntil: Option<int>)

  datatype Context = Context(
    basePrice: int,
    bookingDate: int,
    startTime: int,
    slotType: string,
    bookingType: string,
    membershipDiscount: int,
    couponDiscount: int)

  datatype AppliedRule = AppliedRule(name: string, ruleType: string, adjustment: Adjustment, value: int, effect: int)

  datatype PriceBreakdown = PriceBreakdown(
    basePrice: int,
    applied: seq<AppliedRule>,
    discount: int,
    couponDiscount: int,
    subtotal: int,
    tax: int,
    total: int)

  predicate Matches(rule: Rule, ctx: Context) {
    var c := rule.conditions;
    && (c.days.Some? ==> Times.Weekday(ctx.bookingDate) in c.days.value)
    && (c.timeRange.Some? ==> c.timeRange.value.0 <= ctx.startTime < c.timeRange.value.1)
    && (c.bookingType.Some? ==> ctx.bookingType == c.bookingType.value)
    && (c.slotType.Some? ==> ctx.slotType == c.slotType.value)
    && (rule.validFrom.Some? ==> rule.validFrom.value <= ctx.bookingDate)
    && (rule.validUntil.Some? ==> ctx.bookingDate <= rule.validUntil.value)
  }

  function Effect(rule: Rule, price: int): int {
    match rule.adjustment
    case Fixed => rule.value
    case Percentage => HalfEven(price * rule.value, HUNDRED_PCT)
    case Override => rule.value - price
    case Unknown => 0
  }

  predicate Exclusive(rule: Rule, ctx: Context, ruleType: string) {
    !rule.stackable && rule.ruleType == ruleType && Matches(rule, ctx)
  }

  /** Rule i takes effect: it matches and, unless it stacks, no earlier exclusive rule of its type matched. */
  predicate Applies(rules: seq<Rule>, ctx: Context, i: nat)
    requires i < |rules|
  {
    && Matches(rules[i], ctx)
    && (rules[i].stackable || forall j :: 0 <= j < i ==> !Exclusive(rules[j], ctx, rules[i].ruleType))
  }

  /** The running price once the first n rules have been considered. */
  function PriceAfter(rules: seq<Rule>, ctx: Context, n: nat): int
    requires n <= |rules|
  {
    if n == 0 then ctx.basePrice
    else
      var p := PriceAfter(rules, ctx, n - 1);
      if Applies(rules, ctx, n - 1) then p + Effect(rules[n - 1], p) else p
  }

  function Ledger(rules: seq<Rule>, ctx: Context, n: nat): seq<AppliedRule>
    requires n <= |rules|
  {
    if n == 0 then []
    else
      var r := rules[n - 1];
      Ledger(rules, ctx, n - 1) +
      if Applies(rules, ctx, n - 1)
      then [AppliedRule(r.name, r.ruleType, r.adjustment, r.value, Effect(r, PriceAfter(rules, ctx, n - 1)))]
      else []
  }

  function Subtotal(running: int, discount: int): int {
    Max(running - discount, 0)
  }

  function Tax(subtotal: int): int {
    HalfEven(subtotal * TAX_RATE_PCT, 100)
  }

  function Breakdown(rules: seq<Rule>, ctx: Context): PriceBreakdown {
    var subtotal := Subtotal(PriceAfter(rules, ctx, |rules|), ctx.membershipDiscount + ctx.couponDiscount);
    PriceBreakdown(ctx.basePrice, Ledger(rules, ctx, |rules|), ctx.membershipDiscount, ctx.couponDiscount,
                   subtotal, Tax(subtotal), subtotal + Tax(subtotal))
  }

  /** One pass with a set of exclusive types already used yields the declarative breakdown. */
  method RunPipeline(rules: seq<Rule>, ctx: Context) returns (b: PriceBreakdown)
    ensures b == Breakdown(rules, ctx)
    ensures forall k: nat :: LastOverride(rules, ctx, k) ==>
              b.subtotal == Max(rules[k].value + AppliedValues(rules, ctx, k + 1, |rules|)
                                - ctx.membershipDiscount - ctx.couponDiscount, 0)
  {
    var running := ctx.basePrice;
    var exclusiveApplied: set<string> := {};
    var applied: seq<AppliedRule> := [];
    for i := 0 to |rules|
      invariant running == PriceAfter(rules, ctx, i)
      invariant applied == Ledger(rules, ctx, i)
      invariant forall t :: t in exclusiveApplied <==> exists j :: 0 <= j < i && Exclusive(rules[j], ctx, t)
    {
      var rule := rules[i];
      if !Matches(rule, ctx) {
        continue;
      }
      if !rule.stackable {
        if rule.ruleType in exclusiveApplied {
          continue;
        }
        exclusiveApplied := exclusiveApplied + {rule.ruleType};
      }
      var effect := Effect(rule, running);
      running := running + effect;
      applied := applied + [AppliedRule(rule.name, rule.ruleType, rule.adjustment, rule.value, effect)];
    }
    var totalDiscount := ctx.membershipDiscount + ctx.couponDiscount;
    var subtotal := Max(running - totalDiscount, 0);
    var tax := HalfEven(subtotal * TAX_RATE_PCT, 100);
    b := PriceBreakdown(ctx.basePrice, applied, ctx.membershipDiscount, ctx.couponDiscount, subtotal, tax, subtotal + tax);
    forall k: nat | LastOverride(rules, ctx, k)
      ensures b.subtotal == Max(rules[k].value + AppliedValues(rules, ctx, k + 1, |rules|)
                                - ctx.membershipDiscount - ctx.couponDiscount, 0)
    {
      LastOverrideDecides(rules, ctx, k);
    }
  }

  // ---- The breakdown is a faithful ledger ----

  function SumEffects(applied: seq<AppliedRule>): int {
    if applied == [] then 0 else SumEffects(applied[..|applied| - 1]) + applied[|applied| - 1].effect
  }

  /** The running price is the base price plus the recorded effects. */
  lemma {:induction false} LedgerBalances(rules: seq<Rule>, ctx: Context, n: nat)
    requires n <= |rules|
    ensures PriceAfter(rules, ctx, n) == ctx.basePrice + SumEffects(Ledger(rules, ctx, n))
  {
    if n > 0 {
      LedgerBalances(rules, ctx, n - 1);
      var before, l := Ledger(rules, ctx, n - 1), Ledger(rules, ctx, n);
      var p := PriceAfter(rules, ctx, n - 1);
      if Applies(rules, ctx, n - 1) {
        assert |l| == |before| + 1 && l[|before|].effect == Effect(rules[n - 1], p);
        assert l[..|before|] == before;
      } else {
        assert l == before;
      }
    }
  }

  function ExclusiveApplied(rules: seq<Rule>, ctx: Context, ruleType: string, n: nat): nat
    requires n <= |rules|
  {
    if n == 0 then 0
    else
      ExclusiveApplied(rules, ctx, ruleType, n - 1) +
      if Applies(rules, ctx, n - 1) && Exclusive(rules[n - 1], ctx, ruleType) then 1 else 0
  }

  /** Per type, exactly one exclusive rule takes effect when any matches, and it is the first in the loaded order. */
  lemma {:induction false} OneExclusivePerType(rules: seq<Rule>, ctx: Context, ruleType: string, first: nat, n: nat)
    requires first <= n <= |rules|
    requires forall j :: 0 <= j < first ==> !Exclusive(rules[j], ctx, ruleType)
    requires first < n ==> Exclusive(rules[first], ctx, ruleType)
    ensures ExclusiveApplied(rules, ctx, ruleType, n) == if first < n then 1 else 0
    ensures first < n ==> Applies(rules, ctx, first)
  {
    if n > 0 {
      if first < n - 1 {
        OneExclusivePerType(rules, ctx, ruleType, first, n - 1);
      } else {
        OneExclusivePerType(rules, ctx, ruleType, n - 1, n - 1);
      }
    }
  }

  /** Two rule lists select the same positions. */
  ghost predicate SameSelection(r1: seq<Rule>, c1: Context, r2: seq<Rule>, c2: Context) {
    && |r1| == |r2|
    && forall i :: 0 <= i < |r1| ==>
         && (Matches(r1[i], c1) <==> Matches(r2[i], c2))
         && r1[i].ruleType == r2[i].ruleType
         && r1[i].stackable == r2[i].stackable
  }

  lemma SameSelectionApplies(r1: seq<Rule>, c1: Context, r2: seq<Rule>, c2: Context, i: nat)
    requires SameSelection(r1, c1, r2, c2) && i < |r1|
    ensures Applies(r1, c1, i) <==> Applies(r2, c2, i)
  {
    var t := r1[i].ruleType;
    assert forall j :: 0 <= j < i ==> (Exclusive(r1[j], c1, t) <==> Exclusive(r2[j], c2, t));
  }

  /** Once an override has applied, neither the base price nor the amounts of earlier rules matter any more. */
  lemma {:induction false} OverrideForgets(r1: seq<Rule>, c1: Context, r2: seq<Rule>, c2: Context, k: nat, n: nat)
    requires SameSelection(r1, c1, r2, c2) && k < n <= |r1|
    requires r1[k..] == r2[k..] && r1[k].adjustment.Override? && Applies(r1, c1, k)
    ensures PriceAfter(r1, c1, n) == PriceAfter(r2, c2, n)
  {
    SameSelectionApplies(r1, c1, r2, c2, n - 1);
    assert r1[k..][n - 1 - k] == r2[k..][n - 1 - k];
    if k < n - 1 {
      OverrideForgets(r1, c1, r2, c2, k, n - 1);
    }
  }

  // ---- What is charged ----

  /** An applied override sets the price and an applied fixed rule adds its value; a percentage adds its share of the price,
      rounded half to even. Nothing else changes the price. */
  lemma NextPrice(rules: seq<Rule>, ctx: Context, k: nat)
    requires k < |rules|
    ensures var rule, before, after := rules[k], PriceAfter(rules, ctx, k), PriceAfter(rules, ctx, k + 1);
            && (Applies(rules, ctx, k) && rule.adjustment.Override? ==> after == rule.value)
            && (Applies(rules, ctx, k) && rule.adjustment.Fixed? ==> after == before + rule.value)
            && (Applies(rules, ctx, k) && rule.adjustment.Percentage? ==>
                  IsHalfEven(before * rule.value, 10000, after - before))
            && (!Applies(rules, ctx, k) || rule.adjustment.Unknown? ==> after == before)
  {
    var before := PriceAfter(rules, ctx, k);
    HalfEvenUnique(before * rules[k].value, HUNDRED_PCT, HalfEven(before * rules[k].value, HUNDRED_PCT));
  }

  /** The values of the applied rules from place k up to place n. */
  function AppliedValues(rules: seq<Rule>, ctx: Context, k: nat, n: nat): int
    requires k <= n <= |rules|
  {
    if n == k then 0 else AppliedValues(rules, ctx, k, n - 1) + if Applies(rules, ctx, n - 1) then rules[n - 1].value else 0
  }

  /** From place k up to place n only fixed rules apply. */
  ghost predicate OnlyFixed(rules: seq<Rule>, ctx: Context, k: nat, n: nat)
    requires k <= n <= |rules|
  {
    forall i :: k <= i < n && Applies(rules, ctx, i) ==> rules[i].adjustment.Fixed?
  }

  lemma {:induction false} FixedRulesAdd(rules: seq<Rule>, ctx: Context, k: nat, n: nat)
    requires k <= n <= |rules| && OnlyFixed(rules, ctx, k, n)
    ensures PriceAfter(rules, ctx, n) == PriceAfter(rules, ctx, k) + AppliedValues(rules, ctx, k, n)
  {
    if k < n {
      FixedRulesAdd(rules, ctx, k, n - 1);
      NextPrice(rules, ctx, n - 1);
    }
  }

  /** Rule k is the last override to apply, and after it only fixed rules do. An override that comes after an exclusive rule
      of its type that matched has no effect, unless it stacks. */
  ghost predicate LastOverride(rules: seq<Rule>, ctx: Context, k: nat) {
    && k < |rules| && rules[k].adjustment.Override? && Matches(rules[k], ctx)
    && (rules[k].stackable
        || forall j :: 0 <= j < k && !rules[j].stackable && rules[j].ruleType == rules[k].ruleType ==> !Matches(rules[j], ctx))
    && forall i :: k < i < |rules| && !rules[i].adjustment.Fixed? && Matches(rules[i], ctx) ==>
         && !rules[i].stackable
         && exists j :: 0 <= j < i && !rules[j].stackable && rules[j].ruleType == rules[i].ruleType && Matches(rules[j], ctx)
  }

  /** The last override decides: what is charged is its value, plus the fixed rules after it, less the discounts; plus tax. */
  lemma LastOverrideDecides(rules: seq<Rule>, ctx: Context, k: nat)
    requires LastOverride(rules, ctx, k)
    ensures Breakdown(rules, ctx).subtotal ==
              Max(rules[k].value + AppliedValues(rules, ctx, k + 1, |rules|) - ctx.membershipDiscount - ctx.couponDiscount, 0)
  {
    forall i | k < i < |rules| && !rules[i].adjustment.Fixed? ensures !Applies(rules, ctx, i) {
      if Matches(rules[i], ctx) {
        var j :| 0 <= j < i && !rules[j].stackable && rules[j].ruleType == rules[i].ruleType && Matches(rules[j], ctx);
        assert Exclusive(rules[j], ctx, rules[i].ruleType);
      }
    }
    assert Applies(rules, ctx, k);
    NextPrice(rules, ctx, k);
    FixedRulesAdd(rules, ctx, k + 1, |rules|);
  }

  /** When one override changes the price: on its weekdays, from the start of its time range until before the end, for its booking
      and slot type, and from its first to its last day, both included. A condition that is absent excludes nothing. */
  lemma OverrideChargedIff(rule: Rule, ctx: Context)
    requires rule.adjustment.Override?
    ensures var c := rule.conditions;
            var inForce :=
              && (c.days.None? || ctx.bookingDate % 7 in c.days.value)
              && (c.timeRange.None? || (c.timeRange.value.0 <= ctx.startTime && ctx.startTime < c.timeRange.value.1))
              && (c.bookingType.None? || c.bookingType == Some(ctx.bookingType))
              && (c.slotType.None? || c.slotType == Some(ctx.slotType))
              && (rule.validFrom.None? || ctx.bookingDate >= rule.validFrom.value)
              && (rule.validUntil.None? || ctx.bookingDate <= rule.validUntil.value);
            Breakdown([rule], ctx).subtotal ==
              Max((if inForce then rule.value else ctx.basePrice) - ctx.membershipDiscount - ctx.couponDiscount, 0)
  {
    assert PriceAfter([rule], ctx, 0) == ctx.basePrice;
    NextPrice([rule], ctx, 0);
  }

  // ---- Bounds and monotonicity ----

  lemma BreakdownBounds(rules: seq<Rule>, ctx: Context)
    ensures var b := Breakdown(rules, ctx);
            && b.subtotal >= 0
            && 0 <= b.tax <= b.subtotal
            && IsHalfEven(b.subtotal * 18, 100, b.tax)
            && b.total == b.subtotal + b.tax
            && (b.subtotal > 0 ==> b.subtotal + b.discount + b.couponDiscount == ctx.basePrice + SumEffects(b.applied))
  {
    var b := Breakdown(rules, ctx);
    LedgerBalances(rules, ctx, |rules|);
    HalfEvenUnique(b.subtotal * TAX_RATE_PCT, 100, b.tax);
    HalfEvenExact(0, 100);
    HalfEvenExact(b.subtotal, 100);
    HalfEvenMonotone(0, b.subtotal * TAX_RATE_PCT, 100);
    HalfEvenMonotone(b.subtotal * TAX_RATE_PCT, b.subtotal * 100, 100);
  }

  /** How an adjustment treats two prices. An override makes both its value, a fixed rule keeps their difference and takes
      nothing to its value, a percentage scales the difference up to one paisa of rounding and takes nothing to nothing, and
      an unknown adjustment leaves both alone. */
  lemma EffectMeaning(rule: Rule, x: int, y: int)
    ensures rule.adjustment.Override? ==> x + Effect(rule, x) == y + Effect(rule, y) == rule.value
    ensures rule.adjustment.Fixed? ==>
              (x + Effect(rule, x)) - (y + Effect(rule, y)) == x - y && (x == 0 ==> x + Effect(rule, x) == rule.value)
    ensures rule.adjustment.Percentage? ==>
              -HUNDRED_PCT <= HUNDRED_PCT * (Effect(rule, x) - Effect(rule, y)) - rule.value * (x - y) <= HUNDRED_PCT
              && (x == 0 ==> x + Effect(rule, x) == 0)
    ensures rule.adjustment.Unknown? ==> x + Effect(rule, x) == x
  {
    if rule.adjustment.Percentage? {
      HalfEvenUnique(x * rule.value, HUNDRED_PCT, Effect(rule, x));
      HalfEvenUnique(y * rule.value, HUNDRED_PCT, Effect(rule, y));
      assert rule.value * (x - y) == x * rule.value - y * rule.value;
    }
  }

  /** The surcharge is rounded, not the new price: the two differ exactly when the surcharge is a tie on an odd price. */
  lemma RoundedSurchargeIsRoundedPriceIff(rule: Rule, price: int)
    requires rule.adjustment.Percentage?
    ensures price + Effect(rule, price) == HalfEven(price * (HUNDRED_PCT + rule.value), HUNDRED_PCT) <==>
              !(2 * (price * rule.value % HUNDRED_PCT) == HUNDRED_PCT && price % 2 == 1)
  {
    var n, e := price * rule.value, Effect(rule, price);
    assert price * (HUNDRED_PCT + rule.value) == n + price * HUNDRED_PCT;
    HalfEvenShift(n, HUNDRED_PCT, price);
  }

  lemma HalfEvenShift(n: int, d: int, k: int)
    requires d > 0
    ensures HalfEven(n + k * d, d) == k + HalfEven(n, d) <==> !(2 * (n % d) == d && k % 2 == 1)
  {
    var q, r := n / d, n % d;
    assert n + k * d == d * (q + k) + r by {
      assert n == d * q + r;
      assert d * (q + k) == d * q + k * d;
    }
    NearestOfQuotient(q, r, d, HalfEven(n, d));
    HalfEvenUnique(n, d, HalfEven(n, d));
    assert n == d * q + r;
    NearestOfQuotient(q + k, r, d, HalfEven(n + k * d, d));
    HalfEvenUnique(n + k * d, d, HalfEven(n + k * d, d));
  }

  predicate AtLeastMinusHundred(rule: Rule) {
    rule.adjustment.Percentage? ==> rule.value >= -HUNDRED_PCT
  }

  lemma PercentageKeepsOrder(x: int, y: int, v: int)
    requires x <= y && v >= -HUNDRED_PCT
    ensures x + HalfEven(x * v, HUNDRED_PCT) <= y + HalfEven(y * v, HUNDRED_PCT)
  {
    if v >= 0 {
      MulOrderAny(x, y, v);
      HalfEvenMonotone(x * v, y * v, HUNDRED_PCT);
    } else if v == -HUNDRED_PCT {
      HalfEvenExact(-x, HUNDRED_PCT);
      HalfEvenExact(-y, HUNDRED_PCT);
    } else if x < y {
      var a, b := HalfEven(x * v, HUNDRED_PCT), HalfEven(y * v, HUNDRED_PCT);
      HalfEvenUnique(x * v, HUNDRED_PCT, a);
      HalfEvenUnique(y * v, HUNDRED_PCT, b);
      var gap := y - x;
      assert x * v - y * v == gap * -v;
      assert gap * -v < gap * HUNDRED_PCT by {
        MulOrder(gap, -v, HUNDRED_PCT);
      }
    }
  }

  lemma MulOrderAny(x: int, y: int, v: int)
    requires x <= y && v >= 0
    ensures x * v <= y * v
  {
    assert (y - x) * v >= 0;
  }

  lemma EffectKeepsOrder(rule: Rule, x: int, y: int)
    requires x <= y && AtLeastMinusHundred(rule)
    ensures x + Effect(rule, x) <= y + Effect(rule, y)
  {
    if rule.adjustment.Percentage? {
      PercentageKeepsOrder(x, y, rule.value);
    }
  }

  /** A rule preserves the order of prices, rounding included, exactly when it is no percentage below -100%. */
  lemma EffectKeepsOrderIff(rule: Rule)
    ensures (forall x, y :: x <= y ==> x + Effect(rule, x) <= y + Effect(rule, y)) <==> AtLeastMinusHundred(rule)
  {
    if AtLeastMinusHundred(rule) {
      forall x, y | x <= y ensures x + Effect(rule, x) <= y + Effect(rule, y) {
        EffectKeepsOrder(rule, x, y);
      }
    } else {
      HalfEvenExact(0, HUNDRED_PCT);
      HalfEvenExact(rule.value, HUNDRED_PCT);
      assert 0 + Effect(rule, 0) > HUNDRED_PCT + Effect(rule, HUNDRED_PCT);
    }
  }

  lemma {:induction false} PriceAfterMonotone(rules: seq<Rule>, low: Context, high: int, n: nat)
    requires n <= |rules| && low.basePrice <= high
    requires forall r :: r in rules ==> AtLeastMinusHundred(r)
    ensures PriceAfter(rules, low, n) <= PriceAfter(rules, low.(basePrice := high), n)
  {
    if n > 0 {
      var raised := low.(basePrice := high);
      PriceAfterMonotone(rules, low, high, n - 1);
      assert SameSelection(rules, low, rules, raised);
      SameSelectionApplies(rules, low, rules, raised, n - 1);
      EffectKeepsOrder(rules[n - 1], PriceAfter(rules, low, n - 1), PriceAfter(rules, raised, n - 1));
    }
  }

  lemma TotalMonotone(a: int, b: int)
    requires 0 <= a <= b
    ensures a + Tax(a) <= b + Tax(b)
  {
    HalfEvenMonotone(a * TAX_RATE_PCT, b * TAX_RATE_PCT, 100);
  }

  /** The whole pipeline is monotone: a dearer base never gives a cheaper total, a larger discount never a dearer one. */
  lemma PipelineMonotone(rules: seq<Rule>, low: Context, high: Context)
    requires forall r :: r in rules ==> AtLeastMinusHundred(r)
    requires high == low.(basePrice := high.basePrice, membershipDiscount := high.membershipDiscount,
                          couponDiscount := high.couponDiscount)
    requires low.basePrice <= high.basePrice
    requires high.membershipDiscount <= low.membershipDiscount && high.couponDiscount <= low.couponDiscount
    ensures Breakdown(rules, low).total <= Breakdown(rules, high).total
  {
    var raised := low.(basePrice := high.basePrice);
    PriceAfterMonotone(rules, low, high.basePrice, |rules|);
    PriceIgnoresDiscounts(rules, raised, high, |rules|);
    TotalMonotone(Breakdown(rules, low).subtotal, Breakdown(rules, high).subtotal);
  }

  lemma {:induction false} PriceIgnoresDiscounts(rules: seq<Rule>, c1: Context, c2: Context, n: nat)
    requires n <= |rules|
    requires c2 == c1.(membershipDiscount := c2.membershipDiscount, couponDiscount := c2.couponDiscount)
    ensures PriceAfter(rules, c1, n) == PriceAfter(rules, c2, n)
  {
    if n > 0 {
      PriceIgnoresDiscounts(rules, c1, c2, n - 1);
      SameSelectionApplies(rules, c1, rules, c2, n - 1);
    }
  }

  // ---- When a dearer base price gives a cheaper total ----

  function Raised(ctx: Context, basePrice: int): Context {
    ctx.(basePrice := basePrice)
  }

  /** No two base prices, of which none is negative, get totals in the wrong order. */
  ghost predicate NeverCheaper(rules: seq<Rule>, ctx: Context) {
    forall low, high :: 0 <= low <= high ==> Breakdown(rules, Raised(ctx, low)).total <= Breakdown(rules, Raised(ctx, high)).total
  }

  /** Nor do they whatever rules of at least -100% follow. */
  ghost predicate NeverCheaperBefore(rule: Rule, ctx: Context) {
    forall rest: seq<Rule> :: (forall r :: r in rest ==> AtLeastMinusHundred(r)) ==> NeverCheaper([rule] + rest, ctx)
  }

  function Surcharge(amount: int): Rule {
    Rule("surcharge", "surcharge", Conditions(None, None, None, None), Fixed, amount, true, None, None)
  }

  lemma PriceAfterTwo(rule: Rule, amount: int, ctx: Context)
    requires Matches(rule, ctx)
    ensures PriceAfter([rule] + [Surcharge(amount)], ctx, 2) == ctx.basePrice + Effect(rule, ctx.basePrice) + amount
  {
    var rules := [rule] + [Surcharge(amount)];
    assert Applies(rules, ctx, 0) && Applies(rules, ctx, 1);
    assert PriceAfter(rules, ctx, 1) == ctx.basePrice + Effect(rule, ctx.basePrice);
  }

  /** Below -100% the base price of 100.00 ends cheaper than the base price of nothing once a surcharge lifts the latter above
      zero. */
  lemma SurchargeRevealsDrop(rule: Rule, ctx: Context)
    requires Matches(rule, ctx) && !AtLeastMinusHundred(rule)
    ensures !NeverCheaper([rule] + [Surcharge(ctx.membershipDiscount + ctx.couponDiscount - HUNDRED_PCT - rule.value)], ctx)
  {
    var amount := ctx.membershipDiscount + ctx.couponDiscount - HUNDRED_PCT - rule.value;
    var rules := [rule] + [Surcharge(amount)];
    var low, high := Raised(ctx, 0), Raised(ctx, HUNDRED_PCT);
    PriceAfterTwo(rule, amount, low);
    PriceAfterTwo(rule, amount, high);
    HalfEvenExact(0, HUNDRED_PCT);
    HalfEvenExact(rule.value, HUNDRED_PCT);
    assert Effect(rule, 0) == 0 && Effect(rule, HUNDRED_PCT) == rule.value;
    BreakdownBounds(rules, low);
    BreakdownBounds(rules, high);
    assert Breakdown(rules, high).total == 0 < Breakdown(rules, low).total;
  }

  /** For a rule that matches: a dearer base price never gives a cheaper total, whatever rules of at least -100% follow, if
      and only if the rule is itself no percentage below -100%. */
  lemma NeverCheaperIff(rule: Rule, ctx: Context)
    requires Matches(rule, ctx)
    ensures NeverCheaperBefore(rule, ctx) <==> AtLeastMinusHundred(rule)
  {
    if AtLeastMinusHundred(rule) {
      forall rest: seq<Rule> | forall r :: r in rest ==> AtLeastMinusHundred(r) ensures NeverCheaper([rule] + rest, ctx) {
        forall low, high | 0 <= low <= high
          ensures Breakdown([rule] + rest, Raised(ctx, low)).total <= Breakdown([rule] + rest, Raised(ctx, high)).total
        {
          PipelineMonotone([rule] + rest, Raised(ctx, low), Raised(ctx, high));
        }
      }
    } else {
      SurchargeRevealsDrop(rule, ctx);
    }
  }
}
