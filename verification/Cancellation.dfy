/** Refunds on cancellation: walk the policy's tiers, most hours first, and round the share to paise. */
module Cancellation {
  import opened Common
  import opened Rounding
  import opened StableSort

  datatype Tier = Tier(hoursBefore: int, refundPct: int)

  /** hours_until >= hours_before, with the time left counted in seconds and never negative. */
  predicate Reached(tier: Tier, secondsUntil: int) {
    Max(0, secondsUntil) >= 3600 * tier.hoursBefore
  }

  /** The tier with the most hours among those reached; the earliest listed when several tie. */
  function BestTier(tiers: seq<Tier>, secondsUntil: int): Option<Tier> {
    if tiers == [] then None
    else
      var rest := BestTier(tiers[1..], secondsUntil);
      if Reached(tiers[0], secondsUntil) && (rest.None? || rest.value.hoursBefore <= tiers[0].hoursBefore)
      then Some(tiers[0])
      else rest
  }

  function RefundPct(tiers: seq<Tier>, secondsUntil: int): int {
    var best := BestTier(tiers, secondsUntil);
    if best.Some? then best.value.refundPct else 0
  }

  /** The amount and percentage refunded; without a policy the whole price. */
  function Refund(policy: Option<seq<Tier>>, finalPrice: int, secondsUntil: int): (int, int) {
    if policy.None? then (finalPrice, 100)
    else
      var pct := RefundPct(policy.value, secondsUntil);
      (HalfEven(finalPrice * pct, 100), pct)
  }

  function ByHours(tiers: seq<Tier>): (r: seq<Keyed<Tier>>)
    ensures |r| == |tiers|
    ensures forall i :: 0 <= i < |r| ==> r[i] == Keyed([tiers[i].hoursBefore as real], tiers[i])
  {
    seq(|tiers|, i requires 0 <= i < |tiers| => Keyed([tiers[i].hoursBefore as real], tiers[i]))
  }

  /** The first reached tier in list order. */
  ghost function FirstReached(tiers: seq<Keyed<Tier>>, secondsUntil: int): Option<Tier> {
    if tiers == [] then None
    else if Reached(tiers[0].val, secondsUntil) then Some(tiers[0].val)
    else FirstReached(tiers[1..], secondsUntil)
  }

  ghost predicate KeyedByHours(ks: seq<Keyed<Tier>>) {
    forall i :: 0 <= i < |ks| ==> ks[i].key == [ks[i].val.hoursBefore as real]
  }

  lemma SingleKeyOrder(a: int, b: int)
    ensures LexLe([a as real], [b as real]) <==> a <= b
  {
    assert [a as real][1..] == [];
  }

  lemma {:induction false} FirstReachedBelowHead(ys: seq<Keyed<Tier>>, head: int, secondsUntil: int)
    requires forall i :: 0 <= i < |ys| ==> ys[i].val.hoursBefore <= head
    ensures var r := FirstReached(ys, secondsUntil); r.Some? ==> r.value.hoursBefore <= head
  {
    if ys != [] {
      FirstReachedBelowHead(ys[1..], head, secondsUntil);
    }
  }

  lemma {:induction false} FirstReachedAfterInsert(x: Keyed<Tier>, ys: seq<Keyed<Tier>>, secondsUntil: int)
    requires KeyedByHours([x]) && KeyedByHours(ys) && SortedDesc(ys)
    ensures KeyedByHours(Insert(x, ys))
    ensures var rest := FirstReached(ys, secondsUntil);
            FirstReached(Insert(x, ys), secondsUntil) ==
            if Reached(x.val, secondsUntil) && (rest.None? || rest.value.hoursBefore <= x.val.hoursBefore)
            then Some(x.val) else rest
  {
    assert x == [x][0];
    if ys == [] {
    } else {
      SingleKeyOrder(ys[0].val.hoursBefore, x.val.hoursBefore);
      if LexLe(ys[0].key, x.key) {
        assert ([x] + ys)[1..] == ys;
        forall i | 1 <= i < |ys| ensures ys[i].val.hoursBefore <= ys[0].val.hoursBefore {
          SingleKeyOrder(ys[i].val.hoursBefore, ys[0].val.hoursBefore);
        }
        FirstReachedBelowHead(ys, x.val.hoursBefore, secondsUntil);
      } else {
        FirstReachedAfterInsert(x, ys[1..], secondsUntil);
        assert ([ys[0]] + Insert(x, ys[1..]))[1..] == Insert(x, ys[1..]);
      }
    }
  }

  /** Walking the sorted tiers and stopping at the first one reached finds the best tier. */
  lemma {:induction false} SortedWalkFindsBest(tiers: seq<Tier>, secondsUntil: int)
    ensures FirstReached(SortDesc(ByHours(tiers)), secondsUntil) == BestTier(tiers, secondsUntil)
    ensures KeyedByHours(SortDesc(ByHours(tiers)))
  {
    if tiers != [] {
      var ks := ByHours(tiers);
      assert ks[1..] == ByHours(tiers[1..]);
      SortedWalkFindsBest(tiers[1..], secondsUntil);
      SortDescSorts(ks[1..]);
      FirstReachedAfterInsert(ks[0], SortDesc(ks[1..]), secondsUntil);
    }
  }

  method ComputeRefund(policy: Option<seq<Tier>>, finalPrice: int, secondsUntil: int) returns (amount: int, pct: int)
    ensures (amount, pct) == Refund(policy, finalPrice, secondsUntil)
  {
    if policy.None? {
      return finalPrice, 100;
    }
    var tiers := SortDesc(ByHours(policy.value));
    SortedWalkFindsBest(policy.value, secondsUntil);
    pct := 0;
    for i := 0 to |tiers|
      invariant pct == 0
      invariant FirstReached(tiers, secondsUntil) == FirstReached(tiers[i..], secondsUntil)
    {
      if Reached(tiers[i].val, secondsUntil) {
        pct := tiers[i].val.refundPct;
        break;
      }
      assert tiers[i..][1..] == tiers[i + 1..];
    }
    amount := HalfEven(finalPrice * pct, 100);
  }

  /** Which tier decides: none below it was passed over for it, and no reached tier asks for more hours. */
  lemma {:induction false} BestTierIsBest(tiers: seq<Tier>, secondsUntil: int)
    ensures var best := BestTier(tiers, secondsUntil);
            && (best.None? <==> forall t :: t in tiers ==> !Reached(t, secondsUntil))
            && (best.Some? ==> best.value in tiers && Reached(best.value, secondsUntil))
            && (best.Some? ==> forall t :: t in tiers && Reached(t, secondsUntil) ==> t.hoursBefore <= best.value.hoursBefore)
  {
    if tiers != [] {
      BestTierIsBest(tiers[1..], secondsUntil);
      assert tiers == [tiers[0]] + tiers[1..];
    }
  }

  /** The tier at this place decides when this many whole hours are left: it asks for no more, and of all such tiers it asks
      for most, listed before any other that asks for as many. */
  predicate Decides(tiers: seq<Tier>, i: int, hours: int) {
    && 0 <= i < |tiers| && tiers[i].hoursBefore <= hours
    && (forall j :: 0 <= j < |tiers| && tiers[j].hoursBefore <= hours ==> tiers[j].hoursBefore <= tiers[i].hoursBefore)
    && (forall j :: 0 <= j < i ==> tiers[j].hoursBefore != tiers[i].hoursBefore)
  }

  lemma {:induction false} BestTierDecides(tiers: seq<Tier>, secondsUntil: int, hours: int) returns (i: int)
    requires forall t :: Reached(t, secondsUntil) <==> t.hoursBefore <= hours
    ensures var best := BestTier(tiers, secondsUntil);
            if best.Some? then Decides(tiers, i, hours) && tiers[i] == best.value
            else forall j :: 0 <= j < |tiers| ==> tiers[j].hoursBefore > hours
  {
    i := 0;
    if tiers != [] {
      var rest := BestTier(tiers[1..], secondsUntil);
      var k := BestTierDecides(tiers[1..], secondsUntil, hours);
      assert forall j :: 1 <= j < |tiers| ==> tiers[j] == tiers[1..][j - 1];
      i := if Reached(tiers[0], secondsUntil) && (rest.None? || rest.value.hoursBefore <= tiers[0].hoursBefore) then 0 else k + 1;
    }
  }

  /** What is refunded: everything without a policy, and otherwise the share of the deciding tier, rounded half to even, or
      nothing when every tier asks for more whole hours than are left. Once the booking has started no hours are left. */
  ghost predicate IsRefund(policy: Option<seq<Tier>>, finalPrice: int, secondsUntil: int, amount: int, pct: int) {
    var hours := if secondsUntil < 0 then 0 else secondsUntil / 3600;
    if policy.None? then amount == finalPrice && pct == 100
    else
      && IsHalfEven(finalPrice * pct, 100, amount)
      && if forall j :: 0 <= j < |policy.value| ==> policy.value[j].hoursBefore > hours then pct == 0
         else exists i: int :: Decides(policy.value, i, hours) && policy.value[i].refundPct == pct
  }

  lemma RefundMeaning(policy: Option<seq<Tier>>, finalPrice: int, secondsUntil: int)
    ensures var (amount, pct) := Refund(policy, finalPrice, secondsUntil); IsRefund(policy, finalPrice, secondsUntil, amount, pct)
  {
    if policy.Some? {
      var hours := if secondsUntil < 0 then 0 else secondsUntil / 3600;
      forall t ensures Reached(t, secondsUntil) <==> t.hoursBefore <= hours {
      }
      var i := BestTierDecides(policy.value, secondsUntil, hours);
      var pct := RefundPct(policy.value, secondsUntil);
      HalfEvenUnique(finalPrice * pct, 100, HalfEven(finalPrice * pct, 100));
      assert pct == 0 || Decides(policy.value, i, hours);
    }
  }

  predicate PercentagesInRange(tiers: seq<Tier>) {
    forall t :: t in tiers ==> 0 <= t.refundPct <= 100
  }

  /** With percentages from 0 to 100 a refund is never negative and never more than was charged. */
  lemma RefundWithinPrice(policy: Option<seq<Tier>>, finalPrice: int, secondsUntil: int)
    requires finalPrice >= 0 && (policy.Some? ==> PercentagesInRange(policy.value))
    ensures var (amount, pct) := Refund(policy, finalPrice, secondsUntil);
            0 <= amount <= finalPrice && 0 <= pct <= 100 && (pct == 100 ==> amount == finalPrice)
  {
    if policy.Some? {
      BestTierIsBest(policy.value, secondsUntil);
      ShareWithinPrice(finalPrice, RefundPct(policy.value, secondsUntil));
    }
  }

  lemma ShareWithinPrice(price: int, pct: int)
    requires price >= 0 && 0 <= pct <= 100
    ensures 0 <= HalfEven(price * pct, 100) <= price
    ensures pct == 100 ==> HalfEven(price * pct, 100) == price
  {
    HalfEvenExact(0, 100);
    HalfEvenExact(price, 100);
    ShareMonotone(price, 0, pct);
    ShareMonotone(price, pct, 100);
  }

  lemma ShareMonotone(price: int, a: int, b: int)
    requires price >= 0 && a <= b
    ensures HalfEven(price * a, 100) <= HalfEven(price * b, 100)
  {
    assert price * b - price * a == price * (b - a) >= 0;
    HalfEvenMonotone(price * a, price * b, 100);
  }

  /** When tiers that ask for more hours refund at least as much, cancelling earlier never refunds less. */
  lemma EarlierNeverRefundsLess(policy: Option<seq<Tier>>, finalPrice: int, late: int, early: int)
    requires finalPrice >= 0 && late <= early
    requires policy.Some? ==> PercentagesInRange(policy.value)
    requires policy.Some? ==> forall s, t :: s in policy.value && t in policy.value && s.hoursBefore <= t.hoursBefore ==>
               s.refundPct <= t.refundPct
    ensures Refund(policy, finalPrice, late).0 <= Refund(policy, finalPrice, early).0
  {
    if policy.Some? {
      BestTierIsBest(policy.value, late);
      BestTierIsBest(policy.value, early);
      ShareMonotone(finalPrice, RefundPct(policy.value, late), RefundPct(policy.value, early));
    }
  }
}
