/** Coupon validation and the discount it grants. Percentages and amounts are in hundredths. */
module Coupons {
  import opened Common
  import opened Rounding

  datatype Coupon = Coupon(
    percentage: bool,
    value: int,
    maxDiscount: Option<int>,
    minAmount: int,
    usageLimit: Option<int>,
    usedCount: int,
    validFrom: int,
    validUntil: int,
    turfs: set<nat>,
    sports: set<string>,
    bookingTypes: set<string>,
    active: bool)

  datatype CouponError = InvalidCode | Expired | LimitReached | BelowMinimum | WrongTurf | WrongSport | WrongBookingType

  /** The discount in paise, or the first check that fails. */
  function Discount(found: Option<Coupon>, amount: int, turf: Option<nat>, sport: Option<string>, bookingType: string, today: int)
    : Result<int, CouponError>
  {
    if found.None? || !found.value.active then Err(InvalidCode)
    else
      var c := found.value;
      if today < c.validFrom || today > c.validUntil then Err(Expired)
      else if c.usageLimit.Some? && c.usedCount >= c.usageLimit.value then Err(LimitReached)
      else if amount < c.minAmount then Err(BelowMinimum)
      else if c.turfs != {} && turf.Some? && turf.value !in c.turfs then Err(WrongTurf)
      else if c.sports != {} && sport.Some? && sport.value !in c.sports then Err(WrongSport)
      else if c.bookingTypes != {} && bookingType !in c.bookingTypes then Err(WrongBookingType)
      else
        var raw :=
          if c.percentage then
            var share := HalfEven(amount * c.value, 10000);
            if c.maxDiscount.Some? then Min(share, c.maxDiscount.value) else share
          else c.value;
        Ok(Min(raw, amount))
  }

  predicate NonNegativeSettings(c: Coupon) {
    c.value >= 0 && (c.maxDiscount.Some? ==> c.maxDiscount.value >= 0)
  }

  /** A granted discount never exceeds the booking amount, the cap of a percentage coupon or its rounded share, and is never
      negative for non-negative settings; it is granted only to a coupon that is active, in date and below its limit. */
  lemma DiscountBounds(c: Coupon, amount: int, turf: Option<nat>, sport: Option<string>, bookingType: string, today: int)
    requires Discount(Some(c), amount, turf, sport, bookingType, today).Ok?
    ensures var d := Discount(Some(c), amount, turf, sport, bookingType, today).value;
            && d <= amount
            && (amount >= 0 && NonNegativeSettings(c) ==> 0 <= d)
            && (c.percentage && c.maxDiscount.Some? ==> d <= c.maxDiscount.value)
            && (c.percentage ==> 20000 * d <= 2 * (amount * c.value) + 10000)
            && (!c.percentage ==> d == c.value || d == amount)
    ensures c.active && c.validFrom <= today <= c.validUntil && c.minAmount <= amount
    ensures c.usageLimit.Some? ==> c.usedCount < c.usageLimit.value
  {
    ShareBounds(amount, c.value);
  }

  lemma ShareBounds(amount: int, pct: int)
    ensures 20000 * HalfEven(amount * pct, 10000) <= 2 * (amount * pct) + 10000
    ensures amount >= 0 && pct >= 0 ==> HalfEven(amount * pct, 10000) >= 0
  {
    HalfEvenUnique(amount * pct, 10000, HalfEven(amount * pct, 10000));
    if amount >= 0 && pct >= 0 {
      assert amount * pct >= 0;
      HalfEvenExact(0, 10000);
      HalfEvenMonotone(0, amount * pct, 10000);
    }
  }

  /** The coupon may be used: it is active, in date, below its limit, and made for this amount, turf, sport and type of
      booking. A set of turfs, sports or types that is empty excludes none, and neither does a turf or sport that is not
      given. */
  predicate Usable(c: Coupon, amount: int, turf: Option<nat>, sport: Option<string>, bookingType: string, today: int) {
    && c.active && c.validFrom <= today && today <= c.validUntil
    && (c.usageLimit.None? || c.usedCount < c.usageLimit.value)
    && amount >= c.minAmount
    && (turf.None? || |c.turfs| == 0 || turf.value in c.turfs)
    && (sport.None? || |c.sports| == 0 || sport.value in c.sports)
    && (|c.bookingTypes| == 0 || bookingType in c.bookingTypes)
  }

  /** The largest discount that neither the amount, nor the share or value of the coupon, nor a cap on the share forbids. */
  ghost predicate IsDiscount(c: Coupon, amount: int, share: int, d: int) {
    && (if c.percentage then IsHalfEven(amount * c.value, 10000, share) else share == c.value)
    && d <= amount && d <= share && (c.percentage && c.maxDiscount.Some? ==> d <= c.maxDiscount.value)
    && (d == amount || d == share || (c.percentage && c.maxDiscount == Some(d)))
  }

  /** A discount is granted if and only if there is a coupon and it may be used, and it is the largest that is allowed. */
  lemma DiscountGrantedIff(found: Option<Coupon>, amount: int, turf: Option<nat>, sport: Option<string>, bookingType: string,
                           today: int)
    ensures var r := Discount(found, amount, turf, sport, bookingType, today);
            && (r.Ok? <==> found.Some? && Usable(found.value, amount, turf, sport, bookingType, today))
            && (r.Ok? ==> exists share :: IsDiscount(found.value, amount, share, r.value))
            && (r == Err(Expired) ==> today < found.value.validFrom || found.value.validUntil < today)
            && (r == Err(LimitReached) ==> found.value.usageLimit.Some? && found.value.usedCount >= found.value.usageLimit.value)
            && (r == Err(BelowMinimum) ==> amount < found.value.minAmount)
  {
    if found.Some? {
      var c := found.value;
      assert (|c.turfs| == 0 <==> c.turfs == {}) && (|c.sports| == 0 <==> c.sports == {});
      assert |c.bookingTypes| == 0 <==> c.bookingTypes == {};
      var share := if c.percentage then HalfEven(amount * c.value, 10000) else c.value;
      HalfEvenUnique(amount * c.value, 10000, HalfEven(amount * c.value, 10000));
      var r := Discount(found, amount, turf, sport, bookingType, today);
      assert r.Ok? ==> IsDiscount(c, amount, share, r.value);
    }
  }
}
