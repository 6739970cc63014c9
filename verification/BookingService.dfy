/** Creating, cancelling and moving bookings: each method against the state change it must make, and what that change means. */
module BookingService {
  import opened Common
  import opened Times
  import opened BookingStates
  import opened Store
  import Cancellation
  import Coupons
  import Pricing
  import TurfAvailability

  /** A validated booking request; the schema guarantees start < end. */
  datatype Request = Request(
    user: nat,
    hasPhone: bool,
    turf: nat,
    date: int,
    start: int,
    end: int,
    bookingType: string,
    coupon: Option<string>)
  {
    predicate Valid() {
      IsTime(start) && IsTime(end) && start < end
    }
  }

  /** What an administrator adds when booking for an offline customer. */
  datatype ManualDetails = ManualDetails(priceOverride: Option<int>, reasonGiven: bool, reference: Option<string>)

  // ---- Price of a request ----

  predicate Covering(rule: TurfAvailability.SlotRule, date: int, start: int, end: int) {
    rule.day == Weekday(date) && rule.active && rule.start <= start && rule.end >= end
  }

  function SlotCount(rule: TurfAvailability.SlotRule, start: int, end: int): int {
    Max(1, (end - start) / Max(rule.durationMins, 1))
  }

  /** The base price under the first covering rule, or nothing when no rule covers the range. */
  function BasePrice(rules: seq<TurfAvailability.SlotRule>, date: int, start: int, end: int): (r: Option<int>)
    ensures r.Some? <==> exists i :: 0 <= i < |rules| && Covering(rules[i], date, start, end)
  {
    if rules == [] then None
    else if Covering(rules[0], date, start, end) then Some(rules[0].basePrice * SlotCount(rules[0], start, end))
    else
      var rest := BasePrice(rules[1..], date, start, end);
      assert forall i :: 1 <= i < |rules| ==> rules[i] == rules[1..][i - 1];
      rest
  }

  /** A coupon that fails validation is ignored. */
  function CouponDiscount(coupons: map<string, Coupons.Coupon>, req: Request, amount: int, today: int): int {
    if req.coupon.None? then 0
    else
      var found := if req.coupon.value in coupons then Some(coupons[req.coupon.value]) else None;
      var d := Coupons.Discount(found, amount, Some(req.turf), None, req.bookingType, today);
      if d.Ok? then d.value else 0
  }

  function PriceContext(req: Request, basePrice: int, couponDiscount: int): Pricing.Context {
    Pricing.Context(basePrice, req.date, req.start, "regular", req.bookingType, 0, couponDiscount)
  }

  function PriceOf(cfg: Config, coupons: map<string, Coupons.Coupon>, req: Request, today: int): Option<Pricing.PriceBreakdown> {
    var base := BasePrice(TurfOf(cfg, req.turf).slotRules, req.date, req.start, req.end);
    if base.None? then None
    else Some(Pricing.Breakdown(TurfOf(cfg, req.turf).pricing,
                                PriceContext(req, base.value, CouponDiscount(coupons, req, base.value, today))))
  }

  function Row(req: Request, price: Pricing.PriceBreakdown, status: Status, finalPrice: int): Booking {
    Booking(req.turf, req.user, None, req.date, req.start, req.end, req.end - req.start, status, req.bookingType,
            price.basePrice, price.discount + price.couponDiscount, price.tax, finalPrice, None, 1)
  }

  /** The coupon is counted once its positive discount has gone into a booking. */
  function CouponsAfter(coupons: map<string, Coupons.Coupon>, code: Option<string>, discount: int): map<string, Coupons.Coupon> {
    if code.Some? && discount > 0 && code.value in coupons
    then coupons[code.value := coupons[code.value].(usedCount := coupons[code.value].usedCount + 1)]
    else coupons
  }

  // ---- State changes ----

  function Create(cfg: Config, db: Db, req: Request, today: int): After {
    if !req.hasPhone then After(db, Refused(MissingPhone))
    else if HasConflict(db.bookings, req.turf, req.date, req.start, req.end) then After(db, Refused(SlotTaken))
    else
      var price := PriceOf(cfg, db.coupons, req, today);
      if price.None? then After(db, Refused(NoSlotRule))
      else
        After(db.(bookings := db.bookings + [Row(req, price.value, Pending, price.value.total)],
                  coupons := CouponsAfter(db.coupons, req.coupon, price.value.couponDiscount),
                  events := db.events + [BookingCreated(|db.bookings|)]), Done)
  }

  function FinalPrice(price: Pricing.PriceBreakdown, details: ManualDetails): int {
    if details.priceOverride.Some? then details.priceOverride.value else price.total
  }

  function CreateManual(cfg: Config, db: Db, req: Request, details: ManualDetails, today: int): After {
    if details.priceOverride.Some? && !details.reasonGiven then After(db, Refused(OverrideNeedsReason))
    else if HasConflict(db.bookings, req.turf, req.date, req.start, req.end) then After(db, Refused(SlotTaken))
    else
      var price := PriceOf(cfg, db.coupons, req, today);
      if price.None? then After(db, Refused(NoSlotRule))
      else
        var final := FinalPrice(price.value, details);
        After(db.(bookings := db.bookings + [Row(req, price.value, Confirmed, final)],
                  txns := db.txns + [Txn(Some(|db.bookings|), req.user, Manual, None, details.reference, final, Success, None)],
                  coupons := CouponsAfter(db.coupons, req.coupon, price.value.couponDiscount),
                  events := db.events + [PaymentSuccess(|db.txns|), BookingConfirmed(|db.bookings|)]), Done)
  }

  function Cancel(cfg: Config, db: Db, actor: nat, isAdmin: bool, id: nat, secondsUntil: int): After {
    if id >= |db.bookings| then After(db, Refused(NotFound))
    else
      var b := db.bookings[id];
      if actor != b.user && !isAdmin then After(db, Refused(NotAllowed))
      else if !CanTransition(b.status, Cancelled) then After(db, Refused(BadTransition))
      else
        var (amount, pct) := Cancellation.Refund(TurfOf(cfg, b.turf).policy, b.finalPrice, secondsUntil);
        After(db.(bookings := db.bookings[id := b.(status := Cancelled, refundAmount := Some(amount), version := b.version + 1)],
                  events := db.events + [BookingCancelled(id, amount, pct)]), Done)
  }

  function MovedEvent(id: nat, target: Status): Event {
    if target.Confirmed? then BookingConfirmed(id) else BookingMoved(id, target)
  }

  function Move(db: Db, id: nat, target: Status): After {
    if id >= |db.bookings| then After(db, Refused(NotFound))
    else
      var b := db.bookings[id];
      if !CanTransition(b.status, target) then After(db, Refused(BadTransition))
      else
        After(db.(bookings := db.bookings[id := b.(status := target, version := b.version + 1)],
                  events := db.events + [MovedEvent(id, target)]), Done)
  }

  // ---- The service ----

  class Service {
    const db: Database
    const cfg: Config

    constructor (db: Database, cfg: Config)
      ensures this.db == db && this.cfg == cfg
    {
      this.db, this.cfg := db, cfg;
    }

    method ResolveBasePrice(turf: nat, date: int, start: int, end: int) returns (price: Option<int>)
      ensures price == BasePrice(TurfOf(cfg, turf).slotRules, date, start, end)
    {
      var rules := TurfOf(cfg, turf).slotRules;
      var day := Weekday(date);
      for i := 0 to |rules|
        invariant BasePrice(rules, date, start, end) == BasePrice(rules[i..], date, start, end)
      {
        assert rules[i..][1..] == rules[i + 1..];
        var rule := rules[i];
        if rule.day == day && rule.active && rule.start <= start && rule.end >= end {
          var minutes := end - start;
          var slotCount := Max(1, minutes / Max(rule.durationMins, 1));
          return Some(rule.basePrice * slotCount);
        }
      }
      return None;
    }

    method PriceRequest(req: Request, today: int) returns (price: Option<Pricing.PriceBreakdown>)
      ensures price == PriceOf(cfg, db.coupons, req, today)
    {
      var base := ResolveBasePrice(req.turf, req.date, req.start, req.end);
      if base.None? {
        return None;
      }
      var couponDiscount := 0;
      if req.coupon.Some? {
        var found := if req.coupon.value in db.coupons then Some(db.coupons[req.coupon.value]) else None;
        var d := Coupons.Discount(found, base.value, Some(req.turf), None, req.bookingType, today);
        if d.Ok? {
          couponDiscount := d.value;
        }
      }
      var breakdown := Pricing.RunPipeline(TurfOf(cfg, req.turf).pricing, PriceContext(req, base.value, couponDiscount));
      return Some(breakdown);
    }

    method IncrementUsage(code: string)
      modifies db`coupons
      ensures db.coupons == CouponsAfter(old(db.coupons), Some(code), 1)
    {
      if code in db.coupons {
        var coupon := db.coupons[code];
        db.coupons := db.coupons[code := coupon.(usedCount := coupon.usedCount + 1)];
      }
    }

    method CreateBooking(req: Request, today: int) returns (outcome: Outcome)
      requires req.Valid()
      modifies db
      ensures After(db.Rows(), outcome) == Create(cfg, old(db.Rows()), req, today)
    {
      if !req.hasPhone {
        return Refused(MissingPhone);
      }
      if HasConflict(db.bookings, req.turf, req.date, req.start, req.end) {
        return Refused(SlotTaken);
      }
      var price := PriceRequest(req, today);
      if price.None? {
        return Refused(NoSlotRule);
      }
      var id := |db.bookings|;
      db.bookings := db.bookings + [Row(req, price.value, Pending, price.value.total)];
      if req.coupon.Some? && price.value.couponDiscount > 0 {
        IncrementUsage(req.coupon.value);
      }
      db.events := db.events + [BookingCreated(id)];
      return Done;
    }

    method CreateManualBooking(req: Request, details: ManualDetails, today: int) returns (outcome: Outcome)
      requires req.Valid()
      modifies db
      ensures After(db.Rows(), outcome) == CreateManual(cfg, old(db.Rows()), req, details, today)
    {
      if details.priceOverride.Some? && !details.reasonGiven {
        return Refused(OverrideNeedsReason);
      }
      if HasConflict(db.bookings, req.turf, req.date, req.start, req.end) {
        return Refused(SlotTaken);
      }
      var price := PriceRequest(req, today);
      if price.None? {
        return Refused(NoSlotRule);
      }
      var finalPrice := price.value.total;
      if details.priceOverride.Some? {
        finalPrice := details.priceOverride.value;
      }
      var id, txn := |db.bookings|, |db.txns|;
      db.bookings := db.bookings + [Row(req, price.value, Confirmed, finalPrice)];
      db.txns := db.txns + [Txn(Some(id), req.user, Manual, None, details.reference, finalPrice, Success, None)];
      if req.coupon.Some? && price.value.couponDiscount > 0 {
        IncrementUsage(req.coupon.value);
      }
      db.events := db.events + [PaymentSuccess(txn)];
      db.events := db.events + [BookingConfirmed(id)];
      return Done;
    }

    method CancelBooking(actor: nat, isAdmin: bool, id: nat, secondsUntil: int) returns (outcome: Outcome)
      modifies db
      ensures After(db.Rows(), outcome) == Cancel(cfg, old(db.Rows()), actor, isAdmin, id, secondsUntil)
    {
      if id >= |db.bookings| {
        return Refused(NotFound);
      }
      var booking := db.bookings[id];
      if actor != booking.user && !isAdmin {
        return Refused(NotAllowed);
      }
      if !CanTransition(booking.status, Cancelled) {
        return Refused(BadTransition);
      }
      var refundAmount, refundPct := Cancellation.ComputeRefund(TurfOf(cfg, booking.turf).policy, booking.finalPrice, secondsUntil);
      booking := booking.(status := Cancelled);
      booking := booking.(refundAmount := Some(refundAmount));
      booking := booking.(version := booking.version + 1);
      db.bookings := db.bookings[id := booking];
      db.events := db.events + [BookingCancelled(id, refundAmount, refundPct)];
      return Done;
    }

    method TransitionStatus(id: nat, newStatus: Status) returns (outcome: Outcome)
      modifies db
      ensures After(db.Rows(), outcome) == Move(old(db.Rows()), id, newStatus)
    {
      if id >= |db.bookings| {
        return Refused(NotFound);
      }
      var booking := db.bookings[id];
      if !CanTransition(booking.status, newStatus) {
        return Refused(BadTransition);
      }
      booking := booking.(status := newStatus);
      booking := booking.(version := booking.version + 1);
      db.bookings := db.bookings[id := booking];
      db.events := db.events + [MovedEvent(id, newStatus)];
      return Done;
    }
  }
}
