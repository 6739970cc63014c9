/** Coupon accounting over whole runs: uses are counted one for one and never pass the limit. */
module CouponRuns {
  import opened Common
  import opened Store
  import opened Runs
  import Coupons
  import Pricing
  import BookingService

  /** The call made a booking with a positive discount from this coupon. */
  predicate Redeems(cfg: Config, db: Db, op: Op, code: string)
    requires ValidOp(op)
  {
    && (op.Create? || op.CreateManual?)
    && op.request.coupon == Some(code)
    && |Apply(cfg, db, op).db.bookings| == |db.bookings| + 1
    && Apply(cfg, db, op).db.bookings[|db.bookings|].discount > 0
  }

  function Redemptions(cfg: Config, db: Db, ops: seq<Op>, code: string): nat
    requires forall op :: op in ops ==> ValidOp(op)
  {
    if ops == [] then 0
    else
      var n := |ops| - 1;
      Redemptions(cfg, db, ops[..n], code) + if Redeems(cfg, Run(cfg, db, ops[..n]), ops[n], code) then 1 else 0
  }

  predicate WithinLimit(c: Coupons.Coupon) {
    c.usageLimit.Some? ==> c.usedCount <= c.usageLimit.value
  }

  lemma OneCallCounts(cfg: Config, db: Db, op: Op, code: string)
    requires ValidOp(op) && code in db.coupons
    ensures code in Apply(cfg, db, op).db.coupons
    ensures Apply(cfg, db, op).db.coupons[code] ==
              db.coupons[code].(usedCount := db.coupons[code].usedCount + if Redeems(cfg, db, op, code) then 1 else 0)
    ensures WithinLimit(db.coupons[code]) ==> WithinLimit(Apply(cfg, db, op).db.coupons[code])
  {
    if Redeems(cfg, db, op, code) {
      var r := op.request;
      var base := BookingService.BasePrice(TurfOf(cfg, r.turf).slotRules, r.date, r.start, r.end).value;
      Coupons.DiscountBounds(db.coupons[code], base, Some(r.turf), None, r.bookingType, op.today);
    }
  }

  /** A coupon's count grows by exactly the number of bookings made with its positive discount, and stays within its limit. */
  lemma {:induction false} UsesMatchBookings(cfg: Config, db: Db, ops: seq<Op>, code: string)
    requires (forall op :: op in ops ==> ValidOp(op)) && code in db.coupons
    ensures code in Run(cfg, db, ops).coupons
    ensures Run(cfg, db, ops).coupons[code] ==
              db.coupons[code].(usedCount := db.coupons[code].usedCount + Redemptions(cfg, db, ops, code))
    ensures WithinLimit(db.coupons[code]) ==> WithinLimit(Run(cfg, db, ops).coupons[code])
  {
    if ops != [] {
      var n := |ops| - 1;
      UsesMatchBookings(cfg, db, ops[..n], code);
      assert ops[n] in ops;
      OneCallCounts(cfg, Run(cfg, db, ops[..n]), ops[n], code);
    }
  }
}
