/** What booking calls mean together: who is accepted, what an accepted booking keeps others from, and what cancelling undoes. */
module BookingFacts {
  import opened Common
  import opened Times
  import opened BookingStates
  import opened Store
  import opened BookingService
  import opened Rounding
  import Cancellation
  import Coupons
  import Pricing
  import TurfAvailability

  /** An active rule for the weekday of the date whose hours contain the requested ones: day 0 is a Monday. */
  predicate ServedBy(rule: TurfAvailability.SlotRule, req: Request) {
    rule.active && rule.day == req.date % 7 && rule.start <= req.start && req.end <= rule.end
  }

  predicate HasRule(cfg: Config, req: Request) {
    var rules := TurfOf(cfg, req.turf).slotRules;
    exists i :: 0 <= i < |rules| && ServedBy(rules[i], req)
  }

  predicate Free(db: Db, req: Request) {
    !HasConflict(db.bookings, req.turf, req.date, req.start, req.end)
  }

  /** A booking is accepted if and only if the customer has a phone, nothing active overlaps the range and a rule covers it; each
      refusal has its own reason, in this order, and changes nothing. */
  lemma CreateSucceedsIff(cfg: Config, db: Db, req: Request, today: int)
    ensures var after := Create(cfg, db, req, today);
            && (after.outcome.Done? <==> req.hasPhone && Free(db, req) && HasRule(cfg, req))
            && (after.outcome == Refused(MissingPhone) <==> !req.hasPhone)
            && (after.outcome == Refused(SlotTaken) <==> req.hasPhone && !Free(db, req))
            && (after.outcome == Refused(NoSlotRule) <==> req.hasPhone && Free(db, req) && !HasRule(cfg, req))
            && (!after.outcome.Done? ==> after.db == db)
  {
    ServedIsCovered(cfg, req);
  }

  lemma ServedIsCovered(cfg: Config, req: Request)
    ensures var rules := TurfOf(cfg, req.turf).slotRules;
            HasRule(cfg, req) <==> BasePrice(rules, req.date, req.start, req.end).Some?
  {
    var rules := TurfOf(cfg, req.turf).slotRules;
    assert forall i :: 0 <= i < |rules| ==> (ServedBy(rules[i], req) <==> Covering(rules[i], req.date, req.start, req.end));
  }

  /** A manual booking is accepted under the same conditions, with a reason for an overridden price in place of the phone. */
  lemma CreateManualSucceedsIff(cfg: Config, db: Db, req: Request, details: ManualDetails, today: int)
    ensures var after := CreateManual(cfg, db, req, details, today);
            && (after.outcome.Done? <==>
                  (details.priceOverride.Some? ==> details.reasonGiven) && Free(db, req) && HasRule(cfg, req))
            && (after.outcome == Refused(OverrideNeedsReason) <==> details.priceOverride.Some? && !details.reasonGiven)
            && (after.outcome == Refused(SlotTaken) <==>
                  (details.priceOverride.Some? ==> details.reasonGiven) && !Free(db, req))
            && (!after.outcome.Done? ==> after.db == db)
  {
    ServedIsCovered(cfg, req);
  }

  // ---- The rules that matter ----

  /** The active rules of the weekday, in order. */
  function RulesOf(rules: seq<TurfAvailability.SlotRule>, day: int): seq<TurfAvailability.SlotRule> {
    if rules == [] then []
    else (if rules[0].active && rules[0].day == day then [rules[0]] else []) + RulesOf(rules[1..], day)
  }

  function RulePrice(rule: TurfAvailability.SlotRule, start: int, end: int): int {
    rule.basePrice * SlotCount(rule, start, end)
  }

  lemma FirstOrRest(rules: seq<TurfAvailability.SlotRule>, date: int, start: int, end: int)
    requires rules != []
    ensures BasePrice(rules, date, start, end) ==
              if Covering(rules[0], date, start, end) then Some(RulePrice(rules[0], start, end))
              else BasePrice(rules[1..], date, start, end)
  {
  }

  lemma {:induction false} OtherRulesPriceNothing(rules: seq<TurfAvailability.SlotRule>, date: int, start: int, end: int)
    ensures BasePrice(rules, date, start, end) == BasePrice(RulesOf(rules, date % 7), date, start, end)
  {
    if rules != [] {
      var kept := RulesOf(rules, date % 7);
      OtherRulesPriceNothing(rules[1..], date, start, end);
      FirstOrRest(rules, date, start, end);
      if rules[0].active && rules[0].day == date % 7 {
        assert kept[0] == rules[0] && kept[1..] == RulesOf(rules[1..], date % 7);
        FirstOrRest(kept, date, start, end);
      } else {
        assert kept == RulesOf(rules[1..], date % 7);
      }
    }
  }

  /** Two set-ups of a turf price it alike and have the same active rules for the weekday of the date. */
  predicate SameOn(a: Config, b: Config, turf: nat, date: int) {
    && TurfOf(a, turf).pricing == TurfOf(b, turf).pricing
    && RulesOf(TurfOf(a, turf).slotRules, date % 7) == RulesOf(TurfOf(b, turf).slotRules, date % 7)
  }

  /** Adding or removing inactive rules, or rules of other weekdays, changes nothing about any booking of the date. */
  lemma OtherRulesAreIgnored(a: Config, b: Config, db: Db, req: Request, details: ManualDetails, today: int)
    requires SameOn(a, b, req.turf, req.date)
    ensures Create(a, db, req, today) == Create(b, db, req, today)
    ensures CreateManual(a, db, req, details, today) == CreateManual(b, db, req, details, today)
  {
    OtherRulesPriceNothing(TurfOf(a, req.turf).slotRules, req.date, req.start, req.end);
    OtherRulesPriceNothing(TurfOf(b, req.turf).slotRules, req.date, req.start, req.end);
    assert PriceOf(a, db.coupons, req, today) == PriceOf(b, db.coupons, req, today);
  }

  lemma {:induction false} FirstRulePrices(rules: seq<TurfAvailability.SlotRule>, req: Request, i: nat)
    requires i < |rules| && ServedBy(rules[i], req) && forall j :: 0 <= j < i ==> !ServedBy(rules[j], req)
    ensures BasePrice(rules, req.date, req.start, req.end) ==
              Some(rules[i].basePrice * Max(1, (req.end - req.start) / Max(1, rules[i].durationMins)))
  {
    if i > 0 {
      assert !ServedBy(rules[0], req);
      FirstRulePrices(rules[1..], req, i - 1);
    }
  }

  /** The stored prices of a row, given the rule that serves the request first: as many slots of the rule as fit, and at least
      one; then the turf's pricing rules and the discount, and 18% tax on what is left. */
  predicate Priced(cfg: Config, b: Booking, rule: TurfAvailability.SlotRule) {
    && b.basePrice == rule.basePrice * Max(1, (b.end - b.start) / Max(1, rule.durationMins))
    && var charge := Pricing.Breakdown(TurfOf(cfg, b.turf).pricing,
                                       Pricing.Context(b.basePrice, b.date, b.start, "regular", b.bookingType, 0, b.discount));
       && b.tax == charge.tax
       && b.finalPrice == charge.total
  }

  /** The first rule that serves the request sets the price, whatever others do. */
  lemma FirstRuleSetsPrice(cfg: Config, db: Db, req: Request, today: int, i: nat)
    requires Create(cfg, db, req, today).outcome.Done?
    requires var rules := TurfOf(cfg, req.turf).slotRules;
             i < |rules| && ServedBy(rules[i], req) && forall j :: 0 <= j < i ==> !ServedBy(rules[j], req)
    ensures var after := Create(cfg, db, req, today).db;
            |after.bookings| == |db.bookings| + 1
            && Priced(cfg, after.bookings[|db.bookings|], TurfOf(cfg, req.turf).slotRules[i])
  {
    FirstRulePrices(TurfOf(cfg, req.turf).slotRules, req, i);
  }

  /** The discount of a row is that of its coupon. A coupon that is unknown or fails its checks is ignored, not refused. */
  lemma DiscountIsTheCoupons(cfg: Config, db: Db, req: Request, today: int)
    requires Create(cfg, db, req, today).outcome.Done?
    ensures var after := Create(cfg, db, req, today).db;
            |after.bookings| == |db.bookings| + 1
            && var b := after.bookings[|db.bookings|];
               if req.coupon.None? || req.coupon.value !in db.coupons then b.discount == 0 && after.coupons == db.coupons
               else
                 var granted := Coupons.Discount(Some(db.coupons[req.coupon.value]), b.basePrice, Some(req.turf), None,
                                                 req.bookingType, today);
                 && b.discount == (if granted.Ok? then granted.value else 0)
                 && (granted.Err? ==> after == Create(cfg, db, req.(coupon := None), today).db)
  {
  }

  // ---- What is added ----

  /** Row n of after is the one booking the call added. */
  ghost predicate Added(before: Db, after: Db, req: Request, n: nat, status: Status) {
    && |before.bookings| == n && |after.bookings| == n + 1
    && after.bookings[..n] == before.bookings
    && after.subs == before.subs
    && var b := after.bookings[n];
       && b.turf == req.turf && b.date == req.date && b.start == req.start && b.end == req.end && b.user == req.user
       && b.durationMins == req.end - req.start && b.bookingType == req.bookingType
       && b.status == status && b.version == 1 && b.refundAmount.None? && b.subscription.None?
  }

  lemma CreateAdds(cfg: Config, db: Db, req: Request, today: int)
    requires Create(cfg, db, req, today).outcome.Done?
    ensures var after := Create(cfg, db, req, today).db;
            && Added(db, after, req, |db.bookings|, Pending)
            && after.txns == db.txns
            && after.bookings[|db.bookings|].finalPrice == PriceOf(cfg, db.coupons, req, today).value.total
  {
    var after := Create(cfg, db, req, today).db;
    assert after.bookings[..|db.bookings|] == db.bookings;
  }

  /** A manual booking is confirmed and paid in the same call: one successful transaction over exactly what the row charges. */
  lemma CreateManualAdds(cfg: Config, db: Db, req: Request, details: ManualDetails, today: int)
    requires CreateManual(cfg, db, req, details, today).outcome.Done?
    ensures var after := CreateManual(cfg, db, req, details, today).db;
            var n := |db.bookings|;
            && Added(db, after, req, n, Confirmed)
            && |after.txns| == |db.txns| + 1 && after.txns[..|db.txns|] == db.txns
            && var t := after.txns[|db.txns|];
               && t.booking == Some(n) && t.status.Success? && t.gateway.Manual? && t.amount == after.bookings[n].finalPrice
               && t.amount == details.priceOverride.GetOr(PriceOf(cfg, db.coupons, req, today).value.total)
  {
    var after := CreateManual(cfg, db, req, details, today).db;
    assert after.bookings[..|db.bookings|] == db.bookings;
    assert after.txns[..|db.txns|] == db.txns;
  }

  /** While it stays active, an added booking keeps every overlapping request of its turf and date out. */
  lemma AddedBlocks(before: Db, after: Db, req: Request, n: nat, status: Status, other: Request)
    requires Added(before, after, req, n, status) && IsActive(status)
    requires other.turf == req.turf && other.date == req.date && Overlaps(other.start, other.end, req.start, req.end)
    ensures !Free(after, other)
  {
    assert Clashes(after.bookings[n], other.turf, other.date, other.start, other.end);
  }

  /** Of two overlapping requests at most one is accepted, whichever of the two ways of booking they take. */
  lemma SecondRequestRefused(cfg: Config, db: Db, first: Request, second: Request, details: ManualDetails, today: int, later: int)
    requires first.turf == second.turf && first.date == second.date && Overlaps(second.start, second.end, first.start, first.end)
    ensures Create(cfg, db, first, today).outcome.Done? ==>
              var after := Create(cfg, db, first, today).db;
              !Create(cfg, after, second, later).outcome.Done? && !CreateManual(cfg, after, second, details, later).outcome.Done?
    ensures CreateManual(cfg, db, first, details, today).outcome.Done? ==>
              var after := CreateManual(cfg, db, first, details, today).db;
              !Create(cfg, after, second, later).outcome.Done? && !CreateManual(cfg, after, second, details, later).outcome.Done?
  {
    if Create(cfg, db, first, today).outcome.Done? {
      var after := Create(cfg, db, first, today).db;
      CreateAdds(cfg, db, first, today);
      AddedBlocks(db, after, first, |db.bookings|, Pending, second);
      CreateSucceedsIff(cfg, after, second, later);
      CreateManualSucceedsIff(cfg, after, second, details, later);
    }
    if CreateManual(cfg, db, first, details, today).outcome.Done? {
      var after := CreateManual(cfg, db, first, details, today).db;
      CreateManualAdds(cfg, db, first, details, today);
      AddedBlocks(db, after, first, |db.bookings|, Confirmed, second);
      CreateSucceedsIff(cfg, after, second, later);
      CreateManualSucceedsIff(cfg, after, second, details, later);
    }
  }

  /** A cancellation succeeds if and only if the booking exists, the caller owns it or is an administrator, and its status is
      pending or confirmed; a second one is always refused and changes nothing. */
  lemma CancelSucceedsIff(cfg: Config, db: Db, actor: nat, isAdmin: bool, id: nat, secondsUntil: int, later: int)
    ensures var after := Cancel(cfg, db, actor, isAdmin, id, secondsUntil);
            && (after.outcome.Done? <==>
                  id < |db.bookings| && (actor == db.bookings[id].user || isAdmin)
                  && (db.bookings[id].status.Pending? || db.bookings[id].status.Confirmed?))
            && (after.outcome == Refused(NotFound) <==> id >= |db.bookings|)
            && (after.outcome == Refused(NotAllowed) <==> id < |db.bookings| && actor != db.bookings[id].user && !isAdmin)
            && (after.outcome.Done? ==> Cancel(cfg, after.db, actor, isAdmin, id, later) == After(after.db, Refused(BadTransition)))
            && (!after.outcome.Done? ==> after.db == db)
  {
    assert id < |db.bookings| && IsCancellable(db.bookings[id].status) ==>
             db.bookings[id].status.Pending? || db.bookings[id].status.Confirmed?;
  }

  /** An accepted cancellation records on the row, and announces, the refund of the turf's policy, and changes nothing else. */
  lemma CancelRecordsRefund(cfg: Config, db: Db, actor: nat, isAdmin: bool, id: nat, secondsUntil: int)
    requires Cancel(cfg, db, actor, isAdmin, id, secondsUntil).outcome.Done?
    ensures var b := db.bookings[id];
            exists amount, pct ::
              && Cancellation.IsRefund(TurfOf(cfg, b.turf).policy, b.finalPrice, secondsUntil, amount, pct)
              && Cancel(cfg, db, actor, isAdmin, id, secondsUntil).db ==
                   db.(bookings := db.bookings[id := b.(status := Cancelled, refundAmount := Some(amount),
                                                        version := b.version + 1)],
                       events := db.events + [BookingCancelled(id, amount, pct)])
  {
    var b := db.bookings[id];
    Cancellation.RefundMeaning(TurfOf(cfg, b.turf).policy, b.finalPrice, secondsUntil);
  }

  /** An administrator can move a booking somewhere if and only if it is not completed, missed or refunded. */
  lemma MovableIffNotTerminal(db: Db, id: nat)
    requires id < |db.bookings|
    ensures var s := db.bookings[id].status;
            && (IsTerminal(s) <==> s.Completed? || s.NoShow? || s.Refunded?)
            && ((exists target :: Move(db, id, target).outcome.Done?) <==> !(s.Completed? || s.NoShow? || s.Refunded?))
  {
    var s := db.bookings[id].status;
    if !IsTerminal(s) {
      var target :| target in Transitions(s);
      assert Move(db, id, target).outcome.Done?;
    }
  }

  /** Submitting a move twice is refused the second time and never undone by another: no move leads back to the old status. */
  lemma MovesAreOneWay(db: Db, id: nat, target: Status)
    requires Move(db, id, target).outcome.Done?
    ensures var after := Move(db, id, target).db;
            && Move(after, id, target) == After(after, Refused(BadTransition))
            && Move(after, id, db.bookings[id].status) == After(after, Refused(BadTransition))
            && after.bookings[id] == db.bookings[id].(status := target, version := db.bookings[id].version + 1)
            && after.events == db.events + [if target == Confirmed then BookingConfirmed(id) else BookingMoved(id, target)]
            && forall i :: 0 <= i < |db.bookings| && i != id ==> after.bookings[i] == db.bookings[i]
  {
  }

  /** In a table free of overlaps, a cancelled booking frees exactly its own range: a range is free afterwards if and only if it
      was free before or it conflicted with this booking alone. */
  lemma CancelFreesOwnRange(cfg: Config, db: Db, actor: nat, isAdmin: bool, id: nat, secondsUntil: int, req: Request)
    requires Cancel(cfg, db, actor, isAdmin, id, secondsUntil).outcome.Done?
    ensures Free(Cancel(cfg, db, actor, isAdmin, id, secondsUntil).db, req) <==>
              forall i :: 0 <= i < |db.bookings| && Clashes(db.bookings[i], req.turf, req.date, req.start, req.end) ==> i == id
  {
    var after := Cancel(cfg, db, actor, isAdmin, id, secondsUntil).db;
    forall i | 0 <= i < |db.bookings|
      ensures Clashes(after.bookings[i], req.turf, req.date, req.start, req.end) <==>
                i != id && Clashes(db.bookings[i], req.turf, req.date, req.start, req.end)
    {
      assert i != id ==> after.bookings[i] == db.bookings[i];
    }
  }

  /** Booking, cancelling and booking the same slot again succeeds, at the price of a fresh request; only the coupon's count
      remembers the first booking. */
  lemma CancelReopensSlot(cfg: Config, db: Db, req: Request, today: int, secondsUntil: int, later: int)
    requires req.Valid() && Create(cfg, db, req, today).outcome.Done?
    ensures var booked := Create(cfg, db, req, today).db;
            var cancelled := Cancel(cfg, booked, req.user, false, |db.bookings|, secondsUntil);
            && cancelled.outcome.Done?
            && cancelled.db.bookings[..|db.bookings|] == db.bookings
            && cancelled.db.coupons == booked.coupons
            && Create(cfg, cancelled.db, req, later).outcome.Done?
  {
    var n := |db.bookings|;
    var booked := Create(cfg, db, req, today).db;
    CreateAdds(cfg, db, req, today);
    CreateSucceedsIff(cfg, db, req, today);
    var cancelled := Cancel(cfg, booked, req.user, false, n, secondsUntil);
    assert cancelled.db.bookings[..n] == booked.bookings[..n];
    assert forall i :: 0 <= i < n ==>
             booked.bookings[i] == db.bookings[i] && !Clashes(db.bookings[i], req.turf, req.date, req.start, req.end);
    CancelFreesOwnRange(cfg, booked, req.user, false, n, secondsUntil, req);
    CreateSucceedsIff(cfg, cancelled.db, req, later);
  }
}
