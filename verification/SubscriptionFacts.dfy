/** What subscriptions promise: offers are honoured, the dates checked are the dates booked, activation fills every free cell. */
module SubscriptionFacts {
  import opened Common
  import opened Times
  import opened BookingStates
  import opened Store
  import opened Subscriptions
  import opened SubscriptionService

  // ---- The scan lists exactly the half-hour starts that fit ----

  /** For a duration of at least half an hour and a closing time no earlier than it, the listed starts are exactly the half-hour
      steps from opening whose slot ends by closing time, each once and with its true end. */
  lemma ScanListsFittingStarts(rows: seq<Booking>, held: seq<WeeklySlot>, turf: nat, day: int, today: int, open: int,
                               close: int, duration: int)
    requires IsTime(open) && IsTime(close) && 30 <= duration <= close
    ensures var offers := Offers(rows, held, turf, day, today, open, close, duration);
            && (forall k: nat :: k < |offers| <==> open + SCAN_STEP * k + duration <= close)
            && (forall k :: 0 <= k < |offers| ==>
                  offers[k].start == open + SCAN_STEP * k && offers[k].end == offers[k].start + duration)
  {
    ScanEndsForLongSlots(open, close, duration);
  }

  /** The hours that are searched: the turf's for the weekday, 06:00 to 23:30 where it has none, narrowed to those of the plan. */
  predicate Searched(cfg: Config, turf: nat, day: int, plan: Option<nat>, from: int, to: int) {
    var own := day in TurfOf(cfg, turf).hours;
    var open, close := if own then TurfOf(cfg, turf).hours[day].0 else 360, if own then TurfOf(cfg, turf).hours[day].1 else 1410;
    if plan.None? || plan.value !in cfg.plans then from == open && to == close
    else
      var p := cfg.plans[plan.value];
      && open <= from && (p.windowStart.None? || p.windowStart.value <= from) && (from == open || p.windowStart == Some(from))
      && to <= close && (p.windowEnd.None? || to <= p.windowEnd.value) && (to == close || p.windowEnd == Some(to))
  }

  /** What is offered in those hours: every half-hour start whose slot ends in them, each with its true end. */
  lemma OffersFillTheHours(cfg: Config, db: Db, turf: nat, day: int, duration: int, plan: Option<nat>, today: int,
                           from: int, to: int)
    requires Searched(cfg, turf, day, plan, from, to) && IsTime(from) && IsTime(to) && 30 <= duration <= to && from < to
    ensures var offers := Offered(cfg, db, turf, day, duration, plan, today);
            && (forall k: nat :: k < |offers| <==> from + 30 * k + duration <= to)
            && (forall k :: 0 <= k < |offers| ==> offers[k].start == from + 30 * k && offers[k].end == from + 30 * k + duration)
  {
    assert ScanWindow(cfg, TurfOf(cfg, turf), day, plan) == Some((from, to));
    ScanListsFittingStarts(db.bookings, LiveSlots(db.subs, turf), turf, day, today, from, to, duration);
  }

  // ---- Offers agree with the checks made at initiation ----

  lemma BookingChecksAgree(rows: seq<Booking>, turf: nat, s: WeeklySlot, today: int)
    ensures HeldByBooking(rows, turf, s.day, s.start, s.end, today) <==> BookedOnSomeDate(rows, turf, s, today)
  {
    if HeldByBooking(rows, turf, s.day, s.start, s.end, today) {
      var i :| 0 <= i < |rows| && OnCandidateDate(rows[i], turf, s.day, today)
        && Overlaps(rows[i].start, rows[i].end, s.start, s.end);
      var w :| 0 <= w < WEEKS_PER_MONTH && rows[i].date == DateOf(s.day, today, w);
      assert Clashes(rows[i], turf, DateOf(s.day, today, w), s.start, s.end);
      assert HasConflict(rows, turf, DateOf(s.day, today, w), s.start, s.end);
    }
    if BookedOnSomeDate(rows, turf, s, today) {
      var w :| 0 <= w < WEEKS_PER_MONTH && HasConflict(rows, turf, DateOf(s.day, today, w), s.start, s.end);
      var i :| 0 <= i < |rows| && Clashes(rows[i], turf, DateOf(s.day, today, w), s.start, s.end);
      assert OnCandidateDate(rows[i], turf, s.day, today);
    }
  }

  lemma HolderChecksAgree(held: seq<WeeklySlot>, s: WeeklySlot)
    ensures HeldBySubscription(held, s.day, s.start, s.end) <==> !Holders(held, s).NoRow?
  {
    OneOrNoneMeaning(held, (h: WeeklySlot) => SlotMeets(h, s.day, s.start, s.end));
  }

  /** A candidate is offered as available exactly when the same slot would pass the conflict checks of a new subscription, and
      otherwise for the reason that it would be refused. */
  lemma OfferMatchesCheck(rows: seq<Booking>, held: seq<WeeklySlot>, turf: nat, day: int, today: int, duration: int, cursor: int)
    ensures var offer := OfferAt(rows, held, turf, day, today, duration, cursor);
            var error := ConflictError(rows, held, turf, WeeklySlot(day, offer.start, offer.end), today);
            && (offer.available <==> error.None?)
            && (offer.reason == BookingConflict <==> error == Some(BookingInTheWay))
            && (offer.reason == NoReason <==> error.None?)
  {
    var s := WeeklySlot(day, cursor, AddMinutes(cursor, duration));
    BookingChecksAgree(rows, turf, s, today);
    HolderChecksAgree(held, s);
  }

  /** The slot is one of the listed 60-minute candidates of its weekday, and was listed with this availability. */
  ghost predicate ListedAs(cfg: Config, db: Db, req: Request, s: SlotInput, today: int, available: bool) {
    var offers := Offered(cfg, db, req.turf, s.day, SLOT_MINUTES, Some(req.plan), today);
    exists k :: 0 <= k < |offers| && offers[k].start == s.start && offers[k].available == available &&
                (s.end.Some? ==> s.end.value == offers[k].end)
  }

  /** Every check other than those about the slots passes. */
  predicate Eligible(cfg: Config, req: Request) {
    && req.upiConfigured && req.hasPhone && req.sameTenant
    && req.plan in cfg.plans && cfg.plans[req.plan].active && cfg.plans[req.plan].monthly
    && TurfOf(cfg, req.turf).active
    && RightNumber(cfg.plans[req.plan], |req.slots|)
  }

  predicate UsualHours(cfg: Config, req: Request) {
    forall day :: 0 <= day < 7 ==>
      var w := ScanWindow(cfg, TurfOf(cfg, req.turf), day, Some(req.plan));
      w.Some? ==> IsTime(w.value.0) && IsTime(w.value.1) && SLOT_MINUTES <= w.value.1
  }

  lemma ScannedStartFits(rows: seq<Booking>, held: seq<WeeklySlot>, turf: nat, day: int, today: int, open: int, close: int, k: nat)
    requires IsTime(open) && IsTime(close) && SLOT_MINUTES <= close
    requires k < |Offers(rows, held, turf, day, today, open, close, SLOT_MINUTES)|
    ensures var o := Offers(rows, held, turf, day, today, open, close, SLOT_MINUTES)[k];
            && open <= o.start && o.end == o.start + SLOT_MINUTES == AddMinutes(o.start, SLOT_MINUTES) <= close
            && (o.available <==> ConflictError(rows, held, turf, WeeklySlot(day, o.start, o.end), today).None?)
  {
    ScanListsFittingStarts(rows, held, turf, day, today, open, close, SLOT_MINUTES);
    HourOffered(rows, held, turf, day, today, open + SCAN_STEP * k);
  }

  lemma HourOffered(rows: seq<Booking>, held: seq<WeeklySlot>, turf: nat, day: int, today: int, cursor: int)
    requires 0 <= cursor && cursor + SLOT_MINUTES < DAY_MINUTES
    ensures var o := OfferAt(rows, held, turf, day, today, SLOT_MINUTES, cursor);
            && o.start == cursor && o.end == cursor + SLOT_MINUTES == AddMinutes(cursor, SLOT_MINUTES)
            && (o.available <==> ConflictError(rows, held, turf, WeeklySlot(day, o.start, o.end), today).None?)
  {
    OfferMatchesCheck(rows, held, turf, day, today, SLOT_MINUTES, cursor);
  }

  lemma WindowWithinPlan(cfg: Config, turf: Turf, day: int, plan: nat)
    requires plan in cfg.plans && ScanWindow(cfg, turf, day, Some(plan)).Some?
    ensures var w := ScanWindow(cfg, turf, day, Some(plan)).value;
            && (cfg.plans[plan].windowStart.Some? ==> cfg.plans[plan].windowStart.value <= w.0)
            && (cfg.plans[plan].windowEnd.Some? ==> w.1 <= cfg.plans[plan].windowEnd.value)
  {
  }

  lemma ListedSlot(cfg: Config, db: Db, req: Request, s: SlotInput, today: int, available: bool)
    requires Eligible(cfg, req) && UsualHours(cfg, req) && IsWeekday(s.day) && ListedAs(cfg, db, req, s, today, available)
    ensures SlotError(cfg.plans[req.plan], s).None?
    ensures available <==> ConflictError(db.bookings, LiveSlots(db.subs, req.turf), req.turf, Derived(s), today).None?
  {
    var offers := Offered(cfg, db, req.turf, s.day, SLOT_MINUTES, Some(req.plan), today);
    var k :| 0 <= k < |offers| && offers[k].start == s.start && offers[k].available == available &&
             (s.end.Some? ==> s.end.value == offers[k].end);
    var w := ScanWindow(cfg, TurfOf(cfg, req.turf), s.day, Some(req.plan)).value;
    WindowWithinPlan(cfg, TurfOf(cfg, req.turf), s.day, req.plan);
    ScannedStartFits(db.bookings, LiveSlots(db.subs, req.turf), req.turf, s.day, today, w.0, w.1, k);
    SlotInWindow(cfg.plans[req.plan], s, w.0, w.1);
    assert Derived(s) == WeeklySlot(s.day, offers[k].start, offers[k].end);
  }

  lemma SlotInWindow(plan: Plan, s: SlotInput, open: int, close: int)
    requires plan.windowStart.Some? ==> plan.windowStart.value <= open
    requires plan.windowEnd.Some? ==> close <= plan.windowEnd.value
    requires open <= s.start && AddMinutes(s.start, SLOT_MINUTES) <= close
    requires s.end.Some? ==> s.end.value == AddMinutes(s.start, SLOT_MINUTES)
    ensures SlotError(plan, s).None?
  {
  }

  /** Offers are honoured: a request for the right number of listed, pairwise disjoint slots is accepted if and only if every one
      of them was listed as available. */
  lemma OffersHonoured(cfg: Config, db: Db, req: Request, today: int)
    requires req.Valid() && Eligible(cfg, req) && UsualHours(cfg, req)
    requires forall i :: 0 <= i < |req.slots| ==>
               ListedAs(cfg, db, req, req.slots[i], today, true) || ListedAs(cfg, db, req, req.slots[i], today, false)
    requires !PickedSlotsCollide(Normalized(req.slots))
    ensures Initiate(cfg, db, req, today).outcome.Done? <==>
              forall i :: 0 <= i < |req.slots| ==> ListedAs(cfg, db, req, req.slots[i], today, true)
  {
    var held := LiveSlots(db.subs, req.turf);
    var plan := cfg.plans[req.plan];
    RightNumberIff(plan, |req.slots|);
    forall i | 0 <= i < |req.slots|
      ensures SlotError(plan, req.slots[i]).None?
      ensures ListedAs(cfg, db, req, req.slots[i], today, true) <==>
                ConflictError(db.bookings, held, req.turf, Normalized(req.slots)[i], today).None?
    {
      assert req.slots[i] in req.slots;
      if ListedAs(cfg, db, req, req.slots[i], today, true) {
        ListedSlot(cfg, db, req, req.slots[i], today, true);
      } else {
        ListedSlot(cfg, db, req, req.slots[i], today, false);
      }
    }
  }

  lemma DerivedIsHourIff(s: SlotInput)
    requires IsTime(s.start)
    ensures Derived(s).start < Derived(s).end <==> s.start < DAY_MINUTES - SLOT_MINUTES
    ensures s.start < DAY_MINUTES - SLOT_MINUTES ==> Derived(s).end == s.start + SLOT_MINUTES
  {
  }

  lemma AcceptedIsAppended(cfg: Config, db: Db, req: Request, today: int)
    requires req.Valid()
    ensures var after := Initiate(cfg, db, req, today);
            after.outcome.Done? ==> after.db.subs == db.subs + [NewSubscription(req, |db.txns|, today)]
  {
  }

  /** A slot of an accepted request is stored as an hour that ends after it starts if and only if it starts before 23:00; from
      then on its end wraps to before its start. */
  lemma AcceptedSlotIsHourIff(cfg: Config, db: Db, req: Request, today: int, i: nat)
    requires req.Valid() && i < |req.slots|
    ensures var after, start := Initiate(cfg, db, req, today), req.slots[i].start;
            after.outcome.Done? ==>
              && |after.db.subs| == |db.subs| + 1 && |after.db.subs[|db.subs|].slots| == |req.slots|
              && var slot := after.db.subs[|db.subs|].slots[i];
                 && slot.start == start
                 && (slot.start < slot.end <==> start < DAY_MINUTES - SLOT_MINUTES)
                 && (start < DAY_MINUTES - SLOT_MINUTES ==> slot.end == start + SLOT_MINUTES)
  {
    assert req.slots[i] in req.slots;
    AcceptedIsAppended(cfg, db, req, today);
    DerivedIsHourIff(req.slots[i]);
    assert NewSubscription(req, |db.txns|, today).slots[i] == Derived(req.slots[i]);
  }

  // ---- The dates ----

  /** On the starting day the dates booked later are the dates checked now, week by week, and all fall in the paid period. */
  lemma DatesCheckedAreDatesBooked(req: Request, payment: nat, today: int, later: int, i: nat, week: nat)
    requires req.Valid() && i < |req.slots| && week < WEEKS_PER_MONTH
    ensures var sub := NewSubscription(req, payment, today);
            var day := req.slots[i].day;
            && DateOf(day, FirstDay(sub, later), week) == DateOf(day, today, week)
            && sub.startsOn.Some? && sub.expiresOn.Some?
            && today <= sub.startsOn.value <= DateOf(day, today, week) < sub.expiresOn.value
  {
    var sub := NewSubscription(req, payment, today);
    var day := req.slots[i].day;
    var first := sub.startsOn.value;
    assert req.slots[i] in req.slots;
    assert sub.slots[i].day == day;
    NextOccurrenceUnique(day, today, NextOccurrence(day, today));
    forall j | 0 <= j < |sub.slots| ensures today <= NextOccurrence(sub.slots[j].day, today) < today + 7 {
      assert req.slots[j] in req.slots;
      NextOccurrenceUnique(sub.slots[j].day, today, NextOccurrence(sub.slots[j].day, today));
    }
    NextOccurrenceUnique(day, first, NextOccurrence(day, today));
  }

  // ---- Activation ----

  /** A row made by activating subscription id: an hour of one of its slots, on the slot's weekday, already paid. */
  ghost predicate Recurring(b: Booking, sub: Subscription, id: nat) {
    && b.subscription == Some(id) && b.turf == sub.turf && b.user == sub.user && b.bookingType == "subscription"
    && b.status.Confirmed? && b.version == 1 && b.basePrice == b.discount == b.tax == b.finalPrice == 0 && b.refundAmount.None?
    && b.durationMins == b.end - b.start
    && exists s :: s in sub.slots && b.start == s.start && b.end == s.end && (IsWeekday(s.day) ==> b.date % 7 == s.day)
  }

  /** after extends before by at most n rows of the subscription and stays free of overlaps. */
  ghost predicate Extends(before: seq<Booking>, after: seq<Booking>, sub: Subscription, id: nat, n: int) {
    && before <= after
    && |after| <= |before| + n
    && (forall i :: |before| <= i < |after| ==> Recurring(after[i], sub, id))
    && (NoOverlap(before) ==> NoOverlap(after))
  }

  lemma ExtendsTransitive(a: seq<Booking>, b: seq<Booking>, c: seq<Booking>, sub: Subscription, id: nat, m: int, n: int)
    requires Extends(a, b, sub, id, m) && Extends(b, c, sub, id, n)
    ensures Extends(a, c, sub, id, m + n)
  {
  }

  lemma ConflictPersists(before: seq<Booking>, after: seq<Booking>, turf: nat, date: int, start: int, end: int)
    requires before <= after && HasConflict(before, turf, date, start, end)
    ensures HasConflict(after, turf, date, start, end)
  {
    var i :| 0 <= i < |before| && Clashes(before[i], turf, date, start, end);
    assert after[i] == before[i];
  }

  lemma RowOfSlot(sub: Subscription, id: nat, slot: WeeklySlot, first: int, week: nat)
    requires slot in sub.slots
    ensures Recurring(RecurringRow(sub, id, slot, DateOf(slot.day, first, week)), sub, id)
  {
    if IsWeekday(slot.day) {
      NextOccurrenceUnique(slot.day, first, NextOccurrence(slot.day, first));
    }
  }

  lemma {:induction false} BookWeeksFills(rows: seq<Booking>, sub: Subscription, id: nat, slot: WeeklySlot, today: int, n: nat)
    requires slot in sub.slots
    ensures Extends(rows, BookWeeks(rows, sub, id, slot, today, n), sub, id, n)
    ensures slot.start < slot.end ==> forall w :: 0 <= w < n ==>
              HasConflict(BookWeeks(rows, sub, id, slot, today, n), sub.turf, DateOf(slot.day, FirstDay(sub, today), w),
                          slot.start, slot.end)
  {
    if n > 0 {
      BookWeeksFills(rows, sub, id, slot, today, n - 1);
      var before, after := BookWeeks(rows, sub, id, slot, today, n - 1), BookWeeks(rows, sub, id, slot, today, n);
      var date := DateOf(slot.day, FirstDay(sub, today), n - 1);
      if !HasConflict(before, sub.turf, date, slot.start, slot.end) {
        var row := RecurringRow(sub, id, slot, date);
        RowOfSlot(sub, id, slot, FirstDay(sub, today), n - 1);
        if NoOverlap(before) {
          AppendKeepsNoOverlap(before, row);
        }
        if slot.start < slot.end {
          assert after[|before|] == row && Clashes(row, sub.turf, date, slot.start, slot.end);
        }
      }
      if slot.start < slot.end {
        forall w | 0 <= w < n - 1
          ensures HasConflict(after, sub.turf, DateOf(slot.day, FirstDay(sub, today), w), slot.start, slot.end)
        {
          ConflictPersists(before, after, sub.turf, DateOf(slot.day, FirstDay(sub, today), w), slot.start, slot.end);
        }
      }
    }
  }

  lemma {:induction false} BookSlotsFills(rows: seq<Booking>, sub: Subscription, id: nat, today: int, k: nat)
    requires k <= |sub.slots|
    ensures Extends(rows, BookSlots(rows, sub, id, today, k), sub, id, WEEKS_PER_MONTH * k)
  {
    if k > 0 {
      BookSlotsFills(rows, sub, id, today, k - 1);
      var before := BookSlots(rows, sub, id, today, k - 1);
      BookWeeksFills(before, sub, id, sub.slots[k - 1], today, WEEKS_PER_MONTH);
      ExtendsTransitive(rows, before, BookSlots(rows, sub, id, today, k), sub, id, WEEKS_PER_MONTH * (k - 1), WEEKS_PER_MONTH);
    }
  }

  lemma {:induction false} EveryCellTaken(rows: seq<Booking>, sub: Subscription, id: nat, today: int, k: nat, i: nat, w: nat)
    requires i < k <= |sub.slots| && w < WEEKS_PER_MONTH && sub.slots[i].start < sub.slots[i].end
    ensures HasConflict(BookSlots(rows, sub, id, today, k), sub.turf, DateOf(sub.slots[i].day, FirstDay(sub, today), w),
                        sub.slots[i].start, sub.slots[i].end)
  {
    var before := BookSlots(rows, sub, id, today, k - 1);
    BookWeeksFills(before, sub, id, sub.slots[k - 1], today, WEEKS_PER_MONTH);
    if i < k - 1 {
      EveryCellTaken(rows, sub, id, today, k - 1, i, w);
      ConflictPersists(before, BookSlots(rows, sub, id, today, k), sub.turf, DateOf(sub.slots[i].day, FirstDay(sub, today), w),
                       sub.slots[i].start, sub.slots[i].end);
    }
  }

  lemma {:induction false} WeeksUpright(rows: seq<Booking>, sub: Subscription, id: nat, slot: WeeklySlot, today: int, n: nat)
    requires UprightRows(rows) && slot.start < slot.end
    ensures UprightRows(BookWeeks(rows, sub, id, slot, today, n))
  {
    if n > 0 {
      WeeksUpright(rows, sub, id, slot, today, n - 1);
    }
  }

  lemma {:induction false} SlotsUpright(rows: seq<Booking>, sub: Subscription, id: nat, today: int, k: nat)
    requires UprightRows(rows) && k <= |sub.slots|
    requires forall x :: 0 <= x < |sub.slots| ==> sub.slots[x].start < sub.slots[x].end
    ensures UprightRows(BookSlots(rows, sub, id, today, k))
  {
    if k > 0 {
      SlotsUpright(rows, sub, id, today, k - 1);
      WeeksUpright(BookSlots(rows, sub, id, today, k - 1), sub, id, sub.slots[k - 1], today, WEEKS_PER_MONTH);
    }
  }

  /** Activation only adds confirmed bookings of this subscription, at most four per slot, none of which the conflict query
      had a row against; it leaves every (slot, week) cell that does not cross midnight held by some active booking, and books
      no minute twice when every row and slot ends after it starts. */
  lemma ActivationFillsEveryCell(db: Db, payment: nat, today: int, id: nat)
    requires SubByPayment(db.subs, payment) == OneRow(id) && !db.subs[id].status.SubActive?
    ensures var after := Activate(db, payment, today).db;
            var sub := db.subs[id];
            && Extends(db.bookings, after.bookings, sub, id, WEEKS_PER_MONTH * |sub.slots|)
            && after.subs == db.subs[id := sub.(status := SubActive)]
            && (forall i, w :: 0 <= i < |sub.slots| && 0 <= w < WEEKS_PER_MONTH && sub.slots[i].start < sub.slots[i].end ==>
                  HasConflict(after.bookings, sub.turf, DateOf(sub.slots[i].day, FirstDay(sub, today), w), sub.slots[i].start,
                              sub.slots[i].end))
            && (UprightRows(db.bookings) && HeldOnce(db.bookings)
                && (forall x :: 0 <= x < |sub.slots| ==> sub.slots[x].start < sub.slots[x].end) ==>
                  UprightRows(after.bookings) && HeldOnce(after.bookings))
  {
    var sub := db.subs[id].(status := SubActive);
    BookSlotsFills(db.bookings, sub, id, today, |sub.slots|);
    if UprightRows(db.bookings) && HeldOnce(db.bookings)
       && forall x :: 0 <= x < |sub.slots| ==> sub.slots[x].start < sub.slots[x].end {
      SlotsUpright(db.bookings, sub, id, today, |sub.slots|);
      UprightHeldOnceIff(db.bookings);
      UprightHeldOnceIff(Activate(db, payment, today).db.bookings);
    }
    forall i, w | 0 <= i < |sub.slots| && 0 <= w < WEEKS_PER_MONTH && sub.slots[i].start < sub.slots[i].end
      ensures HasConflict(Activate(db, payment, today).db.bookings, sub.turf, DateOf(sub.slots[i].day, FirstDay(sub, today), w),
                          sub.slots[i].start, sub.slots[i].end)
    {
      EveryCellTaken(db.bookings, sub, id, today, |sub.slots|, i, w);
    }
  }

  /** Delivering the payment event again changes nothing: the first delivery left the subscription active. */
  lemma RedeliveryIsIgnored(db: Db, payment: nat, today: int, again: int)
    ensures var once := Activate(db, payment, today).db; Activate(once, payment, again).db == once
  {
    var r := SubByPayment(db.subs, payment);
    if r.OneRow? && !db.subs[r.id].status.SubActive? {
      var once := Activate(db, payment, today).db;
      OneOrNoneMeaning(db.subs, (s: Subscription) => s.payment == Some(payment));
      OneOrNoneMeaning(once.subs, (s: Subscription) => s.payment == Some(payment));
      assert SubByPayment(once.subs, payment) == OneRow(r.id);
    }
  }

  // ---- Cancellation ----

  /** After a cancellation no booking of the subscription dated today or later holds a slot, other bookings are untouched, and
      past ones too unless asked for. */
  lemma CancelFreesFutureSlots(db: Db, id: nat, actor: nat, isAdmin: bool, cancelPast: bool, today: int)
    requires id < |db.subs| && (db.subs[id].user == actor || isAdmin) && !db.subs[id].status.SubCancelled?
    ensures var after := Cancel(db, id, actor, isAdmin, cancelPast, today).db;
            && |after.bookings| == |db.bookings|
            && after.subs[id].status.SubCancelled?
            && forall i :: 0 <= i < |after.bookings| ==>
                 && (after.bookings[i].subscription == Some(id) && after.bookings[i].date >= today ==>
                       !IsActive(after.bookings[i].status))
                 && (db.bookings[i].subscription != Some(id) || (!cancelPast && db.bookings[i].date < today) ==>
                       after.bookings[i] == db.bookings[i])
  {
  }

  /** A subscription is cancelled by its owner or an administrator, and once; a refused cancellation changes nothing. */
  lemma CancelSucceedsIff(db: Db, id: nat, actor: nat, isAdmin: bool, cancelPast: bool, today: int, later: int)
    ensures var after := Cancel(db, id, actor, isAdmin, cancelPast, today);
            && (after.outcome.Done? <==> id < |db.subs| && (isAdmin || db.subs[id].user == actor))
            && (after.outcome.Done? ==>
                  && after.db.subs == db.subs[id := db.subs[id].(status := SubCancelled)]
                  && Cancel(after.db, id, actor, isAdmin, cancelPast, later) == After(after.db, Done))
            && (!after.outcome.Done? ==> after.db == db)
  {
    if id < |db.subs| && db.subs[id].status.SubCancelled? {
      assert db.subs[id := db.subs[id].(status := SubCancelled)] == db.subs;
    }
  }
}
