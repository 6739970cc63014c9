/** Weekly slots that reach midnight: their end wraps to before their start, no check sees them, and the same hour is sold
    twice. */
module LateSlots {
  import opened Common
  import opened Times
  import opened BookingStates
  import opened Store
  import opened Runs
  import opened Subscriptions
  import opened SubscriptionService
  import opened SubscriptionRuns

  predicate Late(h: Hour) {
    IsTime(h.start) && h.start >= DAY_MINUTES - SLOT_MINUTES
  }

  /** What a row for a late hour keeps out: of the ranges of its date only those that begin in its first minutes after
      midnight and last until after its start, so nothing that meets it in the evening, and not the same hour again. */
  lemma LateHourIsInvisible(h: Hour, start: int, end: int)
    requires Late(h) && start < end
    ensures HourSlot(h).end == h.start + SLOT_MINUTES - DAY_MINUTES < h.start
    ensures Overlaps(HourSlot(h).start, HourSlot(h).end, start, end) <==> start < HourSlot(h).end && h.start < end
    ensures !Overlaps(HourSlot(h).start, HourSlot(h).end, HourSlot(h).start, HourSlot(h).end)
  {
  }

  /** A request for a late hour passes every check, also while another subscription holds it, and is stored wrapped. */
  lemma LateHourAccepted(cfg: Config, h: Hour, db: Db, user: nat)
    requires OffersHour(cfg, h) && Late(h) && db.bookings == [] && forall s :: s in LiveSlots(db.subs, h.turf) ==> s == HourSlot(h)
    ensures HourRequest(h, user).Valid()
    ensures Initiate(cfg, db, HourRequest(h, user), h.today) == After(WithHour(cfg, h, db, user), Done)
    ensures HourSlot(h).end < HourSlot(h).start
  {
    var held := LiveSlots(db.subs, h.turf);
    LateHourIsInvisible(h, 0, 1);
    OneOrNoneMeaning(held, (s: WeeklySlot) => SlotMeets(s, HourSlot(h).day, HourSlot(h).start, HourSlot(h).end));
    forall i | 0 <= i < |held| ensures !SlotMeets(held[i], HourSlot(h).day, HourSlot(h).start, HourSlot(h).end) {
      assert held[i] in held;
    }
    HourIsValid(h, user);
    HourAccepted(cfg, h, db, user);
  }

  // ---- The rows of an activated late hour ----

  predicate AllAt(rows: seq<Booking>, slot: WeeklySlot) {
    forall i :: 0 <= i < |rows| ==> rows[i].start == slot.start && rows[i].end == slot.end
  }

  lemma {:induction false} LateWeeksBooked(rows: seq<Booking>, sub: Subscription, id: nat, slot: WeeklySlot, today: int, n: nat)
    requires slot.end <= slot.start && AllAt(rows, slot)
    ensures var after := BookWeeks(rows, sub, id, slot, today, n);
            && |after| == |rows| + n && rows <= after && AllAt(after, slot)
            && forall i :: 0 <= i < n ==>
                 after[|rows| + i] == RecurringRow(sub, id, slot, DateOf(slot.day, FirstDay(sub, today), i))
  {
    if n > 0 {
      LateWeeksBooked(rows, sub, id, slot, today, n - 1);
    }
  }

  lemma SingleSlotActivation(db: Db, payment: nat, today: int, id: nat, slot: WeeklySlot)
    requires SubByPayment(db.subs, payment) == OneRow(id) && db.subs[id].status.SubPending? && db.subs[id].slots == [slot]
    ensures var sub := db.subs[id].(status := SubActive);
            var after := Activate(db, payment, today).db;
            && after.subs == db.subs[id := sub]
            && after.bookings == BookWeeks(db.bookings, sub, id, slot, today, WEEKS_PER_MONTH)
  {
    var sub := db.subs[id].(status := SubActive);
    assert BookSlots(db.bookings, sub, id, today, 0) == db.bookings;
    assert BookSlots(db.bookings, sub, id, today, 1) == BookWeeks(db.bookings, sub, id, slot, today, WEEKS_PER_MONTH);
  }

  lemma LateActivated(h: Hour, db: Db, user: nat, payment: nat, id: nat)
    requires Late(h) && AllAt(db.bookings, HourSlot(h))
    requires SubByPayment(db.subs, payment) == OneRow(id) && db.subs[id] == HourSub(h, user, SubPending, payment)
    ensures var after := Activate(db, payment, h.today).db;
            && after.subs == db.subs[id := HourSub(h, user, SubActive, payment)]
            && AllAt(after.bookings, HourSlot(h)) && db.bookings < after.bookings
            && after.bookings[|db.bookings|] == RecurringRow(HourSub(h, user, SubActive, payment), id, HourSlot(h), h.today)
  {
    SingleSlotActivation(db, payment, h.today, id, HourSlot(h));
    LateHourIsInvisible(h, 0, 1);
    var sub := HourSub(h, user, SubActive, payment);
    LateWeeksBooked(db.bookings, sub, id, HourSlot(h), h.today, WEEKS_PER_MONTH);
    NextOccurrenceUnique(Weekday(h.today), h.today, h.today);
    assert DateOf(HourSlot(h).day, FirstDay(sub, h.today), 0) == h.today;
    assert BookWeeks(db.bookings, sub, id, HourSlot(h), h.today, WEEKS_PER_MONTH)[|db.bookings| + 0] ==
             RecurringRow(sub, id, HourSlot(h), h.today);
  }

  lemma SubsByPayment(h: Hour, first: SubStatus, second: SubStatus)
    ensures var subs := [HourSub(h, 1, first, 0), HourSub(h, 2, second, 1)];
            SubByPayment(subs, 0) == OneRow(0) && SubByPayment(subs, 1) == OneRow(1)
  {
    var subs := [HourSub(h, 1, first, 0), HourSub(h, 2, second, 1)];
    OneRowMeaning(subs, (s: Subscription) => s.payment == Some(0), 0);
    OneRowMeaning(subs, (s: Subscription) => s.payment == Some(1), 1);
  }

  // ---- The run ----

  function BothStart(h: Hour): seq<Op> {
    [StartSubscription(HourRequest(h, 1), h.today), StartSubscription(HourRequest(h, 2), h.today)]
  }

  /** Two customers subscribe to one late hour, report their transfers, have them verified, and both are activated. */
  function SoldTwice(h: Hour): seq<Op> {
    BothStart(h) + [SubmitUtr(1, 0), SubmitUtr(2, 1), VerifyUpi(0), VerifyUpi(1), ActivateSubscription(0, h.today),
                    ActivateSubscription(1, h.today)]
  }

  lemma SoldTwiceIsValid(h: Hour)
    requires IsTime(h.start)
    ensures forall op :: op in SoldTwice(h) ==> ValidOp(op)
    ensures forall op :: op in BothStart(h) ==> ValidOp(op)
  {
    HourIsValid(h, 1);
    HourIsValid(h, 2);
  }

  lemma OneStarted(cfg: Config, h: Hour, db: Db, user: nat)
    requires OffersHour(cfg, h) && Late(h) && db.bookings == [] && forall s :: s in LiveSlots(db.subs, h.turf) ==> s == HourSlot(h)
    requires ValidOp(StartSubscription(HourRequest(h, user), h.today))
    ensures Apply(cfg, db, StartSubscription(HourRequest(h, user), h.today)).db == WithHour(cfg, h, db, user)
  {
    LateHourAccepted(cfg, h, db, user);
  }

  lemma BothStarted(cfg: Config, h: Hour, empty: Db)
    requires OffersHour(cfg, h) && Late(h) && empty.bookings == [] && empty.txns == [] && empty.subs == []
    requires forall op :: op in BothStart(h) ==> ValidOp(op)
    ensures Run(cfg, empty, BothStart(h)) == WithHour(cfg, h, WithHour(cfg, h, empty, 1), 2)
  {
    var ops := BothStart(h);
    assert ops[0] in ops && ops[1] in ops;
    var d1 := WithHour(cfg, h, empty, 1);
    OneStarted(cfg, h, empty, 1);
    assert LiveSlots(d1.subs, h.turf) == [HourSlot(h)];
    OneStarted(cfg, h, d1, 2);
    TraceIsRun(cfg, [empty, d1, WithHour(cfg, h, d1, 2)], ops);
  }

  /** Two live subscriptions of one late hour share it. */
  lemma BothHoldHour(h: Hour, first: SubStatus, second: SubStatus)
    requires Late(h) && Live(first) && Live(second)
    ensures !SlotsDisjoint([HourSub(h, 1, first, 0), HourSub(h, 2, second, 1)])
  {
    var subs := [HourSub(h, 1, first, 0), HourSub(h, 2, second, 1)];
    LateHourIsInvisible(h, 0, 1);
    assert HoldsWeekly(HourSlot(h), HourSlot(h).day, h.start);
    assert BothLive(subs[0], subs[1]) && Meet(subs[0].slots[0], subs[1].slots[0]);
  }

  /** Two accepted requests are enough for two live subscriptions to hold the same late hour. */
  lemma BothStartedCollide(cfg: Config, h: Hour, empty: Db)
    requires OffersHour(cfg, h) && Late(h) && empty.bookings == [] && empty.txns == [] && empty.subs == []
    ensures forall op :: op in BothStart(h) ==> ValidOp(op)
    ensures NeverRevives(cfg, empty, BothStart(h)) && !SlotsDisjoint(Run(cfg, empty, BothStart(h)).subs)
  {
    SoldTwiceIsValid(h);
    StartsReviveNothing(cfg, empty, BothStart(h));
    BothStarted(cfg, h, empty);
    BothHoldHour(h, SubPending, SubPending);
    assert WithHour(cfg, h, WithHour(cfg, h, empty, 1), 2).subs == [HourSub(h, 1, SubPending, 0), HourSub(h, 2, SubPending, 1)];
  }

  lemma StartsReviveNothing(cfg: Config, db: Db, ops: seq<Op>)
    requires forall op :: op in ops ==> ValidOp(op) && op.StartSubscription?
    ensures NeverRevives(cfg, db, ops)
  {
    forall n | 0 <= n < |ops| ensures !Revives(Run(cfg, db, ops[..n]), ops[n]) {
      assert ops[n] in ops;
    }
  }

  lemma PaymentsVerified(cfg: Config, h: Hour, db: Db)
    requires h.plan in cfg.plans && db.txns == [HourTxn(cfg, h, 1, Initiated), HourTxn(cfg, h, 2, Initiated)]
    ensures Run(cfg, db, [SubmitUtr(1, 0), SubmitUtr(2, 1), VerifyUpi(0), VerifyUpi(1)]) ==
              db.(txns := [HourTxn(cfg, h, 1, Success), HourTxn(cfg, h, 2, Success)],
                  events := db.events + [PaymentSuccess(0)] + [PaymentSuccess(1)])
  {
    var d1 := db.(txns := [HourTxn(cfg, h, 1, Processing), HourTxn(cfg, h, 2, Initiated)]);
    var d2 := db.(txns := [HourTxn(cfg, h, 1, Processing), HourTxn(cfg, h, 2, Processing)]);
    var d3 := db.(txns := [HourTxn(cfg, h, 1, Success), HourTxn(cfg, h, 2, Processing)], events := db.events + [PaymentSuccess(0)]);
    var d4 := d3.(txns := [HourTxn(cfg, h, 1, Success), HourTxn(cfg, h, 2, Success)], events := d3.events + [PaymentSuccess(1)]);
    ReportStep(cfg, db, 0, 1);
    ReportStep(cfg, d1, 1, 2);
    VerifyStep(cfg, d2, 0);
    VerifyStep(cfg, d3, 1);
    TraceIsRun(cfg, [db, d1, d2, d3, d4], [SubmitUtr(1, 0), SubmitUtr(2, 1), VerifyUpi(0), VerifyUpi(1)]);
  }

  lemma BothActivated(cfg: Config, h: Hour, db: Db)
    requires Late(h) && db.bookings == [] && db.subs == [HourSub(h, 1, SubPending, 0), HourSub(h, 2, SubPending, 1)]
    ensures var after := Run(cfg, db, [ActivateSubscription(0, h.today), ActivateSubscription(1, h.today)]);
            && after.subs == [HourSub(h, 1, SubActive, 0), HourSub(h, 2, SubActive, 1)]
            && !HeldOnce(after.bookings)
  {
    var d1 := Activate(db, 0, h.today).db;
    var d2 := Activate(d1, 1, h.today).db;
    SubsByPayment(h, SubPending, SubPending);
    LateActivated(h, db, 1, 0, 0);
    assert d1.subs == [HourSub(h, 1, SubActive, 0), HourSub(h, 2, SubPending, 1)];
    SubsByPayment(h, SubActive, SubPending);
    LateActivated(h, d1, 2, 1, 1);
    assert d2.subs == [HourSub(h, 1, SubActive, 0), HourSub(h, 2, SubActive, 1)];
    LateHourIsInvisible(h, 0, 1);
    var first, second := d2.bookings[0], d2.bookings[|d1.bookings|];
    assert first == d1.bookings[0];
    assert Holds(first, h.today, h.start) && Holds(second, h.today, h.start);
    assert Share(first, second);
    TraceIsRun(cfg, [db, d1, d2], [ActivateSubscription(0, h.today), ActivateSubscription(1, h.today)]);
  }

  /** For every hour from 23:00 on: from the empty database a run in which both customers hold confirmed bookings of the same
      minutes, while nothing the checks look for is wrong. */
  lemma LateHourSoldTwice(cfg: Config, h: Hour, empty: Db)
    requires OffersHour(cfg, h) && Late(h) && empty.bookings == [] && empty.txns == [] && empty.subs == []
    ensures forall op :: op in SoldTwice(h) ==> ValidOp(op)
    ensures var db := Run(cfg, empty, SoldTwice(h));
            && db.subs == [HourSub(h, 1, SubActive, 0), HourSub(h, 2, SubActive, 1)]
            && !HeldOnce(db.bookings)
            && NoOverlap(db.bookings)
  {
    SoldTwiceIsValid(h);
    var pay: seq<Op> := [SubmitUtr(1, 0), SubmitUtr(2, 1), VerifyUpi(0), VerifyUpi(1)];
    var activate: seq<Op> := [ActivateSubscription(0, h.today), ActivateSubscription(1, h.today)];
    assert SoldTwice(h) == BothStart(h) + pay + activate;
    RunSplit(cfg, empty, BothStart(h) + pay, activate);
    RunSplit(cfg, empty, BothStart(h), pay);
    BothStarted(cfg, h, empty);
    var d1 := Run(cfg, empty, BothStart(h));
    PaymentsVerified(cfg, h, d1);
    BothActivated(cfg, h, Run(cfg, d1, pay));
    EveryRunSound(cfg, empty, SoldTwice(h));
  }

  // ---- The exact bound on starting times ----

  /** Every subscription asked for starts at an allowed time. */
  predicate StartsAllowed(ops: seq<Op>, allowed: int -> bool) {
    forall op :: op in ops && op.StartSubscription? ==> forall s :: s in op.subRequest.slots ==> allowed(s.start)
  }

  ghost predicate ValidRun(ops: seq<Op>, allowed: int -> bool) {
    (forall op :: op in ops ==> ValidOp(op)) && StartsAllowed(ops, allowed)
  }

  /** No run ever books a minute twice. */
  ghost predicate AlwaysHeldOnce(cfg: Config, empty: Db, allowed: int -> bool) {
    forall ops: seq<Op> :: ValidRun(ops, allowed) ==> HeldOnce(Run(cfg, empty, ops).bookings)
  }

  /** No run that revives nothing ever sells a weekly minute twice. */
  ghost predicate AlwaysDisjoint(cfg: Config, empty: Db, allowed: int -> bool) {
    forall ops: seq<Op> :: ValidRun(ops, allowed) && NeverRevives(cfg, empty, ops) ==> SlotsDisjoint(Run(cfg, empty, ops).subs)
  }

  predicate AllowsNoLateStart(allowed: int -> bool) {
    forall t :: 0 <= t < DAY_MINUTES && allowed(t) ==> t < DAY_MINUTES - SLOT_MINUTES
  }

  lemma AllowedIsEarly(ops: seq<Op>, allowed: int -> bool)
    requires ValidRun(ops, allowed) && AllowsNoLateStart(allowed)
    ensures forall op :: op in ops ==> EarlyOp(op)
  {
  }

  /** Whatever starting times a schema allows for weekly slots: no run from the empty database books a minute of a turf twice
      if and only if it allows none from 23:00 on. */
  lemma HeldOnceIffNoLateStart(cfg: Config, h: Hour, empty: Db, allowed: int -> bool)
    requires OffersHour(cfg, h) && empty.bookings == [] && empty.txns == [] && empty.subs == []
    ensures AlwaysHeldOnce(cfg, empty, allowed) <==> AllowsNoLateStart(allowed)
  {
    if AllowsNoLateStart(allowed) {
      forall ops: seq<Op> | ValidRun(ops, allowed) ensures HeldOnce(Run(cfg, empty, ops).bookings) {
        AllowedIsEarly(ops, allowed);
        EveryRunSound(cfg, empty, ops);
      }
    } else {
      var t :| 0 <= t < DAY_MINUTES && allowed(t) && t >= DAY_MINUTES - SLOT_MINUTES;
      var late := h.(start := t);
      LateHourSoldTwice(cfg, late, empty);
      assert ValidRun(SoldTwice(late), allowed);
    }
  }

  /** The same for the weekly slots of live subscriptions, in runs that activate only pending ones. */
  lemma DisjointIffNoLateStart(cfg: Config, h: Hour, empty: Db, allowed: int -> bool)
    requires OffersHour(cfg, h) && empty.bookings == [] && empty.txns == [] && empty.subs == []
    ensures AlwaysDisjoint(cfg, empty, allowed) <==> AllowsNoLateStart(allowed)
  {
    if AllowsNoLateStart(allowed) {
      forall ops: seq<Op> | ValidRun(ops, allowed) && NeverRevives(cfg, empty, ops)
        ensures SlotsDisjoint(Run(cfg, empty, ops).subs) {
        AllowedIsEarly(ops, allowed);
        LiveSlotsStayDisjoint(cfg, empty, ops);
      }
    } else {
      var t :| 0 <= t < DAY_MINUTES && allowed(t) && t >= DAY_MINUTES - SLOT_MINUTES;
      var late := h.(start := t);
      BothStartedCollide(cfg, late, empty);
      assert ValidRun(BothStart(late), allowed);
    }
  }
}
