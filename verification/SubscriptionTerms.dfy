/** Who may subscribe: the terms of a request, on its fields and the stored rows alone, and how many hours it buys. */
module SubscriptionTerms {
  import opened Common
  import opened Times
  import opened BookingStates
  import opened Store
  import opened Subscriptions
  import opened SubscriptionService
  import SubscriptionFacts

  // ---- The slots themselves ----

  /** A slot ends an hour after it starts, on the clock. */
  function HourLater(start: int): int {
    if start < 1380 then start + 60 else start - 1380
  }

  /** The end given is the true one, and the hour lies in the plan's window. */
  predicate InWindow(plan: Plan, s: SlotInput) {
    && (s.end.None? || s.end.value == HourLater(s.start))
    && (plan.windowStart.None? || plan.windowStart.value <= s.start)
    && (plan.windowEnd.None? || HourLater(s.start) <= plan.windowEnd.value)
  }

  /** The two hours pass for overlapping: the test compares times of day, each start with the other end. */
  predicate SeemToMeet(day: int, start: int, other: WeeklySlot) {
    day == other.day && other.start < HourLater(start) && start < other.end
  }

  predicate PickedApart(slots: seq<SlotInput>) {
    forall i, j :: 0 <= i < j < |slots| ==>
      !SeemToMeet(slots[j].day, slots[j].start, WeeklySlot(slots[i].day, slots[i].start, HourLater(slots[i].start)))
  }

  /** On no date of the weekday within the next four weeks, today included, does the conflict query find a row. */
  predicate DatesFree(rows: seq<Booking>, turf: nat, s: SlotInput, today: int) {
    forall date :: today <= date < today + 28 && date % 7 == s.day ==>
      !HasConflict(rows, turf, date, s.start, HourLater(s.start))
  }

  /** No pending or active subscription of the turf seems to hold the hour. */
  predicate NotSubscribed(subs: seq<Subscription>, turf: nat, s: SlotInput) {
    forall j, y :: 0 <= j < |subs| && 0 <= y < |subs[j].slots| && subs[j].turf == turf
                   && (subs[j].status == SubPending || subs[j].status == SubActive) ==>
      !SeemToMeet(s.day, s.start, subs[j].slots[y])
  }

  lemma HourLaterIsEnd(start: int)
    requires IsTime(start)
    ensures AddMinutes(start, SLOT_MINUTES) == HourLater(start)
  {
  }

  lemma InWindowIff(plan: Plan, s: SlotInput)
    requires IsTime(s.start)
    ensures InWindow(plan, s) <==> SlotError(plan, s).None?
  {
    HourLaterIsEnd(s.start);
  }

  lemma WeeksApart(first: int, date: int)
    ensures date % 7 == first % 7 <==> date == first + 7 * ((date - first) / 7)
  {
  }

  lemma CheckedDates(day: int, today: int, date: int)
    requires IsWeekday(day)
    ensures (exists w :: 0 <= w < WEEKS_PER_MONTH && date == DateOf(day, today, w)) <==>
              today <= date < today + 28 && date % 7 == day
  {
    var first := NextOccurrence(day, today);
    NextOccurrenceUnique(day, today, first);
    assert today <= first < today + 7 && first % 7 == day;
    WeeksApart(first, date);
    if today <= date < today + 28 && date % 7 == day {
      var w := (date - first) / 7;
      assert -7 < 7 * w < 28;
      assert date == DateOf(day, today, w);
    }
  }

  lemma DatesFreeIff(rows: seq<Booking>, turf: nat, s: SlotInput, today: int)
    requires IsTime(s.start) && IsWeekday(s.day)
    ensures DatesFree(rows, turf, s, today) <==> !BookedOnSomeDate(rows, turf, Derived(s), today)
  {
    HourLaterIsEnd(s.start);
    forall w | 0 <= w < WEEKS_PER_MONTH
      ensures today <= DateOf(s.day, today, w) < today + 28 && DateOf(s.day, today, w) % 7 == s.day
    {
      CheckedDates(s.day, today, DateOf(s.day, today, w));
    }
    forall date | today <= date < today + 28 && date % 7 == s.day
      ensures exists w :: 0 <= w < WEEKS_PER_MONTH && date == DateOf(s.day, today, w)
    {
      CheckedDates(s.day, today, date);
    }
  }

  lemma {:induction false} LiveSlotsAre(subs: seq<Subscription>, turf: nat, s: WeeklySlot)
    ensures s in LiveSlots(subs, turf) <==>
              exists j :: 0 <= j < |subs| && subs[j].turf == turf && (subs[j].status == SubPending || subs[j].status == SubActive)
                          && s in subs[j].slots
  {
    if subs != [] {
      var n := |subs| - 1;
      LiveSlotsAre(subs[..n], turf, s);
      assert forall j :: 0 <= j < n ==> subs[..n][j] == subs[j];
    }
  }

  lemma NotSubscribedIff(subs: seq<Subscription>, turf: nat, s: SlotInput)
    requires IsTime(s.start)
    ensures NotSubscribed(subs, turf, s) <==> Holders(LiveSlots(subs, turf), Derived(s)).NoRow?
  {
    HourLaterIsEnd(s.start);
    var held := LiveSlots(subs, turf);
    SubscriptionFacts.HolderChecksAgree(held, Derived(s));
    if i :| 0 <= i < |held| && SlotMeets(held[i], s.day, s.start, HourLater(s.start)) {
      LiveSlotsAre(subs, turf, held[i]);
      assert held[i] in held;
      var j :| 0 <= j < |subs| && subs[j].turf == turf && (subs[j].status == SubPending || subs[j].status == SubActive)
               && held[i] in subs[j].slots;
      var y :| 0 <= y < |subs[j].slots| && subs[j].slots[y] == held[i];
      assert SeemToMeet(s.day, s.start, subs[j].slots[y]);
    }
    if j, y :| 0 <= j < |subs| && 0 <= y < |subs[j].slots| && subs[j].turf == turf
               && (subs[j].status == SubPending || subs[j].status == SubActive) && SeemToMeet(s.day, s.start, subs[j].slots[y]) {
      LiveSlotsAre(subs, turf, subs[j].slots[y]);
      var i :| 0 <= i < |held| && held[i] == subs[j].slots[y];
      assert SlotMeets(held[i], s.day, s.start, HourLater(s.start));
    }
  }

  lemma PickedApartIff(slots: seq<SlotInput>)
    requires forall s :: s in slots ==> IsTime(s.start)
    ensures PickedApart(slots) <==> !PickedSlotsCollide(Normalized(slots))
  {
    forall i | 0 <= i < |slots|
      ensures Normalized(slots)[i] == WeeklySlot(slots[i].day, slots[i].start, HourLater(slots[i].start))
    {
      assert slots[i] in slots;
      HourLaterIsEnd(slots[i].start);
    }
  }

  // ---- The terms ----

  predicate CustomerMay(cfg: Config, req: Request) {
    && req.upiConfigured && req.hasPhone && req.sameTenant
    && req.plan in cfg.plans && cfg.plans[req.plan].active && cfg.plans[req.plan].monthly
    && req.turf in cfg.turfs && cfg.turfs[req.turf].active
  }

  predicate SlotMayBeHad(cfg: Config, db: Db, req: Request, s: SlotInput, today: int)
    requires req.plan in cfg.plans
  {
    InWindow(cfg.plans[req.plan], s) && DatesFree(db.bookings, req.turf, s, today) && NotSubscribed(db.subs, req.turf, s)
  }

  /** A request is accepted if and only if the customer may subscribe to an active monthly plan on an active turf, asks for as
      many slots as its hours give, each in the window and free, and no two of them seem to meet. */
  lemma InitiateSucceedsIff(cfg: Config, db: Db, req: Request, today: int)
    requires req.Valid()
    ensures Initiate(cfg, db, req, today).outcome.Done? <==>
              && CustomerMay(cfg, req)
              && RightNumber(cfg.plans[req.plan], |req.slots|)
              && PickedApart(req.slots)
              && forall i :: 0 <= i < |req.slots| ==> SlotMayBeHad(cfg, db, req, req.slots[i], today)
    ensures Initiate(cfg, db, req, today).outcome.Done? || Initiate(cfg, db, req, today).db == db
  {
    if CustomerMay(cfg, req) {
      var plan, held := cfg.plans[req.plan], LiveSlots(db.subs, req.turf);
      RightNumberIff(plan, |req.slots|);
      PickedApartIff(req.slots);
      forall i | 0 <= i < |req.slots|
        ensures SlotMayBeHad(cfg, db, req, req.slots[i], today) <==>
                  SlotErrors(plan, req.slots)[i].None?
                  && ConflictErrors(db.bookings, held, req.turf, Normalized(req.slots), today)[i].None?
      {
        assert req.slots[i] in req.slots;
        InWindowIff(plan, req.slots[i]);
        DatesFreeIff(db.bookings, req.turf, req.slots[i], today);
        NotSubscribedIff(db.subs, req.turf, req.slots[i]);
      }
    }
  }

  // ---- The hours ----

  /** What an accepted request buys: the slots it asked for, as many as the hours of the plan give, so that the rows of
      activating it at any time are no more hours than the plan has, or four. */
  lemma HoursAreWithinPlan(cfg: Config, db: Db, req: Request, today: int, later: int)
    requires req.Valid() && Initiate(cfg, db, req, today).outcome.Done?
    requires forall s :: s in db.subs ==> s.payment != Some(|db.txns|)
    ensures req.plan in cfg.plans
    ensures var plan, started := cfg.plans[req.plan], Initiate(cfg, db, req, today).db;
            var after := Activate(started, |db.txns|, later).db;
            && |started.subs| == |db.subs| + 1
            && RightNumber(plan, |started.subs[|db.subs|].slots|)
            && |after.bookings| - |db.bookings| <= Max(4, plan.hoursPerMonth.GetOr(0))
            && forall i :: |db.bookings| <= i < |after.bookings| ==> after.bookings[i].subscription == Some(|db.subs|)
  {
    var started := Initiate(cfg, db, req, today).db;
    SubscriptionFacts.AcceptedIsAppended(cfg, db, req, today);
    InitiateSucceedsIff(cfg, db, req, today);
    assert OnlyRow(started.subs, (s: Subscription) => s.payment == Some(|db.txns|), |db.subs|);
    OneRowMeaning(started.subs, (s: Subscription) => s.payment == Some(|db.txns|), |db.subs|);
    SubscriptionFacts.ActivationFillsEveryCell(started, |db.txns|, later, |db.subs|);
  }

  /** What an accepted request leaves: one open payment over the price of the plan, and one pending subscription that waits for it
      and holds the slots asked for. */
  lemma AcceptedIsPending(cfg: Config, db: Db, req: Request, today: int)
    requires req.Valid() && Initiate(cfg, db, req, today).outcome.Done?
    ensures req.plan in cfg.plans
    ensures var after := Initiate(cfg, db, req, today).db;
            && after == db.(txns := after.txns, subs := after.subs)
            && after.txns == db.txns + [Txn(None, req.user, UpiManual, None, None, cfg.plans[req.plan].price, Initiated, None)]
            && |after.subs| == |db.subs| + 1 && after.subs[..|db.subs|] == db.subs
            && var sub := after.subs[|db.subs|];
               && sub.user == req.user && sub.plan == req.plan && sub.turf == req.turf && sub.status == SubPending
               && sub.payment == Some(|db.txns|)
               && |sub.slots| == |req.slots|
               && forall i :: 0 <= i < |req.slots| ==>
                    sub.slots[i] == WeeklySlot(req.slots[i].day, req.slots[i].start, HourLater(req.slots[i].start))
  {
    SubscriptionFacts.AcceptedIsAppended(cfg, db, req, today);
    forall i | 0 <= i < |req.slots|
      ensures Normalized(req.slots)[i] == WeeklySlot(req.slots[i].day, req.slots[i].start, HourLater(req.slots[i].start))
    {
      assert req.slots[i] in req.slots;
      HourLaterIsEnd(req.slots[i].start);
    }
  }

  /** Some slot falls on the weekday of the date. */
  predicate FallsOn(slots: seq<WeeklySlot>, date: int) {
    exists i :: 0 <= i < |slots| && slots[i].day == date % 7
  }

  /** The subscription runs for four weeks from the first date, today or later, that one of its slots falls on. */
  lemma StartsOnFirstDate(req: Request, payment: nat, today: int, date: int)
    requires req.Valid()
    ensures var sub := NewSubscription(req, payment, today);
            && sub.startsOn.Some? && sub.expiresOn == Some(sub.startsOn.value + 28)
            && (sub.startsOn.value == date <==>
                  today <= date && FallsOn(sub.slots, date) && forall d :: today <= d < date ==> !FallsOn(sub.slots, d))
  {
    var slots := Normalized(req.slots);
    forall i | 0 <= i < |slots| ensures IsWeekday(slots[i].day) {
      assert req.slots[i] in req.slots;
    }
    FirstDateIff(slots, today, date);
  }

  lemma FirstDateIff(slots: seq<WeeklySlot>, today: int, date: int)
    requires slots != [] && forall i :: 0 <= i < |slots| ==> IsWeekday(slots[i].day)
    ensures EarliestStart(slots, today) == date <==>
              today <= date && FallsOn(slots, date) && forall d :: today <= d < date ==> !FallsOn(slots, d)
  {
    var first := EarliestStart(slots, today);
    var m :| 0 <= m < |slots| && first == NextOccurrence(slots[m].day, today);
    NextOccurrenceUnique(slots[m].day, today, first);
    assert FallsOn(slots, first);
    forall d | today <= d < first ensures !FallsOn(slots, d) {
      forall i | 0 <= i < |slots| ensures slots[i].day != d % 7 {
        NextOccurrenceUnique(slots[i].day, today, NextOccurrence(slots[i].day, today));
        NextOccurrenceUnique(slots[i].day, today, d);
      }
    }
  }
}
