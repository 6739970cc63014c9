/** Offering, starting, activating and cancelling weekly subscriptions. */
module SubscriptionService {
  import opened Common
  import opened Times
  import opened BookingStates
  import opened Store
  import opened Subscriptions

  datatype SlotInput = SlotInput(day: int, start: int, end: Option<int>)

  datatype Request = Request(user: nat, hasPhone: bool, sameTenant: bool, upiConfigured: bool, plan: nat, turf: nat,
                             slots: seq<SlotInput>)
  {
    predicate Valid() {
      && slots != []
      && forall s :: s in slots ==> IsWeekday(s.day) && IsTime(s.start) && (s.end.Some? ==> IsTime(s.end.value))
    }
  }

  // ---- Availability ----

  const DEFAULT_HOURS := (360, 1410)

  function Hours(turf: Turf, day: int): (int, int) {
    if day in turf.hours then turf.hours[day] else DEFAULT_HOURS
  }

  /** Opening hours narrowed to the plan's window; nothing when the window is empty. */
  function ScanWindow(cfg: Config, turf: Turf, day: int, plan: Option<nat>): Option<(int, int)> {
    var (open, close) := Hours(turf, day);
    if plan.None? then Some((open, close))
    else
      var p := if plan.value in cfg.plans then Some(cfg.plans[plan.value]) else None;
      var from := if p.Some? && p.value.windowStart.Some? then Max(open, p.value.windowStart.value) else open;
      var to := if p.Some? && p.value.windowEnd.Some? then Min(close, p.value.windowEnd.value) else close;
      if from >= to then None else Some((from, to))
  }

  function Offered(cfg: Config, db: Db, turf: nat, day: int, duration: int, plan: Option<nat>, today: int): seq<Offer> {
    var w := ScanWindow(cfg, TurfOf(cfg, turf), day, plan);
    if w.None? then []
    else Offers(db.bookings, LiveSlots(db.subs, turf), turf, day, today, w.value.0, w.value.1, duration)
  }

  // ---- Initiation ----

  function Derived(s: SlotInput): WeeklySlot {
    WeeklySlot(s.day, s.start, AddMinutes(s.start, SLOT_MINUTES))
  }

  function Normalized(slots: seq<SlotInput>): (r: seq<WeeklySlot>)
    ensures |r| == |slots| && forall i :: 0 <= i < |r| ==> r[i] == Derived(slots[i])
  {
    seq(|slots|, i requires 0 <= i < |slots| => Derived(slots[i]))
  }

  function SlotError(plan: Plan, s: SlotInput): Option<Error> {
    var end := AddMinutes(s.start, SLOT_MINUTES);
    if s.end.Some? && s.end.value != end then Some(WrongSlotLength)
    else if plan.windowStart.Some? && s.start < plan.windowStart.value then Some(OutsidePlanWindow)
    else if plan.windowEnd.Some? && end > plan.windowEnd.value then Some(OutsidePlanWindow)
    else None
  }

  /** The first error of a list of checks. */
  function FirstOf(errors: seq<Option<Error>>): (r: Option<Error>)
    ensures r.None? <==> forall i :: 0 <= i < |errors| ==> errors[i].None?
  {
    if errors == [] then None
    else if errors[0].Some? then errors[0]
    else FirstOf(errors[1..])
  }

  lemma {:induction false} FirstOfAt(errors: seq<Option<Error>>, i: nat)
    requires i < |errors| && errors[i].Some? && forall j :: 0 <= j < i ==> errors[j].None?
    ensures FirstOf(errors) == errors[i]
  {
    if i > 0 {
      FirstOfAt(errors[1..], i - 1);
    }
  }

  function SlotErrors(plan: Plan, slots: seq<SlotInput>): (r: seq<Option<Error>>)
    ensures |r| == |slots| && forall i :: 0 <= i < |r| ==> r[i] == SlotError(plan, slots[i])
  {
    seq(|slots|, i requires 0 <= i < |slots| => SlotError(plan, slots[i]))
  }

  predicate Collide(a: WeeklySlot, b: WeeklySlot) {
    a.day == b.day && Overlaps(a.start, a.end, b.start, b.end)
  }

  predicate PickedSlotsCollide(slots: seq<WeeklySlot>) {
    exists i, j :: 0 <= i < j < |slots| && Collide(slots[i], slots[j])
  }

  predicate BookedOnSomeDate(rows: seq<Booking>, turf: nat, s: WeeklySlot, today: int) {
    exists w :: 0 <= w < WEEKS_PER_MONTH && HasConflict(rows, turf, DateOf(s.day, today, w), s.start, s.end)
  }

  function Holders(held: seq<WeeklySlot>, s: WeeklySlot): Lookup {
    OneOrNone(Select(held, (h: WeeklySlot) => SlotMeets(h, s.day, s.start, s.end)))
  }

  /** Why a slot is refused: a booking on one of its four dates, or a subscription (several make the query itself fail). */
  function ConflictError(rows: seq<Booking>, held: seq<WeeklySlot>, turf: nat, s: WeeklySlot, today: int): Option<Error> {
    if BookedOnSomeDate(rows, turf, s, today) then Some(BookingInTheWay)
    else match Holders(held, s)
      case NoRow => None
      case OneRow(_) => Some(SubscriptionInTheWay)
      case SeveralRows => Some(ManyRows)
  }

  function ConflictErrors(rows: seq<Booking>, held: seq<WeeklySlot>, turf: nat, slots: seq<WeeklySlot>,
                          today: int): (r: seq<Option<Error>>)
    ensures |r| == |slots| && forall i :: 0 <= i < |r| ==> r[i] == ConflictError(rows, held, turf, slots[i], today)
  {
    seq(|slots|, i requires 0 <= i < |slots| => ConflictError(rows, held, turf, slots[i], today))
  }

  function EarliestStart(slots: seq<WeeklySlot>, today: int): (r: int)
    requires slots != []
    ensures forall i :: 0 <= i < |slots| ==> r <= NextOccurrence(slots[i].day, today)
    ensures exists i :: 0 <= i < |slots| && r == NextOccurrence(slots[i].day, today)
  {
    var n := |slots| - 1;
    if n == 0 then NextOccurrence(slots[0].day, today)
    else
      var earlier := EarliestStart(slots[..n], today);
      assert forall i :: 0 <= i < n ==> slots[..n][i] == slots[i];
      Min(earlier, NextOccurrence(slots[n].day, today))
  }

  /** Everything that is checked before a subscription is stored, in order. */
  function RequestError(cfg: Config, db: Db, req: Request, today: int): Option<Error> {
    if !req.upiConfigured then Some(UpiNotConfigured)
    else if !req.hasPhone then Some(MissingPhone)
    else if req.plan !in cfg.plans || !cfg.plans[req.plan].active then Some(NotFound)
    else if !cfg.plans[req.plan].monthly then Some(NotMonthly)
    else if !req.sameTenant then Some(NotAllowed)
    else if !TurfOf(cfg, req.turf).active then Some(NotFound)
    else
      var plan := cfg.plans[req.plan];
      if |req.slots| != SlotsPerWeek(plan) then Some(WrongSlotCount)
      else if FirstOf(SlotErrors(plan, req.slots)).Some? then FirstOf(SlotErrors(plan, req.slots))
      else if PickedSlotsCollide(Normalized(req.slots)) then Some(SlotsCollide)
      else FirstOf(ConflictErrors(db.bookings, LiveSlots(db.subs, req.turf), req.turf, Normalized(req.slots), today))
  }

  function NewSubscription(req: Request, payment: nat, today: int): Subscription
    requires req.slots != []
  {
    var slots := Normalized(req.slots);
    var startsOn := EarliestStart(slots, today);
    Subscription(req.user, req.plan, req.turf, SubPending, Some(startsOn), Some(startsOn + 7 * WEEKS_PER_MONTH),
                 Some(payment), slots)
  }

  function Initiate(cfg: Config, db: Db, req: Request, today: int): After
    requires req.Valid()
  {
    var e := RequestError(cfg, db, req, today);
    if e.Some? then After(db, Refused(e.value))
    else if req.plan !in cfg.plans then After(db, Refused(NotFound))
    else
      After(db.(txns := db.txns + [Txn(None, req.user, UpiManual, None, None, cfg.plans[req.plan].price, Initiated, None)],
                subs := db.subs + [NewSubscription(req, |db.txns|, today)]), Done)
  }

  // ---- Activation ----

  function RecurringRow(sub: Subscription, id: nat, slot: WeeklySlot, date: int): Booking {
    Booking(sub.turf, sub.user, Some(id), date, slot.start, slot.end, slot.end - slot.start, Confirmed, "subscription", 0, 0,
            0, 0, None, 1)
  }

  function FirstDay(sub: Subscription, today: int): int {
    if sub.startsOn.Some? then sub.startsOn.value else today
  }

  /** Rows after the first n weeks of one slot: each free cell gets a confirmed booking, a taken one is skipped. */
  function BookWeeks(rows: seq<Booking>, sub: Subscription, id: nat, slot: WeeklySlot, today: int, n: nat): seq<Booking> {
    if n == 0 then rows
    else
      var before := BookWeeks(rows, sub, id, slot, today, n - 1);
      var date := DateOf(slot.day, FirstDay(sub, today), n - 1);
      if HasConflict(before, sub.turf, date, slot.start, slot.end) then before else before + [RecurringRow(sub, id, slot, date)]
  }

  function BookSlots(rows: seq<Booking>, sub: Subscription, id: nat, today: int, k: nat): seq<Booking>
    requires k <= |sub.slots|
  {
    if k == 0 then rows
    else BookWeeks(BookSlots(rows, sub, id, today, k - 1), sub, id, sub.slots[k - 1], today, WEEKS_PER_MONTH)
  }

  function Activate(db: Db, payment: nat, today: int): After {
    match SubByPayment(db.subs, payment)
    case NoRow => After(db, Done)
    case SeveralRows => After(db, Refused(ManyRows))
    case OneRow(id) =>
      if db.subs[id].status.SubActive? then After(db, Done)
      else
        var sub := db.subs[id].(status := SubActive);
        After(db.(subs := db.subs[id := sub],
                  bookings := BookSlots(db.bookings, sub, id, today, |sub.slots|),
                  events := db.events + [SubscriptionActivated(id)]), Done)
  }

  // ---- Cancellation ----

  predicate ToCancel(b: Booking, id: nat, today: int, cancelPast: bool) {
    b.subscription == Some(id) && (cancelPast || b.date >= today)
  }

  function CancelledRow(b: Booking, id: nat, today: int, cancelPast: bool): Booking {
    if ToCancel(b, id, today, cancelPast) && IsActive(b.status) then b.(status := Cancelled, version := b.version + 1) else b
  }

  function CancelledRows(rows: seq<Booking>, id: nat, today: int, cancelPast: bool): (r: seq<Booking>)
    ensures |r| == |rows| && forall i :: 0 <= i < |r| ==> r[i] == CancelledRow(rows[i], id, today, cancelPast)
  {
    seq(|rows|, i requires 0 <= i < |rows| => CancelledRow(rows[i], id, today, cancelPast))
  }

  function ChosenCount(rows: seq<Booking>, id: nat, today: int, cancelPast: bool): nat {
    |Select(rows, (b: Booking) => ToCancel(b, id, today, cancelPast))|
  }

  function Cancel(db: Db, id: nat, actor: nat, isAdmin: bool, cancelPast: bool, today: int): After {
    if id >= |db.subs| then After(db, Refused(NotFound))
    else if db.subs[id].user != actor && !isAdmin then After(db, Refused(NotAllowed))
    else if db.subs[id].status.SubCancelled? then After(db, Done)
    else
      After(db.(subs := db.subs[id := db.subs[id].(status := SubCancelled)],
                bookings := CancelledRows(db.bookings, id, today, cancelPast),
                events := db.events + [SubscriptionCancelled(id, ChosenCount(db.bookings, id, today, cancelPast))]), Done)
  }

  // ---- The service ----

  class Service {
    const db: Database
    const cfg: Config

    constructor (db: Database, cfg: Config)
      ensures this.db == db && this.cfg == cfg
    {
      this.db, this.cfg := db, cfg;
    }

    method Availability(turf: nat, day: int, duration: int, plan: Option<nat>, today: int)
      returns (offers: seq<Offer>, error: Option<Error>)
      requires var w := ScanWindow(cfg, TurfOf(cfg, turf), day, plan);
               w.Some? ==> IsTime(w.value.0) && IsTime(w.value.1) && ScanEnds(w.value.0, EndLimit(w.value.1, duration))
      ensures error == if !IsWeekday(day) then Some(NotAllowed) else if turf !in cfg.turfs then Some(NotFound) else None
      ensures error.None? ==> offers == Offered(cfg, db.Rows(), turf, day, duration, plan, today)
    {
      if day < 0 || day > 6 {
        return [], Some(NotAllowed);
      }
      if turf !in cfg.turfs {
        return [], Some(NotFound);
      }
      var (open, close) := Hours(cfg.turfs[turf], day);
      if plan.Some? {
        if plan.value in cfg.plans && cfg.plans[plan.value].windowStart.Some? {
          open := Max(open, cfg.plans[plan.value].windowStart.value);
        }
        if plan.value in cfg.plans && cfg.plans[plan.value].windowEnd.Some? {
          close := Min(close, cfg.plans[plan.value].windowEnd.value);
        }
        if open >= close {
          return [], None;
        }
      }
      offers := Scan(db.bookings, LiveSlots(db.subs, turf), turf, day, today, open, close, duration);
      return offers, None;
    }

    method NormalizeSlots(plan: Plan, slots: seq<SlotInput>) returns (normalized: seq<WeeklySlot>, error: Option<Error>)
      ensures error == FirstOf(SlotErrors(plan, slots))
      ensures error.None? ==> normalized == Normalized(slots)
    {
      normalized := [];
      for i := 0 to |slots|
        invariant forall k :: 0 <= k < i ==> SlotErrors(plan, slots)[k].None?
        invariant |normalized| == i && forall k :: 0 <= k < i ==> normalized[k] == Derived(slots[k])
      {
        var s := slots[i];
        var derivedEnd := AddMinutes(s.start, SLOT_MINUTES);
        var end := if s.end.Some? then s.end.value else derivedEnd;
        error := None;
        if end != derivedEnd {
          error := Some(WrongSlotLength);
        } else if plan.windowStart.Some? && s.start < plan.windowStart.value {
          error := Some(OutsidePlanWindow);
        } else if plan.windowEnd.Some? && end > plan.windowEnd.value {
          error := Some(OutsidePlanWindow);
        }
        assert error == SlotErrors(plan, slots)[i];
        if error.Some? {
          FirstOfAt(SlotErrors(plan, slots), i);
          return;
        }
        normalized := normalized + [WeeklySlot(s.day, s.start, end)];
      }
      return normalized, None;
    }

    method ValidateNoConflicts(turf: nat, s: WeeklySlot, today: int) returns (error: Option<Error>)
      ensures error == ConflictError(db.bookings, LiveSlots(db.subs, turf), turf, s, today)
    {
      var firstDate := NextOccurrence(s.day, today);
      for week := 0 to WEEKS_PER_MONTH
        invariant forall w :: 0 <= w < week ==> !HasConflict(db.bookings, turf, DateOf(s.day, today, w), s.start, s.end)
      {
        if HasConflict(db.bookings, turf, firstDate + 7 * week, s.start, s.end) {
          assert HasConflict(db.bookings, turf, DateOf(s.day, today, week), s.start, s.end);
          return Some(BookingInTheWay);
        }
      }
      var holders := Holders(LiveSlots(db.subs, turf), s);
      if holders.SeveralRows? {
        return Some(ManyRows);
      }
      if holders.OneRow? {
        return Some(SubscriptionInTheWay);
      }
      return None;
    }

    method InitiateSubscription(req: Request, today: int) returns (outcome: Outcome)
      requires req.Valid()
      modifies db
      ensures After(db.Rows(), outcome) == Initiate(cfg, old(db.Rows()), req, today)
    {
      if !req.upiConfigured {
        return Refused(UpiNotConfigured);
      }
      if !req.hasPhone {
        return Refused(MissingPhone);
      }
      if req.plan !in cfg.plans || !cfg.plans[req.plan].active {
        return Refused(NotFound);
      }
      var plan := cfg.plans[req.plan];
      if !plan.monthly {
        return Refused(NotMonthly);
      }
      if !req.sameTenant {
        return Refused(NotAllowed);
      }
      if !TurfOf(cfg, req.turf).active {
        return Refused(NotFound);
      }
      if |req.slots| != SlotsPerWeek(plan) {
        return Refused(WrongSlotCount);
      }
      var normalized, slotError := NormalizeSlots(plan, req.slots);
      if slotError.Some? {
        return Refused(slotError.value);
      }
      var collide := AnyTwoCollide(normalized);
      if collide {
        return Refused(SlotsCollide);
      }
      var conflict := ValidateAll(req.turf, normalized, today);
      if conflict.Some? {
        return Refused(conflict.value);
      }
      StoreSubscription(req, plan.price, normalized, today);
      return Done;
    }

    method AnyTwoCollide(slots: seq<WeeklySlot>) returns (collide: bool)
      ensures collide == PickedSlotsCollide(slots)
    {
      for i := 0 to |slots|
        invariant forall a, b :: 0 <= a < b < |slots| && a < i ==> !Collide(slots[a], slots[b])
      {
        for j := i + 1 to |slots|
          invariant forall b :: i < b < j ==> !Collide(slots[i], slots[b])
        {
          if Collide(slots[i], slots[j]) {
            return true;
          }
        }
      }
      return false;
    }

    method ValidateAll(turf: nat, slots: seq<WeeklySlot>, today: int) returns (error: Option<Error>)
      ensures error == FirstOf(ConflictErrors(db.bookings, LiveSlots(db.subs, turf), turf, slots, today))
    {
      ghost var errors := ConflictErrors(db.bookings, LiveSlots(db.subs, turf), turf, slots, today);
      for i := 0 to |slots|
        invariant forall k :: 0 <= k < i ==> errors[k].None?
      {
        error := ValidateNoConflicts(turf, slots[i], today);
        if error.Some? {
          FirstOfAt(errors, i);
          return;
        }
      }
      return None;
    }

    method EarliestOf(slots: seq<WeeklySlot>, today: int) returns (startsOn: int)
      requires slots != []
      ensures startsOn == EarliestStart(slots, today)
    {
      startsOn := NextOccurrence(slots[0].day, today);
      for i := 1 to |slots|
        invariant startsOn == EarliestStart(slots[..i], today)
      {
        assert slots[..i + 1][..i] == slots[..i];
        startsOn := Min(startsOn, NextOccurrence(slots[i].day, today));
      }
      assert slots[..|slots|] == slots;
    }

    method StoreSubscription(req: Request, price: int, normalized: seq<WeeklySlot>, today: int)
      requires req.Valid() && normalized == Normalized(req.slots)
      modifies db`txns, db`subs
      ensures db.txns == old(db.txns) + [Txn(None, req.user, UpiManual, None, None, price, Initiated, None)]
      ensures db.subs == old(db.subs) + [NewSubscription(req, |old(db.txns)|, today)]
    {
      var payment := |db.txns|;
      db.txns := db.txns + [Txn(None, req.user, UpiManual, None, None, price, Initiated, None)];
      var startsOn := EarliestOf(normalized, today);
      var expiresOn := startsOn + 7 * WEEKS_PER_MONTH;
      db.subs := db.subs + [Subscription(req.user, req.plan, req.turf, SubPending, Some(startsOn), Some(expiresOn),
                                         Some(payment), normalized)];
    }

    /** The nested loop over slots and weeks; the conflict query sees the rows added so far. */
    method CreateWeeklyBookings(sub: Subscription, id: nat, today: int)
      modifies db`bookings
      ensures db.bookings == BookSlots(old(db.bookings), sub, id, today, |sub.slots|)
    {
      var firstDate := if sub.startsOn.Some? then sub.startsOn.value else today;
      for k := 0 to |sub.slots|
        invariant db.bookings == BookSlots(old(db.bookings), sub, id, today, k)
      {
        var slot := sub.slots[k];
        var durationMins := slot.end - slot.start;
        var slotFirst := NextOccurrence(slot.day, firstDate);
        ghost var before := db.bookings;
        for week := 0 to WEEKS_PER_MONTH
          invariant db.bookings == BookWeeks(before, sub, id, slot, today, week)
        {
          var date := slotFirst + 7 * week;
          if HasConflict(db.bookings, sub.turf, date, slot.start, slot.end) {
            continue;
          }
          db.bookings := db.bookings + [Booking(sub.turf, sub.user, Some(id), date, slot.start, slot.end, durationMins, Confirmed,
                                                "subscription", 0, 0, 0, 0, None, 1)];
        }
      }
    }

    method ActivateAfterPayment(payment: nat, today: int) returns (outcome: Outcome)
      modifies db
      ensures After(db.Rows(), outcome) == Activate(old(db.Rows()), payment, today)
    {
      var found := SubByPayment(db.subs, payment);
      if found.NoRow? {
        return Done;
      }
      if found.SeveralRows? {
        return Refused(ManyRows);
      }
      if db.subs[found.id].status.SubActive? {
        return Done;
      }
      var sub := db.subs[found.id].(status := SubActive);
      db.subs := db.subs[found.id := sub];
      CreateWeeklyBookings(sub, found.id, today);
      db.events := db.events + [SubscriptionActivated(found.id)];
      return Done;
    }

    method CancelBookings(id: nat, today: int, cancelPast: bool)
      modifies db`bookings
      ensures db.bookings == CancelledRows(old(db.bookings), id, today, cancelPast)
    {
      for i := 0 to |db.bookings|
        invariant |db.bookings| == |old(db.bookings)|
        invariant forall k :: 0 <= k < i ==> db.bookings[k] == CancelledRow(old(db.bookings)[k], id, today, cancelPast)
        invariant forall k :: i <= k < |db.bookings| ==> db.bookings[k] == old(db.bookings)[k]
      {
        var b := db.bookings[i];
        if ToCancel(b, id, today, cancelPast) && IsActive(b.status) {
          b := b.(status := Cancelled);
          b := b.(version := b.version + 1);
          db.bookings := db.bookings[i := b];
        }
      }
    }

    method CancelSubscription(id: nat, actor: nat, isAdmin: bool, cancelPast: bool, today: int) returns (outcome: Outcome)
      modifies db
      ensures After(db.Rows(), outcome) == Cancel(old(db.Rows()), id, actor, isAdmin, cancelPast, today)
    {
      if id >= |db.subs| {
        return Refused(NotFound);
      }
      var sub := db.subs[id];
      if sub.user != actor && !isAdmin {
        return Refused(NotAllowed);
      }
      if sub.status.SubCancelled? {
        return Done;
      }
      db.subs := db.subs[id := sub.(status := SubCancelled)];
      var chosen := ChosenCount(db.bookings, id, today, cancelPast);
      CancelBookings(id, today, cancelPast);
      db.events := db.events + [SubscriptionCancelled(id, chosen)];
      return Done;
    }
  }
}
