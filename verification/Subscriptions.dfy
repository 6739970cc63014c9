/** Recurring subscriptions: the dates they cover, the scan that offers weekly slots, and the checks that accept them. */
module Subscriptions {
  import opened Common
  import opened Times
  import opened BookingStates
  import opened Store

  const WEEKS_PER_MONTH := 4
  const SLOT_MINUTES := 60
  const SCAN_STEP := 30

  // ---- Dates ----

  predicate IsWeekday(day: int) {
    0 <= day < 7
  }

  function NextOccurrence(day: int, from: int): int {
    from + (day - Weekday(from)) % 7
  }

  function DateOf(day: int, from: int, week: int): int {
    NextOccurrence(day, from) + 7 * week
  }

  /** The one day of the week ahead, today included, that falls on the wanted weekday. */
  lemma NextOccurrenceUnique(day: int, from: int, d: int)
    requires IsWeekday(day)
    ensures d == NextOccurrence(day, from) <==> from <= d < from + 7 && Weekday(d) == day
  {
  }

  /** Times wrap around midnight here. */
  function AddMinutes(t: int, mins: int): int {
    (t + mins) % DAY_MINUTES
  }

  function SlotsPerWeek(plan: Plan): int {
    if plan.hoursPerMonth.None? || plan.hoursPerMonth.value == 0 then 1
    else Max(1, plan.hoursPerMonth.value * 60 / WEEKS_PER_MONTH / SLOT_MINUTES)
  }

  /** A plan of h hours a month has one weekly slot for each four full hours, and at least one; a plan without hours has one. */
  predicate RightNumber(plan: Plan, n: int) {
    if plan.hoursPerMonth.None? then n == 1
    else n >= 1 && (4 * n <= plan.hoursPerMonth.value < 4 * (n + 1) || (n == 1 && plan.hoursPerMonth.value < 8))
  }

  lemma RightNumberIff(plan: Plan, n: int)
    ensures RightNumber(plan, n) <==> n == SlotsPerWeek(plan)
  {
    if plan.hoursPerMonth.Some? {
      var h := plan.hoursPerMonth.value;
      assert h * 60 / 4 == h * 15;
      assert h * 15 / 60 == h / 4;
    }
  }

  // ---- The candidate scan ----

  function EndLimit(close: int, duration: int): int {
    AddMinutes(close, -duration)
  }

  /** The cursor after n steps of 30 minutes. */
  function CursorAfter(open: int, n: nat): int {
    if n == 0 then open else AddMinutes(CursorAfter(open, n - 1), SCAN_STEP)
  }

  /** The latest time of day on the 30-minute grid through open lies past the limit. */
  predicate ScanEnds(open: int, limit: int) {
    1410 + open % 30 > limit
  }

  lemma AddMinutesTwice(t: int, m: int)
    ensures AddMinutes(AddMinutes(t, m), SCAN_STEP) == AddMinutes(t, m + SCAN_STEP)
  {
    assert t + m == DAY_MINUTES * ((t + m) / DAY_MINUTES) + (t + m) % DAY_MINUTES;
  }

  lemma {:induction false} CursorClosedForm(open: int, n: nat)
    requires IsTime(open)
    ensures CursorAfter(open, n) == AddMinutes(open, SCAN_STEP * n)
  {
    if n > 0 {
      CursorClosedForm(open, n - 1);
      AddMinutesTwice(open, SCAN_STEP * (n - 1));
    }
  }

  /** The scan stays on the half-hour grid through the opening time, also across midnight. */
  lemma CursorOnGrid(open: int, n: nat)
    requires IsTime(open)
    ensures CursorAfter(open, n) % 30 == open % 30 && IsTime(CursorAfter(open, n))
  {
    CursorClosedForm(open, n);
    var t := open + SCAN_STEP * n;
    assert t == DAY_MINUTES * (t / DAY_MINUTES) + t % DAY_MINUTES;
  }

  /** The scan loop stops if and only if the last grid time of the day is past its limit; otherwise it wraps around for ever. */
  lemma ScanEndsIff(open: int, close: int, duration: int)
    requires IsTime(open) && IsTime(close)
    ensures ScanEnds(open, EndLimit(close, duration)) <==> exists n: nat :: CursorAfter(open, n) > EndLimit(close, duration)
  {
    var limit := EndLimit(close, duration);
    if ScanEnds(open, limit) {
      var n: nat := (1410 + open % 30 - open) / 30;
      CursorClosedForm(open, n);
      assert CursorAfter(open, n) == 1410 + open % 30;
    }
    if n: nat :| CursorAfter(open, n) > limit {
      CursorOnGrid(open, n);
    }
  }

  /** For durations of at least half an hour that fit before closing time, the scan always ends. */
  lemma ScanEndsForLongSlots(open: int, close: int, duration: int)
    requires IsTime(open) && IsTime(close) && 30 <= duration <= close
    ensures EndLimit(close, duration) == close - duration
    ensures ScanEnds(open, EndLimit(close, duration))
  {
  }

  /** A quarter-hour slot on a turf closing at 23:59 sends the scan round for ever. */
  lemma ScanCanRunForever(n: nat)
    ensures CursorAfter(360, n) <= EndLimit(1439, 15)
  {
    CursorOnGrid(360, n);
  }

  datatype Reason = NoReason | BookingConflict | SubscriptionConflict

  datatype Offer = Offer(start: int, end: int, available: bool, reason: Reason)

  predicate Live(s: SubStatus) {
    s.SubPending? || s.SubActive?
  }

  /** The weekly slots held by pending and active subscriptions of a turf. */
  function LiveSlots(subs: seq<Subscription>, turf: nat): seq<WeeklySlot> {
    if subs == [] then []
    else
      var last := subs[|subs| - 1];
      LiveSlots(subs[..|subs| - 1], turf) + if last.turf == turf && Live(last.status) then last.slots else []
  }

  predicate SlotMeets(s: WeeklySlot, day: int, start: int, end: int) {
    s.day == day && Overlaps(s.start, s.end, start, end)
  }

  predicate HeldBySubscription(held: seq<WeeklySlot>, day: int, start: int, end: int) {
    exists i :: 0 <= i < |held| && SlotMeets(held[i], day, start, end)
  }

  /** The booking holds the turf on one of the four coming dates of the weekday. */
  predicate OnCandidateDate(b: Booking, turf: nat, day: int, today: int) {
    b.turf == turf && IsActive(b.status) && exists w :: 0 <= w < WEEKS_PER_MONTH && b.date == DateOf(day, today, w)
  }

  predicate HeldByBooking(rows: seq<Booking>, turf: nat, day: int, start: int, end: int, today: int) {
    exists i :: 0 <= i < |rows| && OnCandidateDate(rows[i], turf, day, today) && Overlaps(rows[i].start, rows[i].end, start, end)
  }

  function OfferAt(rows: seq<Booking>, held: seq<WeeklySlot>, turf: nat, day: int, today: int, duration: int, cursor: int): Offer {
    var end := AddMinutes(cursor, duration);
    if HeldByBooking(rows, turf, day, cursor, end, today) then Offer(cursor, end, false, BookingConflict)
    else if HeldBySubscription(held, day, cursor, end) then Offer(cursor, end, false, SubscriptionConflict)
    else Offer(cursor, end, true, NoReason)
  }

  function ScanCount(open: int, limit: int): nat {
    if open > limit then 0 else (limit - open) / SCAN_STEP + 1
  }

  function Offers(rows: seq<Booking>, held: seq<WeeklySlot>, turf: nat, day: int, today: int, open: int, close: int,
                  duration: int): (r: seq<Offer>)
    ensures |r| == ScanCount(open, EndLimit(close, duration))
    ensures forall k :: 0 <= k < |r| ==> r[k] == OfferAt(rows, held, turf, day, today, duration, open + SCAN_STEP * k)
  {
    seq(ScanCount(open, EndLimit(close, duration)),
        k requires 0 <= k => OfferAt(rows, held, turf, day, today, duration, open + SCAN_STEP * k))
  }

  /** The scan lists every half-hour start from opening time, each marked taken or free. */
  method Scan(rows: seq<Booking>, held: seq<WeeklySlot>, turf: nat, day: int, today: int, open: int, close: int, duration: int)
    returns (offers: seq<Offer>)
    requires IsTime(open) && IsTime(close)
    requires ScanEnds(open, EndLimit(close, duration))
    ensures offers == Offers(rows, held, turf, day, today, open, close, duration)
  {
    var future := FutureBookings(rows, turf, day, today);
    var cursor := open;
    var endLimit := EndLimit(close, duration);
    offers := [];
    while cursor <= endLimit
      invariant cursor == open + SCAN_STEP * |offers| <= LAST_MINUTE
      invariant |offers| <= ScanCount(open, endLimit)
      invariant forall k :: 0 <= k < |offers| ==> offers[k] == OfferAt(rows, held, turf, day, today, duration, open + SCAN_STEP * k)
      decreases endLimit - cursor
    {
      var slotEnd := AddMinutes(cursor, duration);
      var offer := OneOffer(rows, future, held, turf, day, today, cursor, slotEnd);
      offers := offers + [offer];
      cursor := AddMinutes(cursor, SCAN_STEP);
    }
  }

  method FutureBookings(rows: seq<Booking>, turf: nat, day: int, today: int) returns (future: seq<Booking>)
    ensures forall b :: b in future <==> b in rows && OnCandidateDate(b, turf, day, today)
  {
    future := [];
    for i := 0 to |rows|
      invariant forall b :: b in future <==> b in rows[..i] && OnCandidateDate(b, turf, day, today)
    {
      assert rows[..i + 1] == rows[..i] + [rows[i]];
      if OnCandidateDate(rows[i], turf, day, today) {
        future := future + [rows[i]];
      }
    }
    assert rows[..|rows|] == rows;
  }

  method OneOffer(ghost rows: seq<Booking>, future: seq<Booking>, held: seq<WeeklySlot>, ghost turf: nat, day: int,
                  ghost today: int, cursor: int, slotEnd: int)
    returns (offer: Offer)
    requires forall b :: b in future <==> b in rows && OnCandidateDate(b, turf, day, today)
    ensures offer == if HeldByBooking(rows, turf, day, cursor, slotEnd, today) then Offer(cursor, slotEnd, false, BookingConflict)
                     else if HeldBySubscription(held, day, cursor, slotEnd) then Offer(cursor, slotEnd, false, SubscriptionConflict)
                     else Offer(cursor, slotEnd, true, NoReason)
  {
    var available, reason := true, NoReason;
    for i := 0 to |future|
      invariant available && reason == NoReason
      invariant forall k :: 0 <= k < i ==> !Overlaps(future[k].start, future[k].end, cursor, slotEnd)
    {
      if future[i].start < slotEnd && future[i].end > cursor {
        assert future[i] in rows;
        return Offer(cursor, slotEnd, false, BookingConflict);
      }
    }
    forall i | 0 <= i < |rows| && OnCandidateDate(rows[i], turf, day, today)
      ensures !Overlaps(rows[i].start, rows[i].end, cursor, slotEnd)
    {
      assert rows[i] in future;
    }
    for i := 0 to |held|
      invariant available && reason == NoReason
      invariant forall k :: 0 <= k < i ==> !SlotMeets(held[k], day, cursor, slotEnd)
    {
      if held[i].day == day && held[i].start < slotEnd && held[i].end > cursor {
        available, reason := false, SubscriptionConflict;
        break;
      }
    }
    offer := Offer(cursor, slotEnd, available, reason);
  }
}
