/** The rows the services read and write, the queries they share, and the in-place database object. */
module Store {
  import opened Common
  import opened Times
  import opened BookingStates
  import Cancellation
  import Coupons
  import Pricing
  import TurfAvailability

  datatype Booking = Booking(
    turf: nat,
    user: nat,
    subscription: Option<nat>,
    date: int,
    start: int,
    end: int,
    durationMins: int,
    status: Status,
    bookingType: string,
    basePrice: int,
    discount: int,
    tax: int,
    finalPrice: int,
    refundAmount: Option<int>,
    version: int)

  datatype Gateway = Razorpay | UpiManual | Manual

  datatype TxnStatus = Initiated | Processing | Success | Failed | RefundedTxn

  datatype Txn = Txn(
    booking: Option<nat>,
    user: nat,
    gateway: Gateway,
    orderId: Option<string>,
    gatewayTxnId: Option<string>,
    amount: int,
    status: TxnStatus,
    refundAmount: Option<int>)

  datatype SubStatus = SubPending | SubActive | SubCancelled | SubExpired

  datatype WeeklySlot = WeeklySlot(day: int, start: int, end: int)

  datatype Subscription = Subscription(
    user: nat,
    plan: nat,
    turf: nat,
    status: SubStatus,
    startsOn: Option<int>,
    expiresOn: Option<int>,
    payment: Option<nat>,
    slots: seq<WeeklySlot>)

  datatype Event =
    | BookingCreated(booking: nat)
    | BookingConfirmed(booking: nat)
    | BookingCancelled(booking: nat, refund: int, pct: int)
    | BookingMoved(booking: nat, status: Status)
    | PaymentSuccess(txn: nat)
    | PaymentFailed(txn: nat)
    | PaymentRejected(txn: nat)
    | PaymentRefunded(txn: nat)
    | SubscriptionActivated(sub: nat)
    | SubscriptionCancelled(sub: nat, bookings: nat)

  /** Everything committed, the events emitted so far, and the refunds the gateway was asked to make. */
  datatype Db = Db(
    bookings: seq<Booking>,
    txns: seq<Txn>,
    subs: seq<Subscription>,
    coupons: map<string, Coupons.Coupon>,
    events: seq<Event>,
    gatewayRefunds: seq<(nat, int)>)

  datatype Plan = Plan(monthly: bool, active: bool, price: int, hoursPerMonth: Option<int>, windowStart: Option<int>,
                       windowEnd: Option<int>)

  /** Per turf: slot rules, overrides by date, pricing rules in loaded order, refund policy, opening hours by weekday. */
  datatype Turf = Turf(
    active: bool,
    slotRules: seq<TurfAvailability.SlotRule>,
    overrides: map<int, seq<TurfAvailability.SlotOverride>>,
    pricing: seq<Pricing.Rule>,
    policy: Option<seq<Cancellation.Tier>>,
    hours: map<int, (int, int)>)

  datatype Config = Config(turfs: map<nat, Turf>, plans: map<nat, Plan>)

  const NO_TURF := Turf(false, [], map[], [], None, map[])

  function TurfOf(cfg: Config, turf: nat): Turf {
    if turf in cfg.turfs then cfg.turfs[turf] else NO_TURF
  }

  datatype Error =
    | MissingPhone | OverrideNeedsReason | SlotTaken | NoSlotRule | NotFound | NotAllowed | BadTransition
    | NotPending | GatewayDown | BadSignature | PaymentNotSuccessful | WrongTxnStatus | NoRefundAmount
    | ManyRows | UpiNotConfigured | NotMonthly | WrongSlotCount | WrongSlotLength | OutsidePlanWindow
    | SlotsCollide | BookingInTheWay | SubscriptionInTheWay

  datatype Outcome = Done | Refused(error: Error)

  /** What a service call leaves behind. */
  datatype After = After(db: Db, outcome: Outcome)

  // ---- Queries ----

  /** The row is selected by the conflict query for this range. */
  predicate Clashes(b: Booking, turf: nat, date: int, start: int, end: int) {
    b.turf == turf && b.date == date && IsActive(b.status) && Overlaps(b.start, b.end, start, end)
  }

  /** find_conflict returns a row. */
  predicate HasConflict(rows: seq<Booking>, turf: nat, date: int, start: int, end: int) {
    exists i :: 0 <= i < |rows| && Clashes(rows[i], turf, date, start, end)
  }

  ghost predicate RowsClash(a: Booking, b: Booking) {
    IsActive(a.status) && Clashes(b, a.turf, a.date, a.start, a.end)
  }

  /** No two slot-holding bookings of one turf and date pass for overlapping in the conflict query. */
  ghost predicate NoOverlap(rows: seq<Booking>) {
    forall i, j :: 0 <= i < |rows| && 0 <= j < |rows| && i != j ==> !RowsClash(rows[i], rows[j])
  }

  /** The ids of the rows that satisfy a query, in table order. */
  function Select<T>(rows: seq<T>, query: T -> bool): (ids: seq<nat>)
    ensures forall i :: i in ids <==> 0 <= i < |rows| && query(rows[i])
    ensures forall k :: 0 <= k < |ids| ==> ids[k] < |rows|
    ensures forall i, j :: 0 <= i < j < |ids| ==> ids[i] < ids[j]
  {
    if rows == [] then []
    else
      var n := |rows| - 1;
      Select(rows[..n], query) + if query(rows[n]) then [n] else []
  }

  datatype Lookup = NoRow | OneRow(id: nat) | SeveralRows

  /** scalar_one_or_none: more than one row is an error. */
  function OneOrNone(ids: seq<nat>): Lookup {
    if ids == [] then NoRow else if |ids| == 1 then OneRow(ids[0]) else SeveralRows
  }

  lemma SelectedRow<T>(rows: seq<T>, query: T -> bool)
    ensures var r := OneOrNone(Select(rows, query)); r.OneRow? ==> r.id < |rows| && query(rows[r.id])
  {
    var ids := Select(rows, query);
    if |ids| == 1 {
      assert ids[0] in ids;
    }
  }

  function TxnByOrder(txns: seq<Txn>, order: string): (r: Lookup)
    ensures r.OneRow? ==> r.id < |txns| && txns[r.id].orderId == Some(order)
  {
    SelectedRow(txns, (t: Txn) => t.orderId == Some(order));
    OneOrNone(Select(txns, (t: Txn) => t.orderId == Some(order)))
  }

  function SuccessfulTxn(txns: seq<Txn>, booking: nat): (r: Lookup)
    ensures r.OneRow? ==> r.id < |txns| && txns[r.id].booking == Some(booking) && txns[r.id].status.Success?
  {
    SelectedRow(txns, (t: Txn) => t.booking == Some(booking) && t.status.Success?);
    OneOrNone(Select(txns, (t: Txn) => t.booking == Some(booking) && t.status.Success?))
  }

  /** The payment is waiting for its money or for its verification. */
  predicate OpenFor(t: Txn, booking: nat) {
    t.booking == Some(booking) && (t.status.Initiated? || t.status.Processing?)
  }

  function OpenIds(txns: seq<Txn>, booking: nat): seq<nat> {
    Select(txns, (t: Txn) => OpenFor(t, booking))
  }

  function OpenTxn(txns: seq<Txn>, booking: nat): (r: Lookup)
    ensures r.OneRow? ==> r.id < |txns| && OpenFor(txns[r.id], booking)
  {
    SelectedRow(txns, (t: Txn) => OpenFor(t, booking));
    OneOrNone(OpenIds(txns, booking))
  }

  function SubByPayment(subs: seq<Subscription>, payment: nat): (r: Lookup)
    ensures r.OneRow? ==> r.id < |subs| && subs[r.id].payment == Some(payment)
  {
    SelectedRow(subs, (s: Subscription) => s.payment == Some(payment));
    OneOrNone(Select(subs, (s: Subscription) => s.payment == Some(payment)))
  }

  /** Exactly row i satisfies the query. */
  ghost predicate OnlyRow<T>(rows: seq<T>, query: T -> bool, i: nat) {
    i < |rows| && query(rows[i]) && forall j :: 0 <= j < |rows| && query(rows[j]) ==> j == i
  }

  lemma OneRowMeaning<T>(rows: seq<T>, query: T -> bool, i: nat)
    ensures OneOrNone(Select(rows, query)) == OneRow(i) <==> OnlyRow(rows, query, i)
  {
    var ids := Select(rows, query);
    if |ids| >= 2 {
      assert ids[0] in ids && ids[1] in ids;
    } else if |ids| == 1 {
      assert ids[0] in ids;
    }
  }

  /** What a lookup by a unique key tells. */
  lemma OneOrNoneMeaning<T>(rows: seq<T>, query: T -> bool)
    ensures OneOrNone(Select(rows, query)).NoRow? <==> forall i :: 0 <= i < |rows| ==> !query(rows[i])
    ensures forall i: nat :: OneOrNone(Select(rows, query)) == OneRow(i) <==> OnlyRow(rows, query, i)
  {
    var ids := Select(rows, query);
    forall i: nat ensures OneOrNone(ids) == OneRow(i) <==> OnlyRow(rows, query, i) {
      OneRowMeaning(rows, query, i);
    }
    if ids != [] {
      assert ids[0] in ids;
    }
  }

  /** The turf is booked by this row in this minute of the day. A row that ends before it starts runs past midnight. */
  predicate Holds(b: Booking, day: int, minute: int) {
    if b.start < b.end then b.date == day && b.start <= minute < b.end
    else (b.date == day && b.start <= minute < DAY_MINUTES) || (b.date + 1 == day && 0 <= minute < b.end)
  }

  ghost predicate Share(a: Booking, b: Booking) {
    a.turf == b.turf && IsActive(a.status) && IsActive(b.status)
    && exists day, minute :: Holds(a, day, minute) && Holds(b, day, minute)
  }

  /** No minute of a turf is booked twice. */
  ghost predicate HeldOnce(rows: seq<Booking>) {
    forall i, j :: 0 <= i < |rows| && 0 <= j < |rows| && i != j ==> !Share(rows[i], rows[j])
  }

  ghost predicate UprightRows(rows: seq<Booking>) {
    forall i :: 0 <= i < |rows| ==> rows[i].start < rows[i].end
  }

  lemma UprightShareIff(a: Booking, b: Booking)
    requires a.start < a.end && b.start < b.end
    ensures Share(a, b) <==> RowsClash(a, b)
  {
    if RowsClash(a, b) {
      var minute := Max(a.start, b.start);
      assert Holds(a, a.date, minute) && Holds(b, a.date, minute);
    }
  }

  /** For rows that end after they start, what the conflict query detects is exactly that a minute is booked twice. */
  lemma UprightHeldOnceIff(rows: seq<Booking>)
    requires UprightRows(rows)
    ensures HeldOnce(rows) <==> NoOverlap(rows)
  {
    forall i, j | 0 <= i < |rows| && 0 <= j < |rows| ensures Share(rows[i], rows[j]) <==> RowsClash(rows[i], rows[j]) {
      UprightShareIff(rows[i], rows[j]);
    }
  }

  /** A pending or confirmed booking that lasts over this minute of the date. */
  predicate TakenBy(b: Booking, turf: nat, date: int, minute: int) {
    b.turf == turf && b.date == date && (b.status == Pending || b.status == Confirmed) && b.start <= minute && minute < b.end
  }

  /** A range is refused if and only if a pending or confirmed booking takes one of its minutes. */
  lemma RefusedIffMinuteTaken(rows: seq<Booking>, turf: nat, date: int, start: int, end: int)
    requires UprightRows(rows) && start < end
    ensures HasConflict(rows, turf, date, start, end) <==>
              exists i, minute :: 0 <= i < |rows| && start <= minute < end && TakenBy(rows[i], turf, date, minute)
  {
    if i :| 0 <= i < |rows| && Clashes(rows[i], turf, date, start, end) {
      assert TakenBy(rows[i], turf, date, Max(rows[i].start, start));
    }
    if i, minute :| 0 <= i < |rows| && start <= minute < end && TakenBy(rows[i], turf, date, minute) {
      assert Clashes(rows[i], turf, date, start, end);
    }
  }

  lemma OverlapsSymmetric(a: Booking, b: Booking)
    ensures RowsClash(a, b) <==> RowsClash(b, a)
  {
  }

  /** Appending a row for a free range, or a row that holds no slot, keeps the table free of overlaps. */
  lemma AppendKeepsNoOverlap(rows: seq<Booking>, b: Booking)
    requires NoOverlap(rows)
    requires IsActive(b.status) ==> !HasConflict(rows, b.turf, b.date, b.start, b.end)
    ensures NoOverlap(rows + [b])
  {
    var all := rows + [b];
    forall i, j | 0 <= i < |all| && 0 <= j < |all| && i != j ensures !RowsClash(all[i], all[j]) {
      if i < |rows| && j < |rows| {
        assert !RowsClash(rows[i], rows[j]);
      } else if i < |rows| {
        OverlapsSymmetric(rows[i], b);
        assert IsActive(b.status) ==> !Clashes(rows[i], b.turf, b.date, b.start, b.end);
      } else {
        assert IsActive(b.status) ==> !Clashes(rows[j], b.turf, b.date, b.start, b.end);
      }
    }
  }

  /** A row update that does not make an inactive row active keeps the table free of overlaps. */
  lemma UpdateKeepsNoOverlap(rows: seq<Booking>, k: nat, b: Booking)
    requires NoOverlap(rows) && k < |rows|
    requires b.turf == rows[k].turf && b.date == rows[k].date && b.start == rows[k].start && b.end == rows[k].end
    requires IsActive(b.status) ==> IsActive(rows[k].status)
    ensures NoOverlap(rows[k := b])
  {
    var all := rows[k := b];
    forall i, j | 0 <= i < |all| && 0 <= j < |all| && i != j ensures !RowsClash(all[i], all[j]) {
      assert !RowsClash(rows[i], rows[j]);
    }
  }

  /** The shared tables, updated in place by the services. */
  class Database {
    var bookings: seq<Booking>
    var txns: seq<Txn>
    var subs: seq<Subscription>
    var coupons: map<string, Coupons.Coupon>
    var events: seq<Event>
    var gatewayRefunds: seq<(nat, int)>

    constructor (rows: Db)
      ensures Rows() == rows
    {
      bookings, txns, subs := rows.bookings, rows.txns, rows.subs;
      coupons, events, gatewayRefunds := rows.coupons, rows.events, rows.gatewayRefunds;
    }

    function Rows(): Db
      reads this
    {
      Db(bookings, txns, subs, coupons, events, gatewayRefunds)
    }
  }
}
