/** Whole runs of all services, each call atomic: what every reachable database satisfies, and where runs can go wrong. */
module Runs {
  import opened Common
  import opened Times
  import opened BookingStates
  import opened Store
  import Cancellation
  import Pricing
  import BookingService
  import PaymentService
  import Subscriptions
  import SubscriptionService
  import SubscriptionFacts

  /** A service call with its inputs, including what the clock and the gateway say. */
  datatype Op =
    | Create(request: BookingService.Request, today: int)
    | CreateManual(request: BookingService.Request, details: BookingService.ManualDetails, today: int)
    | CancelBooking(actor: nat, isAdmin: bool, booking: nat, secondsUntil: int)
    | Move(booking: nat, target: Status)
    | InitiateRazorpay(user: nat, booking: nat, order: Option<string>)
    | Callback(orderId: string, paymentId: string, signed: bool, fetched: PaymentService.Fetched)
    | Captured(order: Option<string>, paymentId: string)
    | CaptureFailed(order: Option<string>)
    | Refund(booking: nat, reply: PaymentService.RefundReply)
    | InitiateUpi(user: nat, booking: nat, configured: bool)
    | SubmitUtr(user: nat, txn: nat)
    | VerifyUpi(txn: nat)
    | RejectUpi(txn: nat)
    | StartSubscription(subRequest: SubscriptionService.Request, today: int)
    | ActivateSubscription(payment: nat, today: int)
    | CancelSubscription(sub: nat, actor: nat, isAdmin: bool, cancelPast: bool, today: int)

  /** The bounds the request schemas enforce. */
  predicate ValidOp(op: Op) {
    match op
    case Create(r, _) => r.Valid()
    case CreateManual(r, d, _) => r.Valid() && (d.priceOverride.Some? ==> d.priceOverride.value >= 0)
    case StartSubscription(r, _) => r.Valid()
    case _ => true
  }

  function Apply(cfg: Config, db: Db, op: Op): After
    requires ValidOp(op)
  {
    match op
    case Create(r, today) => BookingService.Create(cfg, db, r, today)
    case CreateManual(r, d, today) => BookingService.CreateManual(cfg, db, r, d, today)
    case CancelBooking(actor, isAdmin, b, secs) => BookingService.Cancel(cfg, db, actor, isAdmin, b, secs)
    case Move(b, target) => BookingService.Move(db, b, target)
    case InitiateRazorpay(user, b, order) => PaymentService.InitiateRazorpay(db, user, b, order)
    case Callback(order, pay, signed, fetched) => PaymentService.Callback(db, order, pay, signed, fetched)
    case Captured(order, pay) => PaymentService.Captured(db, order, pay)
    case CaptureFailed(order) => PaymentService.CaptureFailed(db, order)
    case Refund(b, reply) => PaymentService.Refund(db, b, reply)
    case InitiateUpi(user, b, configured) => PaymentService.InitiateUpi(db, user, b, configured)
    case SubmitUtr(user, t) => PaymentService.SubmitUtr(db, user, t)
    case VerifyUpi(t) => PaymentService.VerifyUpi(db, t)
    case RejectUpi(t) => PaymentService.RejectUpi(db, t)
    case StartSubscription(r, today) => SubscriptionService.Initiate(cfg, db, r, today)
    case ActivateSubscription(p, today) => SubscriptionService.Activate(db, p, today)
    case CancelSubscription(s, actor, isAdmin, past, today) => SubscriptionService.Cancel(db, s, actor, isAdmin, past, today)
  }

  function Run(cfg: Config, db: Db, ops: seq<Op>): Db
    requires forall op :: op in ops ==> ValidOp(op)
  {
    if ops == [] then db
    else Apply(cfg, Run(cfg, db, ops[..|ops| - 1]), ops[|ops| - 1]).db
  }

  /** The databases a run passes through. */
  ghost predicate Trace(cfg: Config, dbs: seq<Db>, ops: seq<Op>)
    requires forall op :: op in ops ==> ValidOp(op)
  {
    |dbs| == |ops| + 1 && forall i :: 0 <= i < |ops| ==> dbs[i + 1] == Apply(cfg, dbs[i], ops[i]).db
  }

  lemma {:induction false} TraceIsRun(cfg: Config, dbs: seq<Db>, ops: seq<Op>)
    requires (forall op :: op in ops ==> ValidOp(op)) && Trace(cfg, dbs, ops)
    ensures Run(cfg, dbs[0], ops) == dbs[|ops|]
  {
    if ops != [] {
      var n := |ops| - 1;
      TraceIsRun(cfg, dbs[..n + 1], ops[..n]);
    }
  }

  lemma {:induction false} RunSplit(cfg: Config, db: Db, a: seq<Op>, b: seq<Op>)
    requires (forall op :: op in a ==> ValidOp(op)) && (forall op :: op in b ==> ValidOp(op))
    ensures Run(cfg, db, a + b) == Run(cfg, Run(cfg, db, a), b)
  {
    if b == [] {
      assert a + b == a;
    } else {
      RunSplit(cfg, db, a, b[..|b| - 1]);
      assert (a + b)[..|a + b| - 1] == a + b[..|b| - 1];
    }
  }

  /** Every refund policy keeps its percentages between 0 and 100. */
  predicate FairPolicies(cfg: Config) {
    forall t :: t in cfg.turfs && cfg.turfs[t].policy.Some? ==> Cancellation.PercentagesInRange(cfg.turfs[t].policy.value)
  }

  // ---- The invariant ----

  predicate BookingOk(b: Booking) {
    && b.version >= 1
    && b.version + Rank(b.status) <= 5
    && b.finalPrice >= 0
    && (b.refundAmount.Some? ==> !IsActive(b.status))
  }

  /** A transaction charges its booking's final price; a recorded refund is the one computed for its booking, which is
      refunded. */
  predicate TxnOk(t: Txn, rows: seq<Booking>) {
    if t.booking.None? then t.refundAmount.None?
    else
      && t.booking.value < |rows|
      && t.amount == rows[t.booking.value].finalPrice
      && (t.refundAmount.Some? ==> rows[t.booking.value].refundAmount == t.refundAmount && rows[t.booking.value].status.Refunded?)
  }

  ghost predicate OneRefundPerBooking(txns: seq<Txn>) {
    forall i, j :: 0 <= i < j < |txns| && txns[i].refundAmount.Some? && txns[j].refundAmount.Some? ==>
      txns[i].booking != txns[j].booking
  }

  ghost predicate Sound(db: Db) {
    && NoOverlap(db.bookings)
    && (forall i :: 0 <= i < |db.bookings| ==> BookingOk(db.bookings[i]))
    && (forall i :: 0 <= i < |db.txns| ==> TxnOk(db.txns[i], db.bookings))
    && OneRefundPerBooking(db.txns)
  }

  // ---- How rows may change ----

  /** The later row is the earlier one moved along the status machine, one version per transition; what was booked and charged
      is fixed. */
  ghost predicate BookingEvolves(a: Booking, b: Booking) {
    && b == a.(status := b.status, version := b.version, refundAmount := b.refundAmount)
    && a.version <= b.version
    && Steps(a.status, b.status, b.version - a.version)
    && (a.refundAmount.Some? ==> b.refundAmount == a.refundAmount)
  }

  ghost predicate RowsEvolve(a: seq<Booking>, b: seq<Booking>) {
    |a| <= |b| && forall i :: 0 <= i < |a| ==> BookingEvolves(a[i], b[i])
  }

  lemma EvolvesReflexive(a: Booking)
    ensures BookingEvolves(a, a)
  {
  }

  lemma RowsEvolveTransitive(a: seq<Booking>, b: seq<Booking>, c: seq<Booking>)
    requires RowsEvolve(a, b) && RowsEvolve(b, c)
    ensures RowsEvolve(a, c)
  {
    forall i | 0 <= i < |a| ensures BookingEvolves(a[i], c[i]) {
      assert BookingEvolves(a[i], b[i]) && BookingEvolves(b[i], c[i]);
      ChainsCompose(a[i].status, b[i].status, c[i].status, b[i].version - a[i].version, c[i].version - b[i].version);
    }
  }

  lemma EvolutionKeepsNoOverlap(a: seq<Booking>, b: seq<Booking>)
    requires NoOverlap(a) && RowsEvolve(a, b) && |a| == |b|
    ensures NoOverlap(b)
  {
    forall i, j | 0 <= i < |b| && 0 <= j < |b| && i != j ensures !RowsClash(b[i], b[j]) {
      assert BookingEvolves(a[i], b[i]) && BookingEvolves(a[j], b[j]);
      ChainsDescend(a[i].status, b[i].status, b[i].version - a[i].version);
      ChainsDescend(a[j].status, b[j].status, b[j].version - a[j].version);
      assert !RowsClash(a[i], a[j]);
    }
  }

  /** Transactions stay sound while rows evolve: a refunded booking is at the end of its chain. */
  lemma EvolutionKeepsTxnOk(t: Txn, a: seq<Booking>, b: seq<Booking>)
    requires TxnOk(t, a) && RowsEvolve(a, b)
    ensures TxnOk(t, b)
  {
    if t.booking.Some? {
      var i := t.booking.value;
      assert BookingEvolves(a[i], b[i]);
      ChainsDescend(a[i].status, b[i].status, b[i].version - a[i].version);
    }
  }

  lemma EvolutionKeepsBookingOk(a: Booking, b: Booking)
    requires BookingOk(a) && BookingEvolves(a, b)
    requires a.refundAmount.None? && b.refundAmount.Some? ==> !IsActive(b.status)
    ensures BookingOk(b)
  {
    ChainsDescend(a.status, b.status, b.version - a.version);
  }

  /** The shape of every call but a committed refund: rows evolve or are appended, transactions keep booking, amount and
      refund. */
  ghost predicate TxnsKept(a: seq<Txn>, b: seq<Txn>) {
    && |a| <= |b|
    && (forall i :: 0 <= i < |a| ==>
          b[i].booking == a[i].booking && b[i].amount == a[i].amount && b[i].refundAmount == a[i].refundAmount)
    && (forall i :: |a| <= i < |b| ==> b[i].refundAmount.None?)
  }

  lemma SoundAfter(a: Db, b: Db)
    requires Sound(a) && RowsEvolve(a.bookings, b.bookings) && NoOverlap(b.bookings) && TxnsKept(a.txns, b.txns)
    requires forall i :: 0 <= i < |b.bookings| ==> BookingOk(b.bookings[i])
    requires forall i :: |a.txns| <= i < |b.txns| ==> TxnOk(b.txns[i], b.bookings)
    ensures Sound(b)
  {
    forall i | 0 <= i < |b.txns| ensures TxnOk(b.txns[i], b.bookings) {
      if i < |a.txns| {
        EvolutionKeepsTxnOk(a.txns[i], a.bookings, b.bookings);
      }
    }
    assert OneRefundPerBooking(b.txns) by {
      forall i, j | 0 <= i < j < |b.txns| && b.txns[i].refundAmount.Some? && b.txns[j].refundAmount.Some?
        ensures b.txns[i].booking != b.txns[j].booking
      {
        assert j < |a.txns|;
        assert a.txns[i].refundAmount.Some? && a.txns[j].refundAmount.Some?;
      }
    }
  }

  lemma OneRowMoves(rows: seq<Booking>, k: nat, b: Booking)
    requires k < |rows| && BookingEvolves(rows[k], b)
    ensures RowsEvolve(rows, rows[k := b])
  {
    forall i | 0 <= i < |rows| ensures BookingEvolves(rows[i], rows[k := b][i]) {
      EvolvesReflexive(rows[i]);
    }
  }

  lemma RowsExtend(a: seq<Booking>, b: seq<Booking>)
    requires a <= b
    ensures RowsEvolve(a, b)
  {
    forall i | 0 <= i < |a| ensures BookingEvolves(a[i], b[i]) {
      EvolvesReflexive(a[i]);
    }
  }

  lemma SoundAfterMove(a: Db, b: Db, k: nat, row: Booking)
    requires Sound(a) && k < |a.bookings| && b.bookings == a.bookings[k := row] && TxnsKept(a.txns, b.txns) && |a.txns| == |b.txns|
    requires BookingEvolves(a.bookings[k], row)
    requires a.bookings[k].refundAmount.None? && row.refundAmount.Some? ==> !IsActive(row.status)
    ensures Sound(b) && RowsEvolve(a.bookings, b.bookings)
  {
    OneRowMoves(a.bookings, k, row);
    EvolutionKeepsBookingOk(a.bookings[k], row);
    EvolutionKeepsNoOverlap(a.bookings, b.bookings);
    SoundAfter(a, b);
  }

  lemma SoundAfterAppend(a: Db, b: Db, row: Booking)
    requires Sound(a) && b.bookings == a.bookings + [row] && TxnsKept(a.txns, b.txns)
    requires BookingOk(row) && !HasConflict(a.bookings, row.turf, row.date, row.start, row.end)
    requires forall i :: |a.txns| <= i < |b.txns| ==> TxnOk(b.txns[i], b.bookings)
    ensures Sound(b) && RowsEvolve(a.bookings, b.bookings)
  {
    RowsExtend(a.bookings, b.bookings);
    AppendKeepsNoOverlap(a.bookings, row);
    SoundAfter(a, b);
  }

  lemma SoundAfterTxns(a: Db, b: Db)
    requires Sound(a) && b.bookings == a.bookings && TxnsKept(a.txns, b.txns)
    requires forall i :: |a.txns| <= i < |b.txns| ==> TxnOk(b.txns[i], b.bookings)
    ensures Sound(b) && RowsEvolve(a.bookings, b.bookings)
  {
    RowsExtend(a.bookings, b.bookings);
    SoundAfter(a, b);
  }

  // ---- Call by call ----

  lemma PriceIsNotNegative(cfg: Config, db: Db, r: BookingService.Request, today: int)
    ensures var p := BookingService.PriceOf(cfg, db.coupons, r, today); p.Some? ==> p.value.total >= 0
  {
    var p := BookingService.PriceOf(cfg, db.coupons, r, today);
    if p.Some? {
      var base := BookingService.BasePrice(TurfOf(cfg, r.turf).slotRules, r.date, r.start, r.end).value;
      Pricing.BreakdownBounds(TurfOf(cfg, r.turf).pricing,
                              BookingService.PriceContext(r, base, BookingService.CouponDiscount(db.coupons, r, base, today)));
    }
  }

  lemma CreateSound(cfg: Config, db: Db, r: BookingService.Request, today: int)
    requires Sound(db)
    ensures var after := BookingService.Create(cfg, db, r, today).db; Sound(after) && RowsEvolve(db.bookings, after.bookings)
  {
    var after := BookingService.Create(cfg, db, r, today);
    if after.outcome.Done? {
      PriceIsNotNegative(cfg, db, r, today);
      SoundAfterAppend(db, after.db, after.db.bookings[|db.bookings|]);
    } else {
      RowsExtend(db.bookings, db.bookings);
    }
  }

  lemma CreateManualSound(cfg: Config, db: Db, r: BookingService.Request, d: BookingService.ManualDetails, today: int)
    requires Sound(db) && (d.priceOverride.Some? ==> d.priceOverride.value >= 0)
    ensures var after := BookingService.CreateManual(cfg, db, r, d, today).db;
            Sound(after) && RowsEvolve(db.bookings, after.bookings)
  {
    var after := BookingService.CreateManual(cfg, db, r, d, today);
    if after.outcome.Done? {
      PriceIsNotNegative(cfg, db, r, today);
      SoundAfterAppend(db, after.db, after.db.bookings[|db.bookings|]);
    } else {
      RowsExtend(db.bookings, db.bookings);
    }
  }

  lemma CancelSound(cfg: Config, db: Db, actor: nat, isAdmin: bool, id: nat, secondsUntil: int)
    requires Sound(db)
    ensures var after := BookingService.Cancel(cfg, db, actor, isAdmin, id, secondsUntil).db;
            Sound(after) && RowsEvolve(db.bookings, after.bookings)
  {
    var after := BookingService.Cancel(cfg, db, actor, isAdmin, id, secondsUntil);
    if after.outcome.Done? {
      var row := db.bookings[id];
      assert BookingOk(row);
      OneStep(row.status, Cancelled);
      SoundAfterMove(db, after.db, id, after.db.bookings[id]);
    } else {
      RowsExtend(db.bookings, db.bookings);
    }
  }

  lemma MoveSound(db: Db, id: nat, target: Status)
    requires Sound(db)
    ensures var after := BookingService.Move(db, id, target).db; Sound(after) && RowsEvolve(db.bookings, after.bookings)
  {
    var after := BookingService.Move(db, id, target);
    if after.outcome.Done? {
      OneStep(db.bookings[id].status, target);
      SoundAfterMove(db, after.db, id, after.db.bookings[id]);
    } else {
      RowsExtend(db.bookings, db.bookings);
    }
  }

  /** The row left by confirming a pending booking, with any transaction updates that keep charges. */
  lemma SoundAfterConfirm(db: Db, after: Db, id: Option<nat>)
    requires Sound(db) && TxnsKept(db.txns, after.txns) && |db.txns| == |after.txns|
    requires after.bookings == PaymentService.ConfirmIfPending(db.bookings, id)
    ensures Sound(after) && RowsEvolve(db.bookings, after.bookings)
  {
    if PaymentService.IsPending(db.bookings, id) {
      OneStep(Pending, Confirmed);
      assert BookingOk(db.bookings[id.value]);
      SoundAfterMove(db, after, id.value, after.bookings[id.value]);
    } else {
      SoundAfterTxns(db, after);
    }
  }

  lemma CallbackSound(db: Db, order: string, paymentId: string, signed: bool, fetched: PaymentService.Fetched)
    requires Sound(db)
    ensures var after := PaymentService.Callback(db, order, paymentId, signed, fetched).db;
            Sound(after) && RowsEvolve(db.bookings, after.bookings)
  {
    var after := PaymentService.Callback(db, order, paymentId, signed, fetched).db;
    match TxnByOrder(db.txns, order)
    case OneRow(t) =>
      if signed && !db.txns[t].status.Success? && fetched != PaymentService.Fetched.Fetched(false) {
        SoundAfterConfirm(db, after, db.txns[t].booking);
      } else {
        SoundAfterTxns(db, after);
      }
    case _ => SoundAfterTxns(db, after);
  }

  lemma CapturedSound(db: Db, order: Option<string>, paymentId: string)
    requires Sound(db)
    ensures var after := PaymentService.Captured(db, order, paymentId).db;
            Sound(after) && RowsEvolve(db.bookings, after.bookings)
  {
    var after := PaymentService.Captured(db, order, paymentId).db;
    if order.Some? && TxnByOrder(db.txns, order.value).OneRow? {
      var t := TxnByOrder(db.txns, order.value).id;
      if !db.txns[t].status.Success? {
        SoundAfterConfirm(db, after, db.txns[t].booking);
        return;
      }
    }
    SoundAfterTxns(db, after);
  }

  lemma VerifySound(db: Db, t: nat)
    requires Sound(db)
    ensures var after := PaymentService.VerifyUpi(db, t).db; Sound(after) && RowsEvolve(db.bookings, after.bookings)
  {
    var after := PaymentService.VerifyUpi(db, t).db;
    if PaymentService.VerifyUpi(db, t).outcome.Done? {
      SoundAfterConfirm(db, after, db.txns[t].booking);
    } else {
      SoundAfterTxns(db, after);
    }
  }

  lemma TxnCallSound(cfg: Config, db: Db, op: Op)
    requires Sound(db) && ValidOp(op)
    requires op.InitiateRazorpay? || op.CaptureFailed? || op.InitiateUpi? || op.SubmitUtr? || op.RejectUpi?
    ensures Sound(Apply(cfg, db, op).db) && RowsEvolve(db.bookings, Apply(cfg, db, op).db.bookings)
  {
    SoundAfterTxns(db, Apply(cfg, db, op).db);
  }

  lemma RefundSound(db: Db, id: nat, reply: PaymentService.RefundReply)
    requires Sound(db)
    ensures var after := PaymentService.Refund(db, id, reply).db; Sound(after) && RowsEvolve(db.bookings, after.bookings)
  {
    var after := PaymentService.Refund(db, id, reply).db;
    if PaymentService.Refund(db, id, reply).outcome.Done? {
      var t := SuccessfulTxn(db.txns, id).id;
      var b := db.bookings[id];
      assert BookingOk(b) && TxnOk(db.txns[t], db.bookings);
      assert b.status.Cancelled?;
      OneStep(Cancelled, RefundPending);
      OneStep(RefundPending, Refunded);
      ChainsCompose(Cancelled, RefundPending, Refunded, 1, 1);
      OneRowMoves(db.bookings, id, after.bookings[id]);
      EvolutionKeepsBookingOk(b, after.bookings[id]);
      EvolutionKeepsNoOverlap(db.bookings, after.bookings);
      forall i | 0 <= i < |after.txns| ensures TxnOk(after.txns[i], after.bookings) {
        if i != t {
          EvolutionKeepsTxnOk(db.txns[i], db.bookings, after.bookings);
        }
      }
      assert forall i :: 0 <= i < |db.txns| && db.txns[i].refundAmount.Some? ==>
               TxnOk(db.txns[i], db.bookings) && db.txns[i].booking != Some(id);
    } else {
      RowsExtend(db.bookings, after.bookings);
    }
  }

  lemma StartSubscriptionSound(cfg: Config, db: Db, r: SubscriptionService.Request, today: int)
    requires Sound(db) && r.Valid()
    ensures var after := SubscriptionService.Initiate(cfg, db, r, today).db; Sound(after) && RowsEvolve(db.bookings, after.bookings)
  {
    SoundAfterTxns(db, SubscriptionService.Initiate(cfg, db, r, today).db);
  }

  lemma ActivateSound(db: Db, payment: nat, today: int)
    requires Sound(db)
    ensures var after := SubscriptionService.Activate(db, payment, today).db;
            Sound(after) && RowsEvolve(db.bookings, after.bookings)
  {
    var after := SubscriptionService.Activate(db, payment, today).db;
    var r := SubByPayment(db.subs, payment);
    if r.OneRow? && !db.subs[r.id].status.SubActive? {
      SubscriptionFacts.ActivationFillsEveryCell(db, payment, today, r.id);
      RowsExtend(db.bookings, after.bookings);
      assert SubscriptionFacts.Extends(db.bookings, after.bookings, db.subs[r.id], r.id, 4 * |db.subs[r.id].slots|);
      RecurringRowsOk(db, after, db.subs[r.id], r.id, 4 * |db.subs[r.id].slots|);
      SoundAfter(db, after);
    } else {
      SoundAfterTxns(db, after);
    }
  }

  lemma RecurringRowsOk(db: Db, after: Db, sub: Subscription, id: nat, n: int)
    requires Sound(db) && SubscriptionFacts.Extends(db.bookings, after.bookings, sub, id, n)
    ensures forall i :: 0 <= i < |after.bookings| ==> BookingOk(after.bookings[i])
  {
  }

  lemma CancelledRowsSound(db: Db, after: Db, s: nat, today: int, past: bool)
    requires Sound(db) && after.txns == db.txns && after.bookings == SubscriptionService.CancelledRows(db.bookings, s, today, past)
    ensures Sound(after) && RowsEvolve(db.bookings, after.bookings)
  {
    forall i | 0 <= i < |db.bookings|
      ensures BookingEvolves(db.bookings[i], after.bookings[i]) && BookingOk(after.bookings[i])
    {
      EvolvesReflexive(db.bookings[i]);
      if IsActive(db.bookings[i].status) {
        OneStep(db.bookings[i].status, Cancelled);
      }
      EvolutionKeepsBookingOk(db.bookings[i], after.bookings[i]);
    }
    EvolutionKeepsNoOverlap(db.bookings, after.bookings);
    SoundAfter(db, after);
  }

  lemma CancelSubscriptionSound(db: Db, s: nat, actor: nat, isAdmin: bool, past: bool, today: int)
    requires Sound(db)
    ensures var after := SubscriptionService.Cancel(db, s, actor, isAdmin, past, today).db;
            Sound(after) && RowsEvolve(db.bookings, after.bookings)
  {
    var after := SubscriptionService.Cancel(db, s, actor, isAdmin, past, today).db;
    if after.bookings == db.bookings {
      SoundAfterTxns(db, after);
    } else {
      CancelledRowsSound(db, after, s, today, past);
    }
  }

  lemma CallSound(cfg: Config, db: Db, op: Op)
    requires Sound(db) && ValidOp(op)
    ensures Sound(Apply(cfg, db, op).db) && RowsEvolve(db.bookings, Apply(cfg, db, op).db.bookings)
  {
    match op
    case Create(r, today) => CreateSound(cfg, db, r, today);
    case CreateManual(r, d, today) => CreateManualSound(cfg, db, r, d, today);
    case CancelBooking(actor, isAdmin, b, secs) => CancelSound(cfg, db, actor, isAdmin, b, secs);
    case Move(b, target) => MoveSound(db, b, target);
    case Callback(order, pay, signed, fetched) => CallbackSound(db, order, pay, signed, fetched);
    case Captured(order, pay) => CapturedSound(db, order, pay);
    case VerifyUpi(t) => VerifySound(db, t);
    case Refund(b, reply) => RefundSound(db, b, reply);
    case StartSubscription(r, today) => StartSubscriptionSound(cfg, db, r, today);
    case ActivateSubscription(p, today) => ActivateSound(db, p, today);
    case CancelSubscription(s, actor, isAdmin, past, today) => CancelSubscriptionSound(db, s, actor, isAdmin, past, today);
    case _ => TxnCallSound(cfg, db, op);
  }

  // ---- No minute is booked twice ----

  /** Every row and every weekly slot ends after it starts. */
  ghost predicate Upright(db: Db) {
    && UprightRows(db.bookings)
    && forall s, x :: 0 <= s < |db.subs| && 0 <= x < |db.subs[s].slots| ==> db.subs[s].slots[x].start < db.subs[s].slots[x].end
  }

  /** A subscription asked for here has no slot that reaches midnight. */
  predicate EarlyOp(op: Op) {
    op.StartSubscription? ==>
      forall s :: s in op.subRequest.slots ==> s.start < DAY_MINUTES - Subscriptions.SLOT_MINUTES
  }

  lemma ActivateUpright(db: Db, payment: nat, today: int)
    requires Upright(db)
    ensures Upright(SubscriptionService.Activate(db, payment, today).db)
  {
    var r := SubByPayment(db.subs, payment);
    if r.OneRow? && !db.subs[r.id].status.SubActive? {
      var sub := db.subs[r.id].(status := SubActive);
      SubscriptionFacts.SlotsUpright(db.bookings, sub, r.id, today, |sub.slots|);
    }
  }

  lemma EarlySlotsUpright(slots: seq<SubscriptionService.SlotInput>)
    requires forall s :: s in slots ==> IsTime(s.start) && s.start < DAY_MINUTES - Subscriptions.SLOT_MINUTES
    ensures forall x :: 0 <= x < |slots| ==>
              SubscriptionService.Normalized(slots)[x].start < SubscriptionService.Normalized(slots)[x].end
  {
    forall x | 0 <= x < |slots| ensures SubscriptionService.Derived(slots[x]).start < SubscriptionService.Derived(slots[x]).end {
      assert slots[x] in slots;
    }
  }

  lemma StartUpright(cfg: Config, db: Db, r: SubscriptionService.Request, today: int)
    requires Upright(db) && r.Valid() && EarlyOp(StartSubscription(r, today))
    ensures Upright(SubscriptionService.Initiate(cfg, db, r, today).db)
  {
    var after := SubscriptionService.Initiate(cfg, db, r, today).db;
    assert after.bookings == db.bookings;
    assert after.subs == db.subs || after.subs == db.subs + [SubscriptionService.NewSubscription(r, |db.txns|, today)];
    EarlySlotsUpright(r.slots);
  }

  lemma CancelSubscriptionUpright(db: Db, s: nat, actor: nat, isAdmin: bool, past: bool, today: int)
    requires Upright(db)
    ensures Upright(SubscriptionService.Cancel(db, s, actor, isAdmin, past, today).db)
  {
  }

  lemma CreateUpright(cfg: Config, db: Db, op: Op)
    requires Upright(db) && ValidOp(op) && (op.Create? || op.CreateManual?)
    ensures Upright(Apply(cfg, db, op).db)
  {
  }

  /** Calls other than these neither add rows nor touch subscriptions. */
  lemma OtherCallsAddNothing(cfg: Config, db: Db, op: Op)
    requires ValidOp(op) && !op.Create? && !op.CreateManual? && !op.StartSubscription? && !op.ActivateSubscription?
             && !op.CancelSubscription?
    ensures |Apply(cfg, db, op).db.bookings| == |db.bookings| && Apply(cfg, db, op).db.subs == db.subs
  {
  }

  lemma CallKeepsUpright(cfg: Config, db: Db, op: Op)
    requires Sound(db) && Upright(db) && ValidOp(op) && EarlyOp(op)
    ensures Upright(Apply(cfg, db, op).db)
  {
    match op
    case Create(_, _) => CreateUpright(cfg, db, op);
    case CreateManual(_, _, _) => CreateUpright(cfg, db, op);
    case StartSubscription(r, today) => StartUpright(cfg, db, r, today);
    case ActivateSubscription(p, today) => ActivateUpright(db, p, today);
    case CancelSubscription(s, actor, isAdmin, past, today) => CancelSubscriptionUpright(db, s, actor, isAdmin, past, today);
    case _ =>
      OtherCallsAddNothing(cfg, db, op);
      CallSound(cfg, db, op);
      EvolutionKeepsUpright(db, Apply(cfg, db, op).db);
  }

  lemma EvolutionKeepsUpright(before: Db, after: Db)
    requires Upright(before) && RowsEvolve(before.bookings, after.bookings) && |after.bookings| == |before.bookings|
             && after.subs == before.subs
    ensures Upright(after)
  {
    forall i | 0 <= i < |after.bookings| ensures after.bookings[i].start < after.bookings[i].end {
      assert BookingEvolves(before.bookings[i], after.bookings[i]);
    }
  }

  /** No service call, whatever its inputs, breaks the invariant or moves a booking off the status machine; and none books a
      minute twice as long as no weekly slot reaches midnight. */
  lemma EveryCallSound(cfg: Config, db: Db, op: Op)
    requires Sound(db) && ValidOp(op)
    ensures Sound(Apply(cfg, db, op).db) && RowsEvolve(db.bookings, Apply(cfg, db, op).db.bookings)
    ensures Upright(db) && EarlyOp(op) ==> Upright(Apply(cfg, db, op).db) && HeldOnce(Apply(cfg, db, op).db.bookings)
  {
    CallSound(cfg, db, op);
    if Upright(db) && EarlyOp(op) {
      CallKeepsUpright(cfg, db, op);
      UprightHeldOnceIff(Apply(cfg, db, op).db.bookings);
    }
  }

  /** Over any run of any calls: no two active bookings pass for overlapping in the conflict query, every row moved only along the
      status machine with one version per transition, versions stay within five, and a booking is refunded at most once. When no
      subscription slot reaches midnight, no minute of a turf is ever booked twice. */
  lemma {:induction false} EveryRunSound(cfg: Config, db: Db, ops: seq<Op>)
    requires Sound(db) && forall op :: op in ops ==> ValidOp(op)
    ensures Sound(Run(cfg, db, ops))
    ensures RowsEvolve(db.bookings, Run(cfg, db, ops).bookings)
    ensures Upright(db) && (forall op :: op in ops ==> EarlyOp(op)) ==>
              Upright(Run(cfg, db, ops)) && HeldOnce(Run(cfg, db, ops).bookings)
  {
    if ops == [] {
      RowsExtend(db.bookings, db.bookings);
    } else {
      var earlier := ops[..|ops| - 1];
      EveryRunSound(cfg, db, earlier);
      var mid := Run(cfg, db, earlier);
      assert ops[|ops| - 1] in ops;
      EveryCallSound(cfg, mid, ops[|ops| - 1]);
      RowsEvolveTransitive(db.bookings, mid.bookings, Run(cfg, db, ops).bookings);
    }
    if ops == [] && Upright(db) {
      UprightHeldOnceIff(db.bookings);
    }
  }

  /** Between two moments of a run: a booking whose version rose never shows its old status again, a freed slot is never taken
      back by the same booking, and no version exceeds five. */
  lemma StatusNeverReturns(cfg: Config, db: Db, ops: seq<Op>, i: nat)
    requires Sound(db) && (forall op :: op in ops ==> ValidOp(op)) && i < |db.bookings|
    ensures i < |Run(cfg, db, ops).bookings|
    ensures var a, b := db.bookings[i], Run(cfg, db, ops).bookings[i];
            && (a.status == b.status ==> a.version == b.version)
            && (IsActive(b.status) ==> IsActive(a.status))
            && b.version <= 5
  {
    EveryRunSound(cfg, db, ops);
    EvolvedRow(db, Run(cfg, db, ops), i);
  }

  lemma EvolvedRow(before: Db, after: Db, i: nat)
    requires RowsEvolve(before.bookings, after.bookings) && Sound(after) && i < |before.bookings|
    ensures var a, b := before.bookings[i], after.bookings[i];
            && (a.status == b.status ==> a.version == b.version)
            && (IsActive(b.status) ==> IsActive(a.status))
            && b.version <= 5
  {
    var a, b := before.bookings[i], after.bookings[i];
    assert BookingEvolves(a, b) && BookingOk(b);
    ChainsDescend(a.status, b.status, b.version - a.version);
  }

  // ---- Refund amounts ----

  /** Every computed refund lies between nothing and the price. */
  ghost predicate RefundsBounded(rows: seq<Booking>) {
    forall i :: 0 <= i < |rows| && rows[i].refundAmount.Some? ==> 0 <= rows[i].refundAmount.value <= rows[i].finalPrice
  }

  lemma CancelBoundsRefunds(cfg: Config, db: Db, actor: nat, isAdmin: bool, id: nat, secondsUntil: int)
    requires Sound(db) && FairPolicies(cfg) && RefundsBounded(db.bookings)
    ensures RefundsBounded(BookingService.Cancel(cfg, db, actor, isAdmin, id, secondsUntil).db.bookings)
  {
    if id < |db.bookings| {
      var row := db.bookings[id];
      assert BookingOk(row);
      Cancellation.RefundWithinPrice(TurfOf(cfg, row.turf).policy, row.finalPrice, secondsUntil);
    }
  }

  lemma ActivateComputesNoRefund(db: Db, payment: nat, today: int)
    requires RefundsBounded(db.bookings)
    ensures RefundsBounded(SubscriptionService.Activate(db, payment, today).db.bookings)
  {
    var r := SubByPayment(db.subs, payment);
    if r.OneRow? && !db.subs[r.id].status.SubActive? {
      SubscriptionFacts.ActivationFillsEveryCell(db, payment, today, r.id);
    }
  }

  lemma CreateComputesNoRefund(cfg: Config, db: Db, op: Op)
    requires ValidOp(op) && RefundsBounded(db.bookings) && (op.Create? || op.CreateManual?)
    ensures RefundsBounded(Apply(cfg, db, op).db.bookings)
  {
  }

  lemma UpdateComputesNoRefund(before: Db, after: Db)
    requires RowsEvolve(before.bookings, after.bookings) && RefundsBounded(before.bookings) && |after.bookings| == |before.bookings|
    requires forall i :: 0 <= i < |before.bookings| ==> after.bookings[i].refundAmount == before.bookings[i].refundAmount
    ensures RefundsBounded(after.bookings)
  {
    forall i | 0 <= i < |before.bookings| ensures after.bookings[i].finalPrice == before.bookings[i].finalPrice {
      assert BookingEvolves(before.bookings[i], after.bookings[i]);
    }
  }

  predicate SameRefunds(a: seq<Booking>, b: seq<Booking>) {
    |a| == |b| && forall i :: 0 <= i < |a| ==> b[i].refundAmount == a[i].refundAmount
  }

  lemma PaymentsComputeNoRefund(cfg: Config, db: Db, op: Op)
    requires op.Callback? || op.Captured? || op.VerifyUpi? || op.CaptureFailed? || op.InitiateRazorpay? || op.InitiateUpi?
             || op.SubmitUtr? || op.RejectUpi?
    ensures SameRefunds(db.bookings, Apply(cfg, db, op).db.bookings)
  {
  }

  lemma MovesComputeNoRefund(cfg: Config, db: Db, op: Op)
    requires ValidOp(op) && (op.Move? || op.Refund? || op.StartSubscription? || op.CancelSubscription?)
    ensures SameRefunds(db.bookings, Apply(cfg, db, op).db.bookings)
  {
  }

  /** Only a cancellation computes a refund. */
  lemma OtherCallsComputeNoRefund(cfg: Config, db: Db, op: Op)
    requires Sound(db) && ValidOp(op) && RefundsBounded(db.bookings) && !op.CancelBooking? && !op.ActivateSubscription?
    ensures RefundsBounded(Apply(cfg, db, op).db.bookings)
  {
    if op.Create? || op.CreateManual? {
      CreateComputesNoRefund(cfg, db, op);
    } else {
      EveryCallSound(cfg, db, op);
      if op.Move? || op.Refund? || op.StartSubscription? || op.CancelSubscription? {
        MovesComputeNoRefund(cfg, db, op);
      } else {
        PaymentsComputeNoRefund(cfg, db, op);
      }
      UpdateComputesNoRefund(db, Apply(cfg, db, op).db);
    }
  }

  /** Over any run under policies with percentages from 0 to 100, no refund is negative or exceeds the price of its booking. */
  lemma {:induction false} EveryRunBoundsRefunds(cfg: Config, db: Db, ops: seq<Op>)
    requires Sound(db) && FairPolicies(cfg) && RefundsBounded(db.bookings) && forall op :: op in ops ==> ValidOp(op)
    ensures RefundsBounded(Run(cfg, db, ops).bookings)
  {
    if ops != [] {
      var earlier := ops[..|ops| - 1];
      var mid := Run(cfg, db, earlier);
      EveryRunBoundsRefunds(cfg, db, earlier);
      EveryRunSound(cfg, db, earlier);
      assert ops[|ops| - 1] in ops;
      match ops[|ops| - 1]
      case CancelBooking(actor, isAdmin, b, secs) => CancelBoundsRefunds(cfg, mid, actor, isAdmin, b, secs);
      case ActivateSubscription(p, today) => ActivateComputesNoRefund(mid, p, today);
      case _ => OtherCallsComputeNoRefund(cfg, mid, ops[|ops| - 1]);
    }
  }
}
