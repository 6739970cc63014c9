/** Refunds: when the gateway is asked, when the books record it, and a run in which the two differ. */
module RefundRuns {
  import opened Common
  import opened BookingStates
  import opened Store
  import opened Runs
  import BookingService
  import PaymentService
  import Cancellation

  predicate GatewayAsked(db: Db, id: nat, reply: PaymentService.RefundReply) {
    |PaymentService.Refund(db, id, reply).db.gatewayRefunds| > |db.gatewayRefunds|
  }

  /** The gateway is asked for a computed refund of the one successful payment it knows; the refund is recorded if and only if the
      booking is cancelled at that moment, and in every other case the tables are left as they were. */
  lemma RefundRecordedIffCancelled(db: Db, id: nat, reply: PaymentService.RefundReply)
    ensures var after := PaymentService.Refund(db, id, reply);
            var paid := SuccessfulTxn(db.txns, id);
            && (GatewayAsked(db, id, reply) <==>
                  && reply.RefundAccepted?
                  && paid.OneRow? && db.txns[paid.id].gatewayTxnId.Some?
                  && id < |db.bookings| && db.bookings[id].refundAmount.Some? && db.bookings[id].refundAmount.value != 0)
            && (GatewayAsked(db, id, reply) ==>
                  after.db.gatewayRefunds == db.gatewayRefunds + [(id, db.bookings[id].refundAmount.value)])
            && (GatewayAsked(db, id, reply) ==> (after.outcome.Done? <==> db.bookings[id].status.Cancelled?))
            && (after.outcome.Done? ==>
                  GatewayAsked(db, id, reply) && after.db.txns[paid.id].refundAmount == db.bookings[id].refundAmount)
            && (!after.outcome.Done? ==> after.db.bookings == db.bookings && after.db.txns == db.txns)
  {
  }

  lemma RecordedInSoundDb(db: Db, t: nat)
    requires Sound(db) && RefundsBounded(db.bookings) && t < |db.txns| && db.txns[t].refundAmount.Some?
    ensures 0 <= db.txns[t].refundAmount.value <= db.txns[t].amount
    ensures forall u :: 0 <= u < |db.txns| && u != t && db.txns[u].refundAmount.Some? ==> db.txns[u].booking != db.txns[t].booking
  {
    assert TxnOk(db.txns[t], db.bookings);
  }

  /** Over any run the amount recorded on a transaction never exceeds what that transaction charged, and no other transaction of
      the booking records a refund. */
  lemma RecordedRefundIsCovered(cfg: Config, db: Db, ops: seq<Op>, t: nat)
    requires Sound(db) && FairPolicies(cfg) && RefundsBounded(db.bookings)
    requires (forall op :: op in ops ==> ValidOp(op)) && t < |Run(cfg, db, ops).txns|
             && Run(cfg, db, ops).txns[t].refundAmount.Some?
    ensures var txns := Run(cfg, db, ops).txns;
            && 0 <= txns[t].refundAmount.value <= txns[t].amount
            && forall u :: 0 <= u < |txns| && u != t && txns[u].refundAmount.Some? ==> txns[u].booking != txns[t].booking
  {
    EveryRunSound(cfg, db, ops);
    EveryRunBoundsRefunds(cfg, db, ops);
    RecordedInSoundDb(Run(cfg, db, ops), t);
  }

  // ---- Requests and records over whole runs ----

  /** How often the gateway was asked to refund this booking. */
  function Requests(asked: seq<(nat, int)>, id: nat): nat {
    if asked == [] then 0 else Requests(asked[..|asked| - 1], id) + if asked[|asked| - 1].0 == id then 1 else 0
  }

  predicate Records(t: Txn, id: nat) {
    t.booking == Some(id) && t.refundAmount.Some?
  }

  /** How many transactions of this booking record a refund. */
  function Recorded(txns: seq<Txn>, id: nat): nat {
    if txns == [] then 0 else Recorded(txns[..|txns| - 1], id) + if Records(txns[|txns| - 1], id) then 1 else 0
  }

  /** The call asks the gateway to refund this booking. */
  predicate Asks(db: Db, op: Op, id: nat) {
    op.Refund? && op.booking == id && GatewayAsked(db, id, op.reply)
  }

  /** The gateway is asked although the booking is not cancelled at that moment. */
  predicate AsksInVain(db: Db, op: Op, id: nat) {
    Asks(db, op, id) && id < |db.bookings| && !db.bookings[id].status.Cancelled?
  }

  function VainRequests(cfg: Config, db: Db, ops: seq<Op>, id: nat): nat
    requires forall op :: op in ops ==> ValidOp(op)
  {
    if ops == [] then 0
    else
      var n := |ops| - 1;
      VainRequests(cfg, db, ops[..n], id) + if AsksInVain(Run(cfg, db, ops[..n]), ops[n], id) then 1 else 0
  }

  lemma {:induction false} RecordedKept(a: seq<Txn>, b: seq<Txn>, id: nat)
    requires TxnsKept(a, b)
    ensures Recorded(b, id) == Recorded(a, id)
  {
    if b != [] {
      var n := |b| - 1;
      if n < |a| {
        RecordedKept(a[..n], b[..n], id);
      } else {
        RecordedKept(a, b[..n], id);
      }
    }
  }

  lemma {:induction false} RecordedAfterUpdate(txns: seq<Txn>, t: nat, txn: Txn, id: nat)
    requires t < |txns|
    ensures Recorded(txns[t := txn], id) ==
            Recorded(txns, id) - (if Records(txns[t], id) then 1 else 0) + (if Records(txn, id) then 1 else 0)
  {
    var n := |txns| - 1;
    if t < n {
      RecordedAfterUpdate(txns[..n], t, txn, id);
      assert txns[t := txn][..n] == txns[..n][t := txn];
    } else {
      assert txns[t := txn][..n] == txns[..n];
    }
  }

  lemma RequestsAppend(asked: seq<(nat, int)>, r: (nat, int), id: nat)
    ensures Requests(asked + [r], id) == Requests(asked, id) + if r.0 == id then 1 else 0
  {
    assert (asked + [r])[..|asked|] == asked;
  }

  /** A refund call: every request beyond the recorded refunds found the booking not cancelled. */
  lemma RefundCounts(db: Db, booking: nat, reply: PaymentService.RefundReply, id: nat)
    requires Sound(db)
    ensures var after := PaymentService.Refund(db, booking, reply).db;
            Requests(after.gatewayRefunds, id) - Recorded(after.txns, id) ==
            Requests(db.gatewayRefunds, id) - Recorded(db.txns, id) + if AsksInVain(db, Refund(booking, reply), id) then 1 else 0
  {
    var after := PaymentService.Refund(db, booking, reply).db;
    if GatewayAsked(db, booking, reply) {
      var b := db.bookings[booking];
      var t := SuccessfulTxn(db.txns, booking).id;
      RequestsAppend(db.gatewayRefunds, (booking, b.refundAmount.value), id);
      if b.status.Cancelled? {
        assert TxnOk(db.txns[t], db.bookings);
        RecordedAfterUpdate(db.txns, t, after.txns[t], id);
      }
    }
  }

  /** The call keeps the refunds on every transaction and asks for none. */
  ghost predicate KeepsRefunds(db: Db, after: Db) {
    TxnsKept(db.txns, after.txns) && after.gatewayRefunds == db.gatewayRefunds
  }

  lemma CallbackKeepsRefunds(db: Db, order: string, paymentId: string, signed: bool, fetched: PaymentService.Fetched)
    ensures KeepsRefunds(db, PaymentService.Callback(db, order, paymentId, signed, fetched).db)
  {
  }

  lemma CapturedKeepsRefunds(db: Db, order: Option<string>, paymentId: string)
    ensures KeepsRefunds(db, PaymentService.Captured(db, order, paymentId).db)
  {
  }

  lemma FailedKeepsRefunds(db: Db, order: Option<string>)
    ensures KeepsRefunds(db, PaymentService.CaptureFailed(db, order).db)
  {
  }

  lemma PaymentsKeepTxns(cfg: Config, db: Db, op: Op)
    requires op.VerifyUpi? || op.InitiateRazorpay? || op.InitiateUpi? || op.SubmitUtr? || op.RejectUpi?
    ensures KeepsRefunds(db, Apply(cfg, db, op).db)
  {
  }

  lemma BookingCallsKeepTxns(cfg: Config, db: Db, op: Op)
    requires ValidOp(op) && (op.Create? || op.CreateManual? || op.CancelBooking? || op.Move?)
    ensures KeepsRefunds(db, Apply(cfg, db, op).db)
  {
  }

  lemma SubscriptionCallsKeepTxns(cfg: Config, db: Db, op: Op)
    requires ValidOp(op) && (op.StartSubscription? || op.ActivateSubscription? || op.CancelSubscription?)
    ensures KeepsRefunds(db, Apply(cfg, db, op).db)
  {
  }

  lemma OtherCallsKeepRefunds(cfg: Config, db: Db, op: Op)
    requires ValidOp(op) && !op.Refund?
    ensures KeepsRefunds(db, Apply(cfg, db, op).db)
  {
    match op
    case Callback(order, pay, signed, fetched) => CallbackKeepsRefunds(db, order, pay, signed, fetched);
    case Captured(order, pay) => CapturedKeepsRefunds(db, order, pay);
    case CaptureFailed(order) => FailedKeepsRefunds(db, order);
    case _ =>
      if op.Create? || op.CreateManual? || op.CancelBooking? || op.Move? {
        BookingCallsKeepTxns(cfg, db, op);
      } else if op.StartSubscription? || op.ActivateSubscription? || op.CancelSubscription? {
        SubscriptionCallsKeepTxns(cfg, db, op);
      } else {
        PaymentsKeepTxns(cfg, db, op);
      }
  }

  lemma CallCounts(cfg: Config, db: Db, op: Op, id: nat)
    requires Sound(db) && ValidOp(op)
    ensures var after := Apply(cfg, db, op).db;
            Requests(after.gatewayRefunds, id) - Recorded(after.txns, id) ==
            Requests(db.gatewayRefunds, id) - Recorded(db.txns, id) + if AsksInVain(db, op, id) then 1 else 0
  {
    match op
    case Refund(booking, reply) =>
      RefundCounts(db, booking, reply, id);
    case _ =>
      OtherCallsKeepRefunds(cfg, db, op);
      RecordedKept(db.txns, Apply(cfg, db, op).db.txns, id);
  }

  /** Over every run the gateway's requests for a booking exceed the refunds recorded for it by exactly the requests that
      found the booking not cancelled. */
  lemma {:induction false} RequestsBeyondRecords(cfg: Config, db: Db, ops: seq<Op>, id: nat)
    requires Sound(db) && forall op :: op in ops ==> ValidOp(op)
    ensures var after := Run(cfg, db, ops);
            Requests(after.gatewayRefunds, id) - Recorded(after.txns, id) ==
            Requests(db.gatewayRefunds, id) - Recorded(db.txns, id) + VainRequests(cfg, db, ops, id)
  {
    if ops != [] {
      var n := |ops| - 1;
      assert ops[n] in ops;
      RequestsBeyondRecords(cfg, db, ops[..n], id);
      EveryRunSound(cfg, db, ops[..n]);
      CallCounts(cfg, Run(cfg, db, ops[..n]), ops[n], id);
    }
  }

  lemma {:induction false} RecordedAtMostOnce(txns: seq<Txn>, id: nat)
    requires OneRefundPerBooking(txns)
    ensures Recorded(txns, id) <= 1
    ensures Recorded(txns, id) == 1 ==> exists t :: 0 <= t < |txns| && Records(txns[t], id)
  {
    if txns != [] {
      var n := |txns| - 1;
      RecordedAtMostOnce(txns[..n], id);
      if Recorded(txns[..n], id) == 1 {
        var t :| 0 <= t < n && Records(txns[..n][t], id);
        assert Records(txns[t], id);
      } else if Records(txns[n], id) {
        assert exists t :: 0 <= t < |txns| && Records(txns[t], id);
      }
    }
  }

  /** From a database whose requests are all recorded: the gateway is asked for each booking at most once, and only what the books
      record, in every run in which each request finds its booking cancelled; and a request in vain always leaves one too many. */
  lemma AskedOnceWhenCancelled(cfg: Config, db: Db, ops: seq<Op>, id: nat)
    requires Sound(db) && (forall op :: op in ops ==> ValidOp(op)) && Requests(db.gatewayRefunds, id) == Recorded(db.txns, id)
    ensures var after := Run(cfg, db, ops);
            && Requests(after.gatewayRefunds, id) <= 1 + VainRequests(cfg, db, ops, id)
            && (VainRequests(cfg, db, ops, id) == 0 <==> Requests(after.gatewayRefunds, id) == Recorded(after.txns, id))
  {
    RequestsBeyondRecords(cfg, db, ops, id);
    EveryRunSound(cfg, db, ops);
    RecordedAtMostOnce(Run(cfg, db, ops).txns, id);
  }

  // ---- One booking refunded twice by the gateway, once in the books ----

  /** A booking is paid, cancelled and refunded. */
  function PaidAndRefunded(order: string, paymentId: string, secondsUntil: int): seq<Op> {
    [InitiateRazorpay(1, 0, Some(order)), Captured(Some(order), paymentId),
     CancelBooking(1, true, 0, secondsUntil), Refund(0, PaymentService.RefundAccepted)]
  }

  /** The failure of an earlier attempt arrives late, the capture is delivered again, and the refund is requested again. */
  function LateDeliveries(order: string, paymentId: string): seq<Op> {
    [CaptureFailed(Some(order)), Captured(Some(order), paymentId), Refund(0, PaymentService.RefundAccepted)]
  }

  /** A database with one booking in the given state, one transaction in the given state, and this history. */
  function Stage(db: Db, b: Booking, t: Txn, events: seq<Event>, refunds: nat): Db {
    db.(bookings := [b], txns := [t], events := events, gatewayRefunds := seq(refunds, _ => (0, b.finalPrice)))
  }

  lemma SingleTxn(t: Txn, order: string)
    requires t.orderId == Some(order) && t.booking == Some(0)
    ensures TxnByOrder([t], order) == OneRow(0)
    ensures SuccessfulTxn([t], 0) == if t.status.Success? then OneRow(0) else NoRow
  {
    OneOrNoneMeaning([t], (x: Txn) => x.orderId == Some(order));
    OneOrNoneMeaning([t], (x: Txn) => x.booking == Some(0) && x.status.Success?);
    assert TxnByOrder([t], order) == OneRow(0);
  }

  lemma CaptureMarks(d: Db, order: string, paymentId: string, t: nat)
    requires TxnByOrder(d.txns, order) == OneRow(t) && !d.txns[t].status.Success?
    ensures PaymentService.Captured(d, Some(order), paymentId).db ==
            PaymentService.MarkSuccess(d, t, paymentId).(events := d.events + PaymentService.ConfirmedEvents(d, t))
  {
  }

  lemma CapturedStep(cfg: Config, db: Db, b: Booking, t: Txn, events: seq<Event>, refunds: nat, order: string, paymentId: string)
    requires t.orderId == Some(order) && t.booking == Some(0) && !t.status.Success?
    ensures var t' := t.(status := Success, gatewayTxnId := Some(paymentId));
            Apply(cfg, Stage(db, b, t, events, refunds), Captured(Some(order), paymentId)).db ==
              if b.status.Pending?
              then Stage(db, b.(status := Confirmed, version := b.version + 1), t', events + [BookingConfirmed(0)], refunds)
              else Stage(db, b, t', events, refunds)
  {
    var d := Stage(db, b, t, events, refunds);
    var b', t' := b.(status := Confirmed, version := b.version + 1), t.(status := Success, gatewayTxnId := Some(paymentId));
    assert TxnByOrder(d.txns, order) == OneRow(0) by {
      SingleTxn(t, order);
    }
    CaptureMarks(d, order, paymentId, 0);
    assert d.bookings[0 := b'] == [b'] && d.txns[0 := t'] == [t'];
    assert PaymentService.ConfirmIfPending(d.bookings, Some(0)) == if b.status.Pending? then [b'] else [b];
    assert PaymentService.ConfirmedEvents(d, 0) == if b.status.Pending? then [BookingConfirmed(0)] else [];
    assert events + [] == events;
  }

  lemma FailureMarks(d: Db, order: string, t: nat)
    requires TxnByOrder(d.txns, order) == OneRow(t)
    ensures PaymentService.CaptureFailed(d, Some(order)).db == PaymentService.MarkFailed(d, t)
  {
  }

  lemma FailedStep(cfg: Config, db: Db, b: Booking, t: Txn, events: seq<Event>, refunds: nat, order: string)
    requires t.orderId == Some(order) && t.booking == Some(0)
    ensures Apply(cfg, Stage(db, b, t, events, refunds), CaptureFailed(Some(order))).db ==
              Stage(db, b, t.(status := Failed), events + [PaymentFailed(0)], refunds)
  {
    var d := Stage(db, b, t, events, refunds);
    assert TxnByOrder(d.txns, order) == OneRow(0) by {
      SingleTxn(t, order);
    }
    FailureMarks(d, order, 0);
    assert d.txns[0 := t.(status := Failed)] == [t.(status := Failed)];
  }

  lemma RefundStep(cfg: Config, db: Db, b: Booking, t: Txn, events: seq<Event>, refunds: nat, order: string)
    requires t.orderId == Some(order) && t.booking == Some(0) && t.status.Success? && t.gatewayTxnId.Some?
    requires b.refundAmount == Some(b.finalPrice) && b.finalPrice != 0
    ensures Apply(cfg, Stage(db, b, t, events, refunds), Refund(0, PaymentService.RefundAccepted)).db ==
              if b.status.Cancelled?
              then Stage(db, b.(status := BookingStates.Refunded, version := b.version + 2),
                         t.(status := RefundedTxn, refundAmount := b.refundAmount),
                         events + [PaymentRefunded(0)], refunds + 1)
              else Stage(db, b, t, events, refunds + 1)
  {
    SingleTxn(t, order);
    var asked := seq(refunds, _ => (0 as nat, b.finalPrice)) + [(0, b.finalPrice)];
    assert asked == seq(refunds + 1, _ => (0 as nat, b.finalPrice));
  }

  lemma InitiateStep(cfg: Config, db: Db, order: string)
    requires |db.bookings| == 1 && db.txns == [] && db.gatewayRefunds == [] && db.bookings[0].status.Pending?
    ensures var b := db.bookings[0];
            Apply(cfg, db, InitiateRazorpay(1, 0, Some(order))).db ==
              Stage(db, b, Txn(Some(0), 1, Razorpay, Some(order), None, b.finalPrice, Initiated, None), db.events, 0)
  {
  }

  lemma CancelStep(cfg: Config, db: Db, b: Booking, t: Txn, events: seq<Event>, secondsUntil: int)
    requires b.status.Confirmed? && TurfOf(cfg, b.turf).policy.None?
    ensures Apply(cfg, Stage(db, b, t, events, 0), CancelBooking(1, true, 0, secondsUntil)).db ==
              Stage(db, b.(status := Cancelled, refundAmount := Some(b.finalPrice), version := b.version + 1), t,
                    events + [BookingCancelled(0, b.finalPrice, 100)], 0)
  {
    var b' := b.(status := Cancelled, refundAmount := Some(b.finalPrice), version := b.version + 1);
    assert [b][0 := b'] == [b'];
  }

  lemma FirstRefund(cfg: Config, db: Db, order: string, paymentId: string, secondsUntil: int)
    returns (b: Booking, t: Txn, events: seq<Event>)
    requires |db.bookings| == 1 && db.txns == [] && db.gatewayRefunds == []
    requires var b := db.bookings[0]; b.status.Pending? && b.finalPrice != 0 && TurfOf(cfg, b.turf).policy.None?
    ensures forall op :: op in PaidAndRefunded(order, paymentId, secondsUntil) ==> ValidOp(op)
    ensures Run(cfg, db, PaidAndRefunded(order, paymentId, secondsUntil)) == Stage(db, b, t, events, 1)
    ensures b.status.Refunded? && b.finalPrice == db.bookings[0].finalPrice && b.refundAmount == Some(b.finalPrice)
    ensures t.orderId == Some(order) && t.booking == Some(0) && t.status.RefundedTxn? && t.refundAmount == Some(b.finalPrice)
  {
    var b0, ev := db.bookings[0], db.events;
    var t0 := Txn(Some(0), 1, Razorpay, Some(order), None, b0.finalPrice, Initiated, None);
    var ops := PaidAndRefunded(order, paymentId, secondsUntil);
    var d1 := Stage(db, b0, t0, ev, 0);
    var b1, ev1 := b0.(status := Confirmed, version := b0.version + 1), ev + [BookingConfirmed(0)];
    var t1 := t0.(status := Success, gatewayTxnId := Some(paymentId));
    var d2 := Stage(db, b1, t1, ev1, 0);
    var b2 := b1.(status := Cancelled, refundAmount := Some(b0.finalPrice), version := b1.version + 1);
    var ev2 := ev1 + [BookingCancelled(0, b0.finalPrice, 100)];
    var d3 := Stage(db, b2, t1, ev2, 0);
    b, t := b2.(status := BookingStates.Refunded, version := b2.version + 2),
      t1.(status := RefundedTxn, refundAmount := b2.refundAmount);
    events := ev2 + [PaymentRefunded(0)];
    InitiateStep(cfg, db, order);
    CapturedStep(cfg, db, b0, t0, ev, 0, order, paymentId);
    CancelStep(cfg, db, b1, t1, ev1, secondsUntil);
    RefundStep(cfg, db, b2, t1, ev2, 0, order);
    TraceIsRun(cfg, [db, d1, d2, d3, Stage(db, b, t, events, 1)], ops);
  }

  lemma SecondRefund(cfg: Config, db: Db, b: Booking, t: Txn, events: seq<Event>, order: string, paymentId: string)
    requires b.status.Refunded? && b.refundAmount == Some(b.finalPrice) && b.finalPrice != 0
    requires t.orderId == Some(order) && t.booking == Some(0) && t.status.RefundedTxn?
    ensures forall op :: op in LateDeliveries(order, paymentId) ==> ValidOp(op)
    ensures Run(cfg, Stage(db, b, t, events, 1), LateDeliveries(order, paymentId)) ==
              Stage(db, b, t.(status := Success, gatewayTxnId := Some(paymentId)), events + [PaymentFailed(0)], 2)
  {
    var ops, ev := LateDeliveries(order, paymentId), events + [PaymentFailed(0)];
    var t1 := t.(status := Failed);
    var t2 := t1.(status := Success, gatewayTxnId := Some(paymentId));
    FailedStep(cfg, db, b, t, events, 1, order);
    CapturedStep(cfg, db, b, t1, ev, 1, order, paymentId);
    RefundStep(cfg, db, b, t2, ev, 1, order);
    TraceIsRun(cfg, [Stage(db, b, t, events, 1), Stage(db, b, t1, ev, 1), Stage(db, b, t2, ev, 1), Stage(db, b, t2, ev, 2)], ops);
  }

  /** From a fresh pending booking: the second refund request reaches the gateway although the books already show it refunded. */
  lemma GatewayRefundsTwice(cfg: Config, db: Db, order: string, paymentId: string, secondsUntil: int)
    requires |db.bookings| == 1 && db.txns == [] && db.gatewayRefunds == []
    requires var b := db.bookings[0]; b.status.Pending? && b.finalPrice != 0 && TurfOf(cfg, b.turf).policy.None?
    ensures forall op :: op in PaidAndRefunded(order, paymentId, secondsUntil) + LateDeliveries(order, paymentId) ==> ValidOp(op)
    ensures var price := db.bookings[0].finalPrice;
            var after := Run(cfg, db, PaidAndRefunded(order, paymentId, secondsUntil) + LateDeliveries(order, paymentId));
            && after.gatewayRefunds == [(0, price), (0, price)]
            && |after.txns| == 1 && after.txns[0].refundAmount == Some(price)
  {
    var b, t, events := FirstRefund(cfg, db, order, paymentId, secondsUntil);
    SecondRefund(cfg, db, b, t, events, order, paymentId);
    RunSplit(cfg, db, PaidAndRefunded(order, paymentId, secondsUntil), LateDeliveries(order, paymentId));
  }
}
