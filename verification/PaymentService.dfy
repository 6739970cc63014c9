/** Razorpay and manual UPI payments. Gateway answers are inputs; a refused call may still have committed a failure. */
module PaymentService {
  import opened Common
  import opened BookingStates
  import opened Store

  /** What fetching the payment from the gateway told: nothing, or its status. */
  datatype Fetched = Unknown | Fetched(succeeded: bool)

  /** How the gateway answers a refund request. */
  datatype RefundReply = NotConfigured | RefundFails | RefundAccepted

  predicate IsPending(rows: seq<Booking>, id: Option<nat>) {
    id.Some? && id.value < |rows| && rows[id.value].status.Pending?
  }

  /** The booking of a successful payment is confirmed if it is still pending, otherwise left alone. */
  function ConfirmIfPending(rows: seq<Booking>, id: Option<nat>): seq<Booking> {
    if IsPending(rows, id)
    then rows[id.value := rows[id.value].(status := Confirmed, version := rows[id.value].version + 1)]
    else rows
  }

  // ---- State changes ----

  function InitiateRazorpay(db: Db, user: nat, id: nat, order: Option<string>): After {
    if id >= |db.bookings| then After(db, Refused(NotFound))
    else if !db.bookings[id].status.Pending? then After(db, Refused(NotPending))
    else if order.None? then After(db, Refused(GatewayDown))
    else After(db.(txns := db.txns + [Txn(Some(id), user, Razorpay, order, None, db.bookings[id].finalPrice, Initiated,
                                          None)]), Done)
  }

  function MarkFailed(db: Db, t: nat): Db
    requires t < |db.txns|
  {
    db.(txns := db.txns[t := db.txns[t].(status := Failed)], events := db.events + [PaymentFailed(t)])
  }

  function MarkSuccess(db: Db, t: nat, paymentId: string): Db
    requires t < |db.txns|
  {
    db.(txns := db.txns[t := db.txns[t].(status := Success, gatewayTxnId := Some(paymentId))],
        bookings := ConfirmIfPending(db.bookings, db.txns[t].booking))
  }

  function ConfirmedEvents(db: Db, t: nat): seq<Event>
    requires t < |db.txns|
  {
    if IsPending(db.bookings, db.txns[t].booking) then [BookingConfirmed(db.txns[t].booking.value)] else []
  }

  function Callback(db: Db, order: string, paymentId: string, signed: bool, fetched: Fetched): After {
    match TxnByOrder(db.txns, order)
    case SeveralRows => After(db, Refused(ManyRows))
    case NoRow => After(db, Refused(if signed then NotFound else BadSignature))
    case OneRow(t) =>
      if !signed then After(MarkFailed(db, t), Refused(BadSignature))
      else if db.txns[t].status.Success? then After(db, Done)
      else if fetched == Fetched(false) then
        After(MarkFailed(db.(txns := db.txns[t := db.txns[t].(gatewayTxnId := Some(paymentId))]), t), Refused(PaymentNotSuccessful))
      else
        After(MarkSuccess(db, t, paymentId).(events := db.events + [PaymentSuccess(t)] + ConfirmedEvents(db, t)), Done)
  }

  function Captured(db: Db, order: Option<string>, paymentId: string): After {
    if order.None? then After(db, Done)
    else
      match TxnByOrder(db.txns, order.value)
      case SeveralRows => After(db, Refused(ManyRows))
      case NoRow => After(db, Done)
      case OneRow(t) =>
        if db.txns[t].status.Success? then After(db, Done)
        else After(MarkSuccess(db, t, paymentId).(events := db.events + ConfirmedEvents(db, t)), Done)
  }

  function CaptureFailed(db: Db, order: Option<string>): After {
    if order.None? then After(db, Done)
    else
      match TxnByOrder(db.txns, order.value)
      case SeveralRows => After(db, Refused(ManyRows))
      case NoRow => After(db, Done)
      case OneRow(t) => After(MarkFailed(db, t), Done)
  }

  /** The refund amount as a truth value: neither missing nor zero. */
  predicate HasRefundAmount(b: Booking) {
    b.refundAmount.Some? && b.refundAmount.value != 0
  }

  /** The gateway is asked first; only then is the booking's transition checked, and a failed check undoes the rows but not
      the request. */
  function Refund(db: Db, id: nat, reply: RefundReply): After {
    match SuccessfulTxn(db.txns, id)
    case NoRow => After(db, Refused(NotFound))
    case SeveralRows => After(db, Refused(ManyRows))
    case OneRow(t) =>
      if id >= |db.bookings| || !HasRefundAmount(db.bookings[id]) then After(db, Refused(NoRefundAmount))
      else if reply.NotConfigured? || db.txns[t].gatewayTxnId.None? || reply.RefundFails? then After(db, Refused(GatewayDown))
      else
        var b := db.bookings[id];
        var asked := db.(gatewayRefunds := db.gatewayRefunds + [(id, b.refundAmount.value)]);
        if !CanTransition(b.status, RefundPending) then After(asked, Refused(BadTransition))
        else
          After(asked.(txns := db.txns[t := db.txns[t].(refundAmount := b.refundAmount, status := RefundedTxn)],
                       bookings := db.bookings[id := b.(status := BookingStates.Refunded, version := b.version + 2)],
                       events := db.events + [PaymentRefunded(t)]), Done)
  }

  function InitiateUpi(db: Db, user: nat, id: nat, configured: bool): After {
    if !configured then After(db, Refused(UpiNotConfigured))
    else if id >= |db.bookings| then After(db, Refused(NotFound))
    else if db.bookings[id].user != user then After(db, Refused(NotAllowed))
    else if !db.bookings[id].status.Pending? then After(db, Refused(NotPending))
    else
      match OpenTxn(db.txns, id)
      case SeveralRows => After(db, Refused(ManyRows))
      case OneRow(_) => After(db, Done)
      case NoRow => After(db.(txns := db.txns + [Txn(Some(id), user, UpiManual, None, None, db.bookings[id].finalPrice,
                                                     Initiated, None)]), Done)
  }

  predicate IsOpen(t: Txn) {
    t.status.Initiated? || t.status.Processing?
  }

  function SubmitUtr(db: Db, user: nat, t: nat): After {
    if t >= |db.txns| then After(db, Refused(NotFound))
    else if db.txns[t].user != user then After(db, Refused(NotAllowed))
    else if !IsOpen(db.txns[t]) then After(db, Refused(WrongTxnStatus))
    else After(db.(txns := db.txns[t := db.txns[t].(status := Processing)]), Done)
  }

  function VerifyUpi(db: Db, t: nat): After {
    if t >= |db.txns| then After(db, Refused(NotFound))
    else if !db.txns[t].status.Processing? then After(db, Refused(WrongTxnStatus))
    else
      var rows, b := ConfirmIfPending(db.bookings, db.txns[t].booking), db.txns[t].booking;
      After(db.(txns := db.txns[t := db.txns[t].(status := Success)],
                bookings := rows,
                events := db.events + [PaymentSuccess(t)] +
                          if b.Some? && b.value < |rows| && rows[b.value].status.Confirmed?
                          then [BookingConfirmed(b.value)] else []), Done)
  }

  function RejectUpi(db: Db, t: nat): After {
    if t >= |db.txns| then After(db, Refused(NotFound))
    else if !IsOpen(db.txns[t]) then After(db, Refused(WrongTxnStatus))
    else After(db.(txns := db.txns[t := db.txns[t].(status := Failed)], events := db.events + [PaymentRejected(t)]), Done)
  }

  // ---- The service ----

  class Service {
    const db: Database

    constructor (db: Database)
      ensures this.db == db
    {
      this.db := db;
    }

    method InitiatePayment(user: nat, id: nat, order: Option<string>) returns (outcome: Outcome)
      modifies db
      ensures After(db.Rows(), outcome) == InitiateRazorpay(old(db.Rows()), user, id, order)
    {
      if id >= |db.bookings| {
        return Refused(NotFound);
      }
      if !db.bookings[id].status.Pending? {
        return Refused(NotPending);
      }
      if order.None? {
        return Refused(GatewayDown);
      }
      var amount := db.bookings[id].finalPrice;
      db.txns := db.txns + [Txn(Some(id), user, Razorpay, order, None, amount, Initiated, None)];
      return Done;
    }

    method HandleCallback(order: string, paymentId: string, signed: bool, fetched: Fetched) returns (outcome: Outcome)
      modifies db
      ensures After(db.Rows(), outcome) == Callback(old(db.Rows()), order, paymentId, signed, fetched)
    {
      var found := TxnByOrder(db.txns, order);
      if found.SeveralRows? {
        return Refused(ManyRows);
      }
      if !signed {
        if found.OneRow? {
          db.txns := db.txns[found.id := db.txns[found.id].(status := Failed)];
          db.events := db.events + [PaymentFailed(found.id)];
        }
        return Refused(BadSignature);
      }
      if found.NoRow? {
        return Refused(NotFound);
      }
      var txn := db.txns[found.id];
      if txn.status.Success? {
        return Done;
      }
      if fetched.Fetched? && !fetched.succeeded {
        txn := txn.(gatewayTxnId := Some(paymentId));
        txn := txn.(status := Failed);
        db.txns := db.txns[found.id := txn];
        db.events := db.events + [PaymentFailed(found.id)];
        return Refused(PaymentNotSuccessful);
      }
      txn := txn.(gatewayTxnId := Some(paymentId));
      txn := txn.(status := Success);
      db.txns := db.txns[found.id := txn];
      var newlyConfirmed := ConfirmPendingBooking(txn.booking);
      db.events := db.events + [PaymentSuccess(found.id)];
      if newlyConfirmed {
        db.events := db.events + [BookingConfirmed(txn.booking.value)];
      }
      return Done;
    }

    method ConfirmPendingBooking(id: Option<nat>) returns (newlyConfirmed: bool)
      modifies db`bookings
      ensures db.bookings == ConfirmIfPending(old(db.bookings), id)
      ensures newlyConfirmed == IsPending(old(db.bookings), id)
    {
      newlyConfirmed := false;
      if id.Some? && id.value < |db.bookings| {
        var booking := db.bookings[id.value];
        if booking.status.Pending? {
          booking := booking.(status := Confirmed);
          booking := booking.(version := booking.version + 1);
          db.bookings := db.bookings[id.value := booking];
          newlyConfirmed := true;
        }
      }
    }

    method ProcessCaptured(order: Option<string>, paymentId: string) returns (outcome: Outcome)
      modifies db
      ensures After(db.Rows(), outcome) == Captured(old(db.Rows()), order, paymentId)
    {
      if order.None? {
        return Done;
      }
      var found := TxnByOrder(db.txns, order.value);
      if found.SeveralRows? {
        return Refused(ManyRows);
      }
      if found.OneRow? && !db.txns[found.id].status.Success? {
        var txn := db.txns[found.id];
        txn := txn.(status := Success);
        txn := txn.(gatewayTxnId := Some(paymentId));
        db.txns := db.txns[found.id := txn];
        var newlyConfirmed := ConfirmPendingBooking(txn.booking);
        if newlyConfirmed {
          db.events := db.events + [BookingConfirmed(txn.booking.value)];
        }
      }
      return Done;
    }

    method ProcessFailed(order: Option<string>) returns (outcome: Outcome)
      modifies db
      ensures After(db.Rows(), outcome) == CaptureFailed(old(db.Rows()), order)
    {
      if order.None? {
        return Done;
      }
      var found := TxnByOrder(db.txns, order.value);
      if found.SeveralRows? {
        return Refused(ManyRows);
      }
      if found.OneRow? {
        db.txns := db.txns[found.id := db.txns[found.id].(status := Failed)];
        db.events := db.events + [PaymentFailed(found.id)];
      }
      return Done;
    }

    method InitiateRefund(id: nat, reply: RefundReply) returns (outcome: Outcome)
      modifies db
      ensures After(db.Rows(), outcome) == Refund(old(db.Rows()), id, reply)
    {
      var found := SuccessfulTxn(db.txns, id);
      if found.SeveralRows? {
        return Refused(ManyRows);
      }
      if found.NoRow? {
        return Refused(NotFound);
      }
      var txn := db.txns[found.id];
      if id >= |db.bookings| || !HasRefundAmount(db.bookings[id]) {
        return Refused(NoRefundAmount);
      }
      var booking := db.bookings[id];
      if reply.NotConfigured? || txn.gatewayTxnId.None? || reply.RefundFails? {
        return Refused(GatewayDown);
      }
      db.gatewayRefunds := db.gatewayRefunds + [(id, booking.refundAmount.value)];
      txn := txn.(refundAmount := booking.refundAmount);
      txn := txn.(status := RefundedTxn);
      if !CanTransition(booking.status, RefundPending) {
        return Refused(BadTransition);
      }
      booking := booking.(status := RefundPending);
      booking := booking.(version := booking.version + 1);
      db.txns := db.txns[found.id := txn];
      db.bookings := db.bookings[id := booking];
      assert CanTransition(booking.status, BookingStates.Refunded);
      booking := booking.(status := BookingStates.Refunded);
      booking := booking.(version := booking.version + 1);
      db.bookings := db.bookings[id := booking];
      db.events := db.events + [PaymentRefunded(found.id)];
      return Done;
    }

    method InitiateUpiPayment(user: nat, id: nat, configured: bool) returns (outcome: Outcome)
      modifies db
      ensures After(db.Rows(), outcome) == InitiateUpi(old(db.Rows()), user, id, configured)
    {
      if !configured {
        return Refused(UpiNotConfigured);
      }
      if id >= |db.bookings| {
        return Refused(NotFound);
      }
      var booking := db.bookings[id];
      if booking.user != user {
        return Refused(NotAllowed);
      }
      if !booking.status.Pending? {
        return Refused(NotPending);
      }
      var existing := OpenTxn(db.txns, id);
      if existing.SeveralRows? {
        return Refused(ManyRows);
      }
      if existing.NoRow? {
        db.txns := db.txns + [Txn(Some(id), user, UpiManual, None, None, booking.finalPrice, Initiated, None)];
      }
      return Done;
    }

    method SubmitUpiUtr(user: nat, t: nat) returns (outcome: Outcome)
      modifies db
      ensures After(db.Rows(), outcome) == SubmitUtr(old(db.Rows()), user, t)
    {
      if t >= |db.txns| {
        return Refused(NotFound);
      }
      var txn := db.txns[t];
      if txn.user != user {
        return Refused(NotAllowed);
      }
      if !(txn.status.Initiated? || txn.status.Processing?) {
        return Refused(WrongTxnStatus);
      }
      db.txns := db.txns[t := txn.(status := Processing)];
      return Done;
    }

    method VerifyUpiPayment(t: nat) returns (outcome: Outcome)
      modifies db
      ensures After(db.Rows(), outcome) == VerifyUpi(old(db.Rows()), t)
    {
      if t >= |db.txns| {
        return Refused(NotFound);
      }
      var txn := db.txns[t];
      if !txn.status.Processing? {
        return Refused(WrongTxnStatus);
      }
      txn := txn.(status := Success);
      db.txns := db.txns[t := txn];
      var _ := ConfirmPendingBooking(txn.booking);
      db.events := db.events + [PaymentSuccess(t)];
      if txn.booking.Some? && txn.booking.value < |db.bookings| && db.bookings[txn.booking.value].status.Confirmed? {
        db.events := db.events + [BookingConfirmed(txn.booking.value)];
      }
      return Done;
    }

    method RejectUpiPayment(t: nat) returns (outcome: Outcome)
      modifies db
      ensures After(db.Rows(), outcome) == RejectUpi(old(db.Rows()), t)
    {
      if t >= |db.txns| {
        return Refused(NotFound);
      }
      var txn := db.txns[t];
      if !(txn.status.Initiated? || txn.status.Processing?) {
        return Refused(WrongTxnStatus);
      }
      db.txns := db.txns[t := txn.(status := Failed)];
      db.events := db.events + [PaymentRejected(t)];
      return Done;
    }
  }
}
