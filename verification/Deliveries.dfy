/** Atomic deliveries of one Razorpay payment: callbacks, captured and failed webhooks in any order and number. */
module Deliveries {
  import opened Common
  import opened BookingStates
  import opened Store
  import opened Runs
  import PaymentService

  predicate IsDelivery(op: Op, order: string) {
    match op
    case Callback(o, _, _, _) => o == order
    case Captured(o, _) => o == Some(order)
    case CaptureFailed(o) => o == Some(order)
    case _ => false
  }

  /** The delivery says the money arrived: a captured webhook, or a signed callback the gateway does not contradict. */
  predicate SaysSuccess(op: Op) {
    op.Captured? || (op.Callback? && op.signed && op.fetched != PaymentService.Fetched.Fetched(false))
  }

  /** Transaction t of this order pays for booking b. */
  ghost predicate Pays(db: Db, order: string, t: nat, b: nat) {
    TxnByOrder(db.txns, order) == OneRow(t) && db.txns[t].booking == Some(b) && b < |db.bookings|
  }

  function Confirmations(events: seq<Event>, b: nat): nat {
    if events == [] then 0
    else Confirmations(events[..|events| - 1], b) + if events[|events| - 1] == BookingConfirmed(b) then 1 else 0
  }

  lemma {:induction false} ConfirmationsAppend(a: seq<Event>, c: seq<Event>, b: nat)
    ensures Confirmations(a + c, b) == Confirmations(a, b) + Confirmations(c, b)
  {
    if c == [] {
      assert a + c == a;
    } else {
      assert (a + c)[..|a + c| - 1] == a + c[..|c| - 1];
      ConfirmationsAppend(a, c[..|c| - 1], b);
    }
  }

  lemma OrderLookupKept(before: seq<Txn>, after: seq<Txn>, order: string, t: nat)
    requires |before| == |after| && (forall i :: 0 <= i < |before| ==> after[i].orderId == before[i].orderId)
    requires TxnByOrder(before, order) == OneRow(t)
    ensures TxnByOrder(after, order) == OneRow(t)
  {
    OneOrNoneMeaning(before, (x: Txn) => x.orderId == Some(order));
    OneOrNoneMeaning(after, (x: Txn) => x.orderId == Some(order));
    assert TxnByOrder(before, order) == OneRow(t);
  }

  /** What the deliveries so far have made of the booking: untouched until a success, confirmed once from then on. */
  ghost predicate Delivered(start: Db, now: Db, order: string, t: nat, b: nat, success: bool) {
    && b < |start.bookings|
    && Pays(now, order, t, b)
    && (now.txns[t].status.Success? ==> success)
    && now.bookings == (if success
                        then start.bookings[b := start.bookings[b].(status := Confirmed, version := start.bookings[b].version + 1)]
                        else start.bookings)
    && Confirmations(now.events, b) == Confirmations(start.events, b) + if success then 1 else 0
  }

  /** Only transaction t changed, and it still pays for the same booking under the same order. */
  predicate OnlyTxnChanged(before: Db, after: Db, t: nat) {
    && t < |before.txns|
    && |after.txns| == |before.txns|
    && (forall i :: 0 <= i < |before.txns| ==> after.txns[i].orderId == before.txns[i].orderId)
    && after.txns[t].booking == before.txns[t].booking
  }

  lemma AfterFailure(start: Db, now: Db, after: Db, order: string, t: nat, b: nat, success: bool)
    requires Delivered(start, now, order, t, b, success) && OnlyTxnChanged(now, after, t)
    requires after.bookings == now.bookings && !after.txns[t].status.Success? && after.events == now.events + [PaymentFailed(t)]
    ensures Delivered(start, after, order, t, b, success)
  {
    OrderLookupKept(now.txns, after.txns, order, t);
    ConfirmationsAppend(now.events, [PaymentFailed(t)], b);
  }

  lemma AfterSuccess(start: Db, now: Db, after: Db, order: string, t: nat, b: nat, success: bool, emitted: seq<Event>)
    requires Delivered(start, now, order, t, b, success) && start.bookings[b].status.Pending? && OnlyTxnChanged(now, after, t)
    requires after.bookings == PaymentService.ConfirmIfPending(now.bookings, Some(b))
    requires after.events == now.events + emitted + PaymentService.ConfirmedEvents(now, t) && Confirmations(emitted, b) == 0
    ensures Delivered(start, after, order, t, b, true)
  {
    OrderLookupKept(now.txns, after.txns, order, t);
    ConfirmationsAppend(now.events, emitted, b);
    ConfirmationsAppend(now.events + emitted, PaymentService.ConfirmedEvents(now, t), b);
    ConfirmationsOfOne(PaymentService.ConfirmedEvents(now, t), b);
  }

  lemma ConfirmationsOfOne(events: seq<Event>, b: nat)
    requires events == [] || events == [BookingConfirmed(b)]
    ensures Confirmations(events, b) == |events|
  {
  }

  lemma CallbackDelivery(start: Db, now: Db, order: string, t: nat, b: nat, success: bool, pay: string, signed: bool,
                         fetched: PaymentService.Fetched)
    requires Delivered(start, now, order, t, b, success) && start.bookings[b].status.Pending?
    ensures Delivered(start, PaymentService.Callback(now, order, pay, signed, fetched).db, order, t, b,
                      success || (signed && fetched != PaymentService.Fetched.Fetched(false)))
  {
    var after := PaymentService.Callback(now, order, pay, signed, fetched).db;
    if !signed || (!now.txns[t].status.Success? && fetched == PaymentService.Fetched.Fetched(false)) {
      AfterFailure(start, now, after, order, t, b, success);
    } else if !now.txns[t].status.Success? {
      AfterSuccess(start, now, after, order, t, b, success, [PaymentSuccess(t)]);
    }
  }

  lemma CapturedDelivery(start: Db, now: Db, order: string, t: nat, b: nat, success: bool, pay: string)
    requires Delivered(start, now, order, t, b, success) && start.bookings[b].status.Pending?
    ensures Delivered(start, PaymentService.Captured(now, Some(order), pay).db, order, t, b, true)
  {
    if !now.txns[t].status.Success? {
      assert now.events + [] == now.events;
      AfterSuccess(start, now, PaymentService.Captured(now, Some(order), pay).db, order, t, b, success, []);
    }
  }

  lemma FailedDelivery(start: Db, now: Db, order: string, t: nat, b: nat, success: bool)
    requires Delivered(start, now, order, t, b, success)
    ensures Delivered(start, PaymentService.CaptureFailed(now, Some(order)).db, order, t, b, success)
  {
    AfterFailure(start, now, PaymentService.CaptureFailed(now, Some(order)).db, order, t, b, success);
  }

  lemma OneDelivery(cfg: Config, start: Db, now: Db, op: Op, order: string, t: nat, b: nat, success: bool)
    requires Delivered(start, now, order, t, b, success) && start.bookings[b].status.Pending?
    requires IsDelivery(op, order) && ValidOp(op)
    ensures Delivered(start, Apply(cfg, now, op).db, order, t, b, success || SaysSuccess(op))
  {
    match op
    case Callback(_, pay, signed, fetched) => CallbackDelivery(start, now, order, t, b, success, pay, signed, fetched);
    case Captured(_, pay) => CapturedDelivery(start, now, order, t, b, success, pay);
    case CaptureFailed(_) => FailedDelivery(start, now, order, t, b, success);
  }

  predicate AnySuccess(ops: seq<Op>) {
    exists i :: 0 <= i < |ops| && SaysSuccess(ops[i])
  }

  lemma AnySuccessSplit(ops: seq<Op>)
    requires ops != []
    ensures AnySuccess(ops) <==> AnySuccess(ops[..|ops| - 1]) || SaysSuccess(ops[|ops| - 1])
  {
    var n := |ops| - 1;
    if i :| 0 <= i < |ops| && SaysSuccess(ops[i]) {
      assert i < n ==> SaysSuccess(ops[..n][i]);
    }
  }

  /** Whatever the order and repetition of the deliveries of one initiated payment, its pending booking ends confirmed if and only
      if one of them said success; it is confirmed once, its version rises by one, the confirmation is emitted once, and no other
      booking changes. */
  lemma {:induction false} DeliveriesConverge(cfg: Config, db: Db, ops: seq<Op>, order: string, t: nat, b: nat)
    requires Pays(db, order, t, b) && db.bookings[b].status.Pending? && !db.txns[t].status.Success?
    requires forall op :: op in ops ==> ValidOp(op) && IsDelivery(op, order)
    ensures Delivered(db, Run(cfg, db, ops), order, t, b, AnySuccess(ops))
  {
    if ops != [] {
      var n := |ops| - 1;
      assert ops[n] in ops;
      DeliveriesConverge(cfg, db, ops[..n], order, t, b);
      AnySuccessSplit(ops);
      OneDelivery(cfg, db, Run(cfg, db, ops[..n]), ops[n], order, t, b, AnySuccess(ops[..n]));
    }
  }

  // ---- What becomes of the transaction ----

  /** The delivery marks the payment failed whatever it was: a failure webhook, or a callback with a bad signature. */
  predicate Voids(op: Op) {
    op.CaptureFailed? || (op.Callback? && !op.signed)
  }

  /** Some delivery says the money arrived, and none after it voids the payment. */
  predicate EndsPaid(ops: seq<Op>) {
    exists i :: 0 <= i < |ops| && SaysSuccess(ops[i]) && forall j :: i < j < |ops| ==> !Voids(ops[j])
  }

  lemma EndsPaidSplit(ops: seq<Op>)
    requires ops != []
    ensures var n := |ops| - 1; EndsPaid(ops) <==> SaysSuccess(ops[n]) || (EndsPaid(ops[..n]) && !Voids(ops[n]))
  {
    var n := |ops| - 1;
    if i :| 0 <= i < |ops| && SaysSuccess(ops[i]) && forall j :: i < j < |ops| ==> !Voids(ops[j]) {
      assert i < n ==> SaysSuccess(ops[..n][i]) && !Voids(ops[n]);
      assert forall j :: i < j < n ==> ops[..n][j] == ops[j];
    }
    if EndsPaid(ops[..n]) && !Voids(ops[n]) {
      var i :| 0 <= i < n && SaysSuccess(ops[..n][i]) && forall j :: i < j < n ==> !Voids(ops[..n][j]);
      assert forall j :: i < j < n ==> ops[..n][j] == ops[j];
      assert SaysSuccess(ops[i]) && forall j :: i < j < |ops| ==> !Voids(ops[j]);
    }
  }

  /** One delivery: a success pays, a void or a contradicted callback on an open payment fails it, and a contradiction comes
      too late for a payment that succeeded. */
  lemma OneDeliverySetsStatus(cfg: Config, db: Db, op: Op, order: string, t: nat)
    requires IsDelivery(op, order) && ValidOp(op) && TxnByOrder(db.txns, order) == OneRow(t)
    ensures var after := Apply(cfg, db, op).db;
            && |after.txns| == |db.txns|
            && (forall i :: 0 <= i < |db.txns| ==> after.txns[i].orderId == db.txns[i].orderId)
            && after.txns[t].status == if SaysSuccess(op) then Success
                                       else if Voids(op) || db.txns[t].status != Success then Failed
                                       else Success
  {
  }

  /** After any deliveries of one initiated payment it counts as paid if and only if one said so and none voided it later, in
      whatever state that leaves the booking; otherwise it has failed, unless nothing was delivered. */
  lemma {:induction false} PaidIff(cfg: Config, db: Db, ops: seq<Op>, order: string, t: nat)
    requires TxnByOrder(db.txns, order) == OneRow(t) && db.txns[t].status != Success
    requires forall op :: op in ops ==> ValidOp(op) && IsDelivery(op, order)
    ensures var after := Run(cfg, db, ops);
            && TxnByOrder(after.txns, order) == OneRow(t)
            && after.txns[t].status == if EndsPaid(ops) then Success else if ops == [] then db.txns[t].status else Failed
  {
    if ops != [] {
      var n := |ops| - 1;
      assert ops[n] in ops;
      PaidIff(cfg, db, ops[..n], order, t);
      var mid := Run(cfg, db, ops[..n]);
      EndsPaidSplit(ops);
      OneDeliverySetsStatus(cfg, mid, ops[n], order, t);
      OrderLookupKept(mid.txns, Apply(cfg, mid, ops[n]).db.txns, order, t);
    }
  }

  /** Two delivery histories that agree on whether the money arrived leave the same bookings. */
  lemma DeliveryOrderIrrelevant(cfg: Config, db: Db, ops: seq<Op>, others: seq<Op>, order: string, t: nat, b: nat)
    requires Pays(db, order, t, b) && db.bookings[b].status.Pending? && !db.txns[t].status.Success?
    requires forall op :: op in ops + others ==> ValidOp(op) && IsDelivery(op, order)
    requires AnySuccess(ops) <==> AnySuccess(others)
    ensures (forall op :: op in ops ==> ValidOp(op)) && (forall op :: op in others ==> ValidOp(op))
    ensures Run(cfg, db, ops).bookings == Run(cfg, db, others).bookings
  {
    assert forall op :: op in ops ==> op in ops + others;
    assert forall op :: op in others ==> op in ops + others;
    DeliveriesConverge(cfg, db, ops, order, t, b);
    DeliveriesConverge(cfg, db, others, order, t, b);
  }

  /** Verifying a UPI payment confirms its booking if and only if that was pending, but announces a confirmation whenever the
      booking is confirmed afterwards: a booking that was confirmed before is announced again. */
  lemma VerificationAnnouncesIff(db: Db, t: nat, b: nat)
    requires t < |db.txns| && db.txns[t].booking == Some(b) && b < |db.bookings|
    requires PaymentService.VerifyUpi(db, t).outcome.Done?
    ensures var before, after := db.bookings[b].status, PaymentService.VerifyUpi(db, t).db;
            && (after.bookings != db.bookings <==> before.Pending?)
            && after.bookings[b].status == (if before.Pending? then Confirmed else before)
            && Confirmations(after.events, b) - Confirmations(db.events, b) ==
                 (if before.Pending? || before.Confirmed? then 1 else 0)
  {
    var after := PaymentService.VerifyUpi(db, t).db;
    var announced := if after.bookings[b].status.Confirmed? then [BookingConfirmed(b)] else [];
    ConfirmationsAppend(db.events, [PaymentSuccess(t)], b);
    ConfirmationsAppend(db.events + [PaymentSuccess(t)], announced, b);
    ConfirmationsOfOne(announced, b);
    assert after.events == db.events + [PaymentSuccess(t)] + announced;
    assert db.bookings[b].status.Pending? ==> after.bookings[b] != db.bookings[b];
  }
}
