/** What payment calls mean together: how many open payments a booking gets, and how a payment made on paper may move. */
module PaymentFacts {
  import opened Common
  import opened BookingStates
  import opened Store
  import PaymentService
  import opened Runs

  // ---- Open payments of a booking ----

  lemma OpenIdsAppend(txns: seq<Txn>, t: Txn, b: nat)
    ensures OpenIds(txns + [t], b) == OpenIds(txns, b) + if OpenFor(t, b) then [|txns|] else []
  {
    assert (txns + [t])[..|txns|] == txns;
  }

  /** Every order opens one more payment of a pending booking, over exactly its price; without an order nothing changes. */
  lemma OrderOpensPayment(db: Db, user: nat, b: nat, order: Option<string>)
    ensures var after := PaymentService.InitiateRazorpay(db, user, b, order);
            if b < |db.bookings| && db.bookings[b].status.Pending? && order.Some?
            then && after.outcome.Done?
                 && |OpenIds(after.db.txns, b)| == |OpenIds(db.txns, b)| + 1
                 && |after.db.txns| == |db.txns| + 1 && after.db.txns[|db.txns|].amount == db.bookings[b].finalPrice
                 && after.db.bookings == db.bookings
            else after.outcome.Refused? && after.db == db
  {
    if b < |db.bookings| && db.bookings[b].status.Pending? && order.Some? {
      OpenIdsAppend(db.txns, PaymentService.InitiateRazorpay(db, user, b, order).db.txns[|db.txns|], b);
    }
  }

  /** A customer may pay this booking by UPI. */
  predicate MayPay(db: Db, user: nat, b: nat) {
    b < |db.bookings| && db.bookings[b].user == user && db.bookings[b].status.Pending?
  }

  /** A UPI initiation succeeds if and only if UPI is set up, the customer may pay, and at most one payment is open; it opens
      one if and only if none is, and leaves exactly one open. When it fails nothing changes. */
  lemma UpiOpensOneIff(db: Db, user: nat, b: nat, configured: bool)
    ensures var open, after := |OpenIds(db.txns, b)|, PaymentService.InitiateUpi(db, user, b, configured);
            && (after.outcome.Done? <==> configured && MayPay(db, user, b) && open <= 1)
            && (after.db != db <==> after.outcome.Done? && open == 0)
            && (after.outcome.Done? ==> |OpenIds(after.db.txns, b)| == 1 && after.db.bookings == db.bookings)
  {
    if MayPay(db, user, b) && OpenIds(db.txns, b) == [] {
      var t := Txn(Some(b), user, UpiManual, None, None, db.bookings[b].finalPrice, Initiated, None);
      OpenIdsAppend(db.txns, t, b);
      assert |(db.txns + [t])| != |db.txns|;
    }
  }

  /** The later steps: only the payer reports an open payment, only a reported one is verified, only an open one rejected. */
  lemma UpiStepsIff(db: Db, user: nat, t: nat)
    ensures PaymentService.SubmitUtr(db, user, t).outcome.Done? <==>
              t < |db.txns| && db.txns[t].user == user && (db.txns[t].status == Initiated || db.txns[t].status == Processing)
    ensures PaymentService.VerifyUpi(db, t).outcome.Done? <==> t < |db.txns| && db.txns[t].status == Processing
    ensures PaymentService.RejectUpi(db, t).outcome.Done? <==>
              t < |db.txns| && (db.txns[t].status == Initiated || db.txns[t].status == Processing)
  {
  }

  /** Initiating a UPI payment again reuses the open one. */
  lemma UpiAgainAddsNothing(db: Db, user: nat, b: nat)
    requires MayPay(db, user, b) && PaymentService.InitiateUpi(db, user, b, true).outcome.Done?
    ensures var once := PaymentService.InitiateUpi(db, user, b, true).db;
            PaymentService.InitiateUpi(once, user, b, true) == After(once, Done)
  {
    UpiOpensOneIff(db, user, b, true);
    UpiOpensOneIff(PaymentService.InitiateUpi(db, user, b, true).db, user, b, true);
  }

  /** Two gateway orders for one pending booking shut UPI out: with both open, initiating a UPI payment fails. */
  lemma TwoOrdersBlockUpi(db: Db, user: nat, b: nat, first: string, second: string)
    requires MayPay(db, user, b)
    ensures var ordered := PaymentService.InitiateRazorpay(PaymentService.InitiateRazorpay(db, user, b, Some(first)).db, user,
                                                           b, Some(second)).db;
            PaymentService.InitiateUpi(ordered, user, b, true) == After(ordered, Refused(ManyRows))
  {
    var once := PaymentService.InitiateRazorpay(db, user, b, Some(first)).db;
    OrderOpensPayment(db, user, b, Some(first));
    OrderOpensPayment(once, user, b, Some(second));
    UpiOpensOneIff(PaymentService.InitiateRazorpay(once, user, b, Some(second)).db, user, b, true);
  }

  lemma {:induction false} OpenIdsUpdate(txns: seq<Txn>, t: nat, txn: Txn, b: nat)
    requires t < |txns| && txn.booking == txns[t].booking
    ensures |OpenIds(txns[t := txn], b)| ==
            |OpenIds(txns, b)| - (if OpenFor(txns[t], b) then 1 else 0) + (if OpenFor(txn, b) then 1 else 0)
  {
    var n := |txns| - 1;
    if t < n {
      OpenIdsUpdate(txns[..n], t, txn, b);
      assert txns[t := txn][..n] == txns[..n][t := txn];
    } else {
      assert txns[t := txn][..n] == txns[..n];
    }
  }

  /** Reporting a transfer leaves the payment open, rejecting it closes it for good: it can be neither verified nor reported
      again, and if it was the only open one, the customer can start over with a new payment. */
  lemma RejectionClosesPayment(db: Db, user: nat, t: nat, b: nat)
    requires t < |db.txns| && db.txns[t].user == user && OpenFor(db.txns[t], b)
    ensures var reported := PaymentService.SubmitUtr(db, user, t);
            && reported.outcome.Done? && |OpenIds(reported.db.txns, b)| == |OpenIds(db.txns, b)|
            && reported.db.bookings == db.bookings
            && PaymentService.VerifyUpi(reported.db, t).outcome.Done?
    ensures var rejected := PaymentService.RejectUpi(db, t);
            && rejected.outcome.Done? && |OpenIds(rejected.db.txns, b)| == |OpenIds(db.txns, b)| - 1
            && rejected.db.bookings == db.bookings
            && PaymentService.VerifyUpi(rejected.db, t) == After(rejected.db, Refused(WrongTxnStatus))
            && PaymentService.SubmitUtr(rejected.db, user, t) == After(rejected.db, Refused(WrongTxnStatus))
            && PaymentService.RejectUpi(rejected.db, t) == After(rejected.db, Refused(WrongTxnStatus))
            && rejected.db.txns[t].status.Failed?
            && (MayPay(db, user, b) && |OpenIds(db.txns, b)| == 1 ==>
                  |PaymentService.InitiateUpi(rejected.db, user, b, true).db.txns| == |db.txns| + 1)
  {
    OpenIdsUpdate(db.txns, t, db.txns[t].(status := Processing), b);
    OpenIdsUpdate(db.txns, t, db.txns[t].(status := Failed), b);
    if MayPay(db, user, b) && |OpenIds(db.txns, b)| == 1 {
      UpiOpensOneIff(PaymentService.RejectUpi(db, t).db, user, b, true);
    }
  }

  /** Paying by UPI works: a customer who may pay and has nothing open starts a payment and reports it, and once it is
      verified it is a success over the price of the booking, which is confirmed. */
  lemma UpiPaysBooking(db: Db, user: nat, b: nat)
    requires MayPay(db, user, b) && OpenIds(db.txns, b) == []
    ensures var t, row := |db.txns|, db.bookings[b];
            var started := PaymentService.InitiateUpi(db, user, b, true).db;
            var reported := PaymentService.SubmitUtr(started, user, t).db;
            var verified := PaymentService.VerifyUpi(reported, t);
            && verified.outcome.Done?
            && verified.db.txns == db.txns + [Txn(Some(b), user, UpiManual, None, None, row.finalPrice, Success, None)]
            && verified.db.bookings == db.bookings[b := row.(status := Confirmed, version := row.version + 1)]
  {
  }

  // ---- Payments without a gateway order ----

  /** How a payment without a gateway order may move: reported, then verified or rejected; refunded only if it carries a
      gateway id. */
  predicate PaperMove(t: Txn, s: TxnStatus) {
    || s == t.status
    || (t.status.Initiated? && (s.Processing? || s.Failed?))
    || (t.status.Processing? && (s.Success? || s.Failed?))
    || (t.status.Success? && s.RefundedTxn? && t.gatewayTxnId.Some?)
  }

  /** Transaction i is still there, for the same booking, user and amount, and moved as a payment without an order may. */
  ghost predicate MovesOnPaper(before: seq<Txn>, after: seq<Txn>, i: nat)
    requires i < |before|
  {
    && i < |after|
    && after[i] == before[i].(status := after[i].status, refundAmount := after[i].refundAmount)
    && PaperMove(before[i], after[i].status)
  }

  lemma CallbackLeavesPaper(db: Db, order: string, paymentId: string, signed: bool, fetched: PaymentService.Fetched, i: nat)
    requires i < |db.txns| && db.txns[i].orderId.None?
    ensures MovesOnPaper(db.txns, PaymentService.Callback(db, order, paymentId, signed, fetched).db.txns, i)
  {
  }

  lemma CapturedLeavesPaper(db: Db, order: Option<string>, paymentId: string, i: nat)
    requires i < |db.txns| && db.txns[i].orderId.None?
    ensures MovesOnPaper(db.txns, PaymentService.Captured(db, order, paymentId).db.txns, i)
  {
  }

  lemma FailedLeavesPaper(db: Db, order: Option<string>, i: nat)
    requires i < |db.txns| && db.txns[i].orderId.None?
    ensures MovesOnPaper(db.txns, PaymentService.CaptureFailed(db, order).db.txns, i)
  {
  }

  lemma RefundMovesPaper(db: Db, b: nat, reply: PaymentService.RefundReply, i: nat)
    requires i < |db.txns| && db.txns[i].orderId.None?
    ensures MovesOnPaper(db.txns, PaymentService.Refund(db, b, reply).db.txns, i)
  {
  }

  lemma UpiCallsMovePaper(cfg: Config, db: Db, op: Op, i: nat)
    requires op.InitiateRazorpay? || op.InitiateUpi? || op.SubmitUtr? || op.VerifyUpi? || op.RejectUpi?
    requires i < |db.txns| && db.txns[i].orderId.None?
    ensures MovesOnPaper(db.txns, Apply(cfg, db, op).db.txns, i)
  {
  }

  lemma OtherCallsLeavePaper(cfg: Config, db: Db, op: Op, i: nat)
    requires ValidOp(op) && i < |db.txns| && db.txns[i].orderId.None?
    requires op.Create? || op.CreateManual? || op.CancelBooking? || op.Move? || op.StartSubscription?
             || op.ActivateSubscription? || op.CancelSubscription?
    ensures MovesOnPaper(db.txns, Apply(cfg, db, op).db.txns, i)
  {
  }

  lemma CallMovesOnPaper(cfg: Config, db: Db, op: Op, i: nat)
    requires ValidOp(op) && i < |db.txns| && db.txns[i].orderId.None?
    ensures MovesOnPaper(db.txns, Apply(cfg, db, op).db.txns, i)
  {
    match op
    case Callback(order, pay, signed, fetched) => CallbackLeavesPaper(db, order, pay, signed, fetched, i);
    case Captured(order, pay) => CapturedLeavesPaper(db, order, pay, i);
    case CaptureFailed(order) => FailedLeavesPaper(db, order, i);
    case Refund(b, reply) => RefundMovesPaper(db, b, reply, i);
    case _ =>
      if op.InitiateRazorpay? || op.InitiateUpi? || op.SubmitUtr? || op.VerifyUpi? || op.RejectUpi? {
        UpiCallsMovePaper(cfg, db, op, i);
      } else {
        OtherCallsLeavePaper(cfg, db, op, i);
      }
  }

  lemma {:induction false} RunKeepsPaper(cfg: Config, db: Db, ops: seq<Op>, i: nat)
    requires (forall op :: op in ops ==> ValidOp(op)) && i < |db.txns| && db.txns[i].orderId.None?
    ensures i < |Run(cfg, db, ops).txns|
    ensures var t := Run(cfg, db, ops).txns[i]; t == db.txns[i].(status := t.status, refundAmount := t.refundAmount)
  {
    if ops != [] {
      var n := |ops| - 1;
      assert ops[n] in ops;
      RunKeepsPaper(cfg, db, ops[..n], i);
      CallMovesOnPaper(cfg, Run(cfg, db, ops[..n]), ops[n], i);
    }
  }

  /** Transaction i is in processing at some moment of the run. */
  ghost predicate EverProcessing(cfg: Config, db: Db, ops: seq<Op>, i: nat)
    requires forall op :: op in ops ==> ValidOp(op)
  {
    exists k :: 0 <= k <= |ops| && i < |Run(cfg, db, ops[..k]).txns| && Run(cfg, db, ops[..k]).txns[i].status.Processing?
  }

  /** Over any run, a payment without a gateway order that was only initiated succeeds only after it was reported: no
      callback, webhook or verification gets it there directly. */
  lemma {:induction false} SucceedsOnlyAfterReport(cfg: Config, db: Db, ops: seq<Op>, i: nat)
    requires (forall op :: op in ops ==> ValidOp(op)) && i < |db.txns| && db.txns[i].orderId.None? && db.txns[i].status.Initiated?
    ensures i < |Run(cfg, db, ops).txns|
    ensures Run(cfg, db, ops).txns[i].status.Success? || Run(cfg, db, ops).txns[i].status.RefundedTxn? ==>
              EverProcessing(cfg, db, ops, i)
  {
    RunKeepsPaper(cfg, db, ops, i);
    if ops != [] {
      var n := |ops| - 1;
      assert ops[n] in ops;
      var earlier := ops[..n];
      var mid := Run(cfg, db, earlier);
      SucceedsOnlyAfterReport(cfg, db, earlier, i);
      RunKeepsPaper(cfg, db, earlier, i);
      CallMovesOnPaper(cfg, mid, ops[n], i);
      if mid.txns[i].status.Processing? {
        assert ops[..n] == earlier && EverProcessing(cfg, db, ops, i);
      } else if EverProcessing(cfg, db, earlier, i) {
        var k :| 0 <= k <= n && i < |Run(cfg, db, earlier[..k]).txns| && Run(cfg, db, earlier[..k]).txns[i].status.Processing?;
        assert earlier[..k] == ops[..k];
      }
    }
  }

  /** Over any run, success and failure of a UPI payment are final. */
  lemma {:induction false} UpiOutcomeIsFinal(cfg: Config, db: Db, ops: seq<Op>, i: nat)
    requires (forall op :: op in ops ==> ValidOp(op)) && i < |db.txns|
    requires var t := db.txns[i]; t.orderId.None? && t.gatewayTxnId.None? && (t.status.Success? || t.status.Failed?)
    ensures i < |Run(cfg, db, ops).txns| && Run(cfg, db, ops).txns[i].status == db.txns[i].status
  {
    RunKeepsPaper(cfg, db, ops, i);
    if ops != [] {
      var n := |ops| - 1;
      assert ops[n] in ops;
      UpiOutcomeIsFinal(cfg, db, ops[..n], i);
      RunKeepsPaper(cfg, db, ops[..n], i);
      CallMovesOnPaper(cfg, Run(cfg, db, ops[..n]), ops[n], i);
    }
  }
}
