/** Deliveries of one payment with their reads and commits apart: what survives overlapping handlers and what does not. */
module DeliveryInterleavings {
  import opened Common
  import opened BookingStates
  import opened Store

  /** Where a handler stands: it reads the transaction, then (on success) the booking, then commits. */
  datatype Phase = Arrived | TxnRead | BookingRead(pending: bool, version: int) | Handled(confirmed: bool)

  /** A delivery that does or does not say that the money arrived. */
  datatype Delivery = Delivery(success: bool, phase: Phase)

  datatype State = State(txn: TxnStatus, status: Status, version: int, deliveries: seq<Delivery>, confirmations: nat)

  datatype Step = Arrive(success: bool) | ReadTxn(p: nat) | ReadBooking(p: nat) | Commit(p: nat)

  predicate Enabled(s: State, step: Step) {
    match step
    case Arrive(_) => true
    case ReadTxn(p) => p < |s.deliveries| && s.deliveries[p].phase.Arrived?
    case ReadBooking(p) => p < |s.deliveries| && s.deliveries[p].success && s.deliveries[p].phase.TxnRead?
    case Commit(p) =>
      p < |s.deliveries| && if s.deliveries[p].success then s.deliveries[p].phase.BookingRead? else s.deliveries[p].phase.TxnRead?
  }

  function At(s: State, p: nat, phase: Phase): State
    requires p < |s.deliveries|
  {
    s.(deliveries := s.deliveries[p := s.deliveries[p].(phase := phase)])
  }

  function Next(s: State, step: Step): State
    requires Enabled(s, step)
  {
    match step
    case Arrive(success) => s.(deliveries := s.deliveries + [Delivery(success, Arrived)])
    case ReadTxn(p) => At(s, p, if s.deliveries[p].success && s.txn.Success? then Handled(false) else TxnRead)
    case ReadBooking(p) => At(s, p, BookingRead(s.status.Pending?, s.version))
    case Commit(p) =>
      var d := s.deliveries[p];
      if !d.success then At(s, p, Handled(false)).(txn := Failed)
      else if d.phase.pending then
        At(s, p, Handled(true)).(txn := Success, status := Confirmed, version := d.phase.version + 1,
                                 confirmations := s.confirmations + 1)
      else At(s, p, Handled(false)).(txn := Success)
  }

  /** One initiated payment of a pending booking, nothing delivered yet. */
  predicate Initial(s: State) {
    s.txn.Initiated? && s.status.Pending? && s.deliveries == [] && s.confirmations == 0
  }

  ghost predicate Reaches(s: State, steps: seq<Step>, t: State)
    decreases |steps|
  {
    if steps == [] then s == t
    else Enabled(s, steps[0]) && Reaches(Next(s, steps[0]), steps[1..], t)
  }

  predicate HasConfirmed(d: Delivery) {
    d.phase == Handled(true)
  }

  function Confirmers(ds: seq<Delivery>): nat {
    if ds == [] then 0 else Confirmers(ds[..|ds| - 1]) + if HasConfirmed(ds[|ds| - 1]) then 1 else 0
  }

  lemma {:induction false} CountsAfterUpdate(ds: seq<Delivery>, p: nat, d: Delivery)
    requires p < |ds|
    ensures Confirmers(ds[p := d]) == Confirmers(ds) - (if HasConfirmed(ds[p]) then 1 else 0) + (if HasConfirmed(d) then 1 else 0)
  {
    var n := |ds| - 1;
    if p < n {
      CountsAfterUpdate(ds[..n], p, d);
      assert ds[p := d][..n] == ds[..n][p := d];
    } else {
      assert ds[p := d][..n] == ds[..n];
    }
  }

  /** The state of affairs at every moment of every interleaving that began with version v. */
  ghost predicate Inv(s: State, v: int) {
    && s.status == (if s.confirmations > 0 then Confirmed else Pending)
    && s.version == v + (if s.confirmations > 0 then 1 else 0)
    && s.confirmations == Confirmers(s.deliveries)
    && (s.txn.Success? ==> s.confirmations > 0)
    && (forall p :: 0 <= p < |s.deliveries| ==>
          var d := s.deliveries[p];
          && (d.phase.BookingRead? ==> d.success && (if d.phase.pending then d.phase.version == v else s.confirmations > 0))
          && (d.success && d.phase.Handled? ==> s.confirmations > 0)
          && (HasConfirmed(d) ==> d.success))
  }

  lemma StepKeepsInv(s: State, step: Step, v: int)
    requires Inv(s, v) && Enabled(s, step)
    ensures Inv(Next(s, step), v)
  {
    var t := Next(s, step);
    if !step.Arrive? {
      CountsAfterUpdate(s.deliveries, step.p, t.deliveries[step.p]);
    }
  }

  lemma {:induction false} RunKeepsInv(s: State, steps: seq<Step>, t: State, v: int)
    requires Inv(s, v) && Reaches(s, steps, t)
    ensures Inv(t, v)
    decreases |steps|
  {
    if steps != [] {
      StepKeepsInv(s, steps[0], v);
      RunKeepsInv(Next(s, steps[0]), steps[1..], t, v);
    }
  }

  /** Nobody is between reading the booking and committing. */
  predicate Settled(s: State) {
    forall p :: 0 <= p < |s.deliveries| ==> !s.deliveries[p].phase.BookingRead?
  }

  lemma {:induction false} ConfirmerExists(ds: seq<Delivery>) returns (p: nat)
    requires Confirmers(ds) > 0
    ensures p < |ds| && HasConfirmed(ds[p])
  {
    var n := |ds| - 1;
    if HasConfirmed(ds[n]) {
      p := n;
    } else {
      p := ConfirmerExists(ds[..n]);
    }
  }

  /** However the handlers interleave, the booking is confirmed if and only if a success delivery finished, with exactly one new
      version, and otherwise still pending. */
  lemma OverlappingDeliveries(s: State, steps: seq<Step>, t: State)
    requires Initial(s) && Reaches(s, steps, t)
    ensures t.status.Confirmed? <==>
              exists p :: 0 <= p < |t.deliveries| && t.deliveries[p].success && t.deliveries[p].phase.Handled?
    ensures t.version == s.version + (if t.status.Confirmed? then 1 else 0)
    ensures t.status.Confirmed? || t.status.Pending?
  {
    RunKeepsInv(s, steps, t, s.version);
    if t.status.Confirmed? {
      var p := ConfirmerExists(t.deliveries);
      assert t.deliveries[p].success && t.deliveries[p].phase.Handled?;
    }
  }

  // ---- How often the confirmation is emitted ----

  /** The booking reads of the schedule that happen while the booking is pending. */
  ghost function PendingReads(s: State, steps: seq<Step>): nat
    decreases |steps|
  {
    if steps == [] || !Enabled(s, steps[0]) then 0
    else (if steps[0].ReadBooking? && s.status.Pending? then 1 else 0) + PendingReads(Next(s, steps[0]), steps[1..])
  }

  /** The handlers that have read the booking as pending and have yet to commit. */
  function InFlight(ds: seq<Delivery>): nat {
    if ds == [] then 0
    else InFlight(ds[..|ds| - 1]) + if ds[|ds| - 1].phase.BookingRead? && ds[|ds| - 1].phase.pending then 1 else 0
  }

  lemma {:induction false} InFlightAfterUpdate(ds: seq<Delivery>, p: nat, d: Delivery)
    requires p < |ds|
    ensures InFlight(ds[p := d]) ==
            InFlight(ds) - (if ds[p].phase.BookingRead? && ds[p].phase.pending then 1 else 0)
                         + (if d.phase.BookingRead? && d.phase.pending then 1 else 0)
  {
    var n := |ds| - 1;
    if p < n {
      InFlightAfterUpdate(ds[..n], p, d);
      assert ds[p := d][..n] == ds[..n][p := d];
    } else {
      assert ds[p := d][..n] == ds[..n];
    }
  }

  lemma {:induction false} NoneInFlight(ds: seq<Delivery>)
    requires forall p :: 0 <= p < |ds| ==> !ds[p].phase.BookingRead?
    ensures InFlight(ds) == 0
  {
    if ds != [] {
      NoneInFlight(ds[..|ds| - 1]);
    }
  }

  /** Confirmations emitted or on their way. */
  function Due(s: State): nat {
    s.confirmations + InFlight(s.deliveries)
  }

  lemma StepChangesDue(s: State, step: Step)
    requires Enabled(s, step)
    ensures Due(Next(s, step)) == Due(s) + if step.ReadBooking? && s.status.Pending? then 1 else 0
  {
    var t := Next(s, step);
    if step.Arrive? {
      assert t.deliveries[..|s.deliveries|] == s.deliveries;
    } else {
      InFlightAfterUpdate(s.deliveries, step.p, t.deliveries[step.p]);
    }
  }

  lemma {:induction false} RunChangesDue(s: State, steps: seq<Step>, t: State)
    requires Reaches(s, steps, t)
    ensures Due(t) == Due(s) + PendingReads(s, steps)
    decreases |steps|
  {
    if steps != [] {
      StepChangesDue(s, steps[0]);
      RunChangesDue(Next(s, steps[0]), steps[1..], t);
    }
  }

  /** At no moment of the run are two handlers between a pending read and their commit. */
  ghost predicate NeverTwoInFlight(s: State, steps: seq<Step>)
    decreases |steps|
  {
    InFlight(s.deliveries) <= 1 && (steps != [] && Enabled(s, steps[0]) ==> NeverTwoInFlight(Next(s, steps[0]), steps[1..]))
  }

  lemma {:induction false} OneAtATimeIsOne(s: State, steps: seq<Step>, t: State, v: int)
    requires Inv(s, v) && Reaches(s, steps, t) && Due(s) <= 1 && NeverTwoInFlight(s, steps)
    ensures Due(t) <= 1
    decreases |steps|
  {
    if steps != [] {
      StepKeepsInv(s, steps[0], v);
      StepChangesDue(s, steps[0]);
      assert NeverTwoInFlight(Next(s, steps[0]), steps[1..]);
      OneAtATimeIsOne(Next(s, steps[0]), steps[1..], t, v);
    }
  }

  lemma {:induction false} TwoInFlightAreTwo(s: State, steps: seq<Step>, t: State)
    requires Reaches(s, steps, t) && !NeverTwoInFlight(s, steps)
    ensures Due(t) >= 2
    decreases |steps|
  {
    RunChangesDue(s, steps, t);
    if InFlight(s.deliveries) <= 1 {
      TwoInFlightAreTwo(Next(s, steps[0]), steps[1..], t);
    }
  }

  /** Once all handlers are done, the confirmation has been emitted once for each booking read of the schedule that came while
      the booking was pending; and at most once if and only if no two handlers were ever between such a read and their commit
      at once. */
  lemma EmittedOnceIff(s: State, steps: seq<Step>, t: State)
    requires Initial(s) && Reaches(s, steps, t) && Settled(t)
    ensures t.confirmations == PendingReads(s, steps)
    ensures t.confirmations <= 1 <==> NeverTwoInFlight(s, steps)
  {
    NoneInFlight(t.deliveries);
    RunChangesDue(s, steps, t);
    if NeverTwoInFlight(s, steps) {
      OneAtATimeIsOne(s, steps, t, s.version);
    } else {
      TwoInFlightAreTwo(s, steps, t);
    }
  }

  /** A callback and a webhook that both read the booking before either commits emit the confirmation twice. */
  lemma ConfirmationCanBeEmittedTwice(s: State) returns (steps: seq<Step>, t: State)
    requires Initial(s)
    ensures Reaches(s, steps, t) && Settled(t) && t.confirmations == 2 && t.version == s.version + 1
  {
    var s1 := Next(s, Arrive(true));
    var s2 := Next(s1, Arrive(true));
    var s3 := Next(s2, ReadTxn(0));
    var s4 := Next(s3, ReadTxn(1));
    var s5 := Next(s4, ReadBooking(0));
    var s6 := Next(s5, ReadBooking(1));
    var s7 := Next(s6, Commit(0));
    t := Next(s7, Commit(1));
    var r1 := [Commit(1)];
    var r2 := [Commit(0)] + r1;
    var r3 := [ReadBooking(1)] + r2;
    var r4 := [ReadBooking(0)] + r3;
    var r5 := [ReadTxn(1)] + r4;
    var r6 := [ReadTxn(0)] + r5;
    var r7 := [Arrive(true)] + r6;
    steps := [Arrive(true)] + r7;
    assert Reaches(t, [], t);
    ReachesFront(s7, Commit(1), [], t);
    ReachesFront(s6, Commit(0), r1, t);
    ReachesFront(s5, ReadBooking(1), r2, t);
    ReachesFront(s4, ReadBooking(0), r3, t);
    ReachesFront(s3, ReadTxn(1), r4, t);
    ReachesFront(s2, ReadTxn(0), r5, t);
    ReachesFront(s1, Arrive(true), r6, t);
    ReachesFront(s, Arrive(true), r7, t);
  }

  lemma ReachesFront(s: State, step: Step, rest: seq<Step>, t: State)
    requires Enabled(s, step) && Reaches(Next(s, step), rest, t)
    ensures Reaches(s, [step] + rest, t)
  {
    assert ([step] + rest)[1..] == rest;
  }
}
