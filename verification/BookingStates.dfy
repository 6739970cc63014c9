/** The booking status machine: allowed transitions and what every chain of them respects. */
module BookingStates {

  datatype Status = Pending | Confirmed | Cancelled | Completed | NoShow | RefundPending | Refunded

  function Transitions(s: Status): set<Status> {
    match s
    case Pending => {Confirmed, Cancelled}
    case Confirmed => {Completed, Cancelled, NoShow}
    case Cancelled => {RefundPending}
    case Completed => {}
    case NoShow => {}
    case RefundPending => {Refunded}
    case Refunded => {}
  }

  predicate CanTransition(current: Status, target: Status) {
    target in Transitions(current)
  }

  predicate IsTerminal(s: Status) {
    Transitions(s) == {}
  }

  predicate IsCancellable(s: Status) {
    Cancelled in Transitions(s)
  }

  /** The statuses that hold a slot: the ones the conflict query selects. */
  predicate IsActive(s: Status) {
    s.Pending? || s.Confirmed?
  }

  function Rank(s: Status): nat {
    match s
    case Pending => 4
    case Confirmed => 3
    case Cancelled => 2
    case RefundPending => 1
    case Completed => 0
    case NoShow => 0
    case Refunded => 0
  }

  /** t is reached from s by exactly n transitions. */
  ghost predicate Steps(s: Status, t: Status, n: nat)
    decreases n
  {
    if n == 0 then s == t
    else exists m :: CanTransition(s, m) && Steps(m, t, n - 1)
  }

  /** A chain of transitions loses rank at every step, so none is longer than four and none returns to its start;
      a slot-holding status is reached only from slot-holding statuses. */
  lemma {:induction false} ChainsDescend(s: Status, t: Status, n: nat)
    requires Steps(s, t, n)
    ensures n + Rank(t) <= Rank(s)
    ensures n > 0 ==> s != t
    ensures IsActive(t) ==> IsActive(s)
    decreases n
  {
    if n > 0 {
      var m :| CanTransition(s, m) && Steps(m, t, n - 1);
      ChainsDescend(m, t, n - 1);
    }
  }

  lemma {:induction false} ChainsCompose(s: Status, m: Status, t: Status, a: nat, b: nat)
    requires Steps(s, m, a) && Steps(m, t, b)
    ensures Steps(s, t, a + b)
    decreases a
  {
    if a > 0 {
      var x :| CanTransition(s, x) && Steps(x, m, a - 1);
      ChainsCompose(x, m, t, a - 1, b);
    }
  }

  lemma OneStep(s: Status, t: Status)
    requires CanTransition(s, t)
    ensures Steps(s, t, 1)
  {
    assert Steps(t, t, 0);
  }

  /** The bound on chains is met: a new booking can go through four transitions, ending refunded. */
  lemma LongestChain()
    ensures Steps(Pending, Refunded, 4)
  {
    OneStep(Pending, Confirmed);
    OneStep(Confirmed, Cancelled);
    OneStep(Cancelled, RefundPending);
    OneStep(RefundPending, Refunded);
    ChainsCompose(Pending, Confirmed, Cancelled, 1, 1);
    ChainsCompose(Cancelled, RefundPending, Refunded, 1, 1);
    ChainsCompose(Pending, Cancelled, Refunded, 2, 2);
  }

  /** A chain begins with a move and goes on from there. */
  lemma FirstMove(s: Status, t: Status, n: nat)
    requires n > 0
    ensures Steps(s, t, n) <==> exists m :: m in Transitions(s) && Steps(m, t, n - 1)
  {
    if m :| m in Transitions(s) && Steps(m, t, n - 1) {
      assert CanTransition(s, m);
    }
  }

  lemma FromTerminal(s: Status, t: Status, n: nat)
    requires s.Completed? || s.NoShow? || s.Refunded?
    ensures Steps(s, t, n) <==> n == 0 && t == s
  {
    if n > 0 {
      FirstMove(s, t, n);
    }
  }

  lemma FromCancelled(t: Status, n: nat)
    ensures Steps(RefundPending, t, n) <==> (n == 0 && t == RefundPending) || (n == 1 && t == Refunded)
    ensures Steps(Cancelled, t, n + 1) <==> (n == 0 && t == RefundPending) || (n == 1 && t == Refunded)
  {
    FirstMove(Cancelled, t, n + 1);
    assert Transitions(Cancelled) == {RefundPending};
    if n > 0 {
      FirstMove(RefundPending, t, n);
      FromTerminal(Refunded, t, n - 1);
      assert Transitions(RefundPending) == {Refunded};
    }
  }

  lemma FromConfirmed(t: Status, n: nat)
    ensures Steps(Confirmed, t, n + 1) <==>
              || (n == 0 && (t == Completed || t == NoShow || t == Cancelled))
              || (n == 1 && t == RefundPending)
              || (n == 2 && t == Refunded)
  {
    FirstMove(Confirmed, t, n + 1);
    assert Transitions(Confirmed) == {Completed, NoShow, Cancelled};
    FromTerminal(Completed, t, n);
    FromTerminal(NoShow, t, n);
    if n > 0 {
      FromCancelled(t, n - 1);
    }
  }

  /** What can become of a booking: after so many moves it has one of these statuses, and it can have each of them. */
  lemma HistoriesOfABooking(t: Status, n: nat)
    ensures Steps(Pending, t, n) <==>
              || (n == 0 && t == Pending)
              || (n == 1 && (t == Confirmed || t == Cancelled))
              || (n == 2 && (t == Completed || t == NoShow || t == Cancelled || t == RefundPending))
              || (n == 3 && (t == RefundPending || t == Refunded))
              || (n == 4 && t == Refunded)
  {
    if n > 0 {
      FirstMove(Pending, t, n);
      assert Transitions(Pending) == {Confirmed, Cancelled};
      if n > 1 {
        FromConfirmed(t, n - 2);
        FromCancelled(t, n - 2);
      }
    }
  }
}
