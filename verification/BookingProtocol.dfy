/** The booking protocol with its database steps apart: lock, conflict read, insert-and-commit on one side, read and commit of a
    status change on the other, interleaved in any way. The lock key is an arbitrary function of turf and date. */
module BookingProtocol {
  import opened Common
  import opened BookingStates
  import opened Store

  type KeyFn = (nat, int) -> int

  /** May this status be written over the row as it is now, given what the request read? */
  type Guard = (Booking, Seen, Status) -> bool

  /** The lock key, and the guard under which a status write may commit. The code has no guard: every write may. */
  datatype Protocol = Protocol(key: KeyFn, guard: Guard)

  function Unguarded(key: KeyFn): Protocol {
    Protocol(key, (b: Booking, seen: Seen, target: Status) => true)
  }

  /** Optimistic locking: a write commits only on the row as it was read. */
  function VersionChecked(key: KeyFn): Protocol {
    Protocol(key, (b: Booking, seen: Seen, target: Status) => seen == Seen(b.status, b.version))
  }

  datatype Phase = Waiting | Locked | Checked | Finished

  datatype Seen = Seen(status: Status, version: int)

  /** A request in flight: creating a row, or moving row id through the statuses of its plan, one commit each. */
  datatype Proc =
    | Creating(row: Booking, phase: Phase)
    | Updating(id: nat, plan: seq<Status>, seen: Option<Seen>)

  datatype State = State(rows: seq<Booking>, procs: seq<Proc>, locks: map<int, nat>)

  datatype Step = Arrive(proc: Proc) | Acquire(p: nat) | Check(p: nat) | Insert(p: nat) | Read(p: nat) | Write(p: nat)
    | Abort(p: nat)

  const START := State([], [], map[])

  predicate PlanOk(plan: seq<Status>) {
    forall i :: 0 <= i < |plan| - 1 ==> CanTransition(plan[i], plan[i + 1])
  }

  /** A request as it arrives: a validated new row, or a plan such as [Cancelled], [Confirmed] or [RefundPending, Refunded]. */
  predicate FreshProc(s: State, proc: Proc) {
    match proc
    case Creating(row, phase) => phase.Waiting? && row.start < row.end && IsActive(row.status)
    case Updating(id, plan, seen) => id < |s.rows| && plan != [] && PlanOk(plan) && seen.None?
  }

  function KeyOf(pr: Protocol, b: Booking): int {
    pr.key(b.turf, b.date)
  }

  predicate InCritical(proc: Proc) {
    proc.Creating? && (proc.phase.Locked? || proc.phase.Checked?)
  }

  predicate Enabled(pr: Protocol, s: State, step: Step) {
    match step
    case Arrive(proc) => FreshProc(s, proc)
    case Acquire(p) => p < |s.procs| && s.procs[p].Creating? && s.procs[p].phase.Waiting? && KeyOf(pr, s.procs[p].row) !in s.locks
    case Check(p) => p < |s.procs| && s.procs[p].Creating? && s.procs[p].phase.Locked?
    case Insert(p) => p < |s.procs| && s.procs[p].Creating? && s.procs[p].phase.Checked?
    case Read(p) => p < |s.procs| && s.procs[p].Updating? && s.procs[p].plan != [] && s.procs[p].seen.None?
      && s.procs[p].id < |s.rows|
    case Write(p) =>
      && p < |s.procs| && s.procs[p].Updating? && s.procs[p].plan != [] && s.procs[p].seen.Some? && s.procs[p].id < |s.rows|
      && pr.guard(s.rows[s.procs[p].id], s.procs[p].seen.value, s.procs[p].plan[0])
    case Abort(p) => p < |s.procs|
  }

  /** The request ends; a lock it holds is released with its transaction. */
  function End(pr: Protocol, s: State, p: nat): State
    requires p < |s.procs|
  {
    match s.procs[p]
    case Creating(row, phase) =>
      s.(procs := s.procs[p := Creating(row, Finished)],
         locks := if InCritical(s.procs[p]) then s.locks - {KeyOf(pr, row)} else s.locks)
    case Updating(id, _, _) => s.(procs := s.procs[p := Updating(id, [], None)])
  }

  function WrittenRow(b: Booking, plan: seq<Status>, seen: Seen): Booking
    requires plan != []
  {
    b.(status := plan[0], version := seen.version + 1)
  }

  function Next(pr: Protocol, s: State, step: Step): State
    requires Enabled(pr, s, step)
  {
    match step
    case Arrive(proc) => s.(procs := s.procs + [proc])
    case Acquire(p) =>
      var row := s.procs[p].row;
      s.(procs := s.procs[p := Creating(row, Locked)], locks := s.locks[KeyOf(pr, row) := p])
    case Check(p) =>
      var row := s.procs[p].row;
      if HasConflict(s.rows, row.turf, row.date, row.start, row.end) then End(pr, s, p)
      else s.(procs := s.procs[p := Creating(row, Checked)])
    case Insert(p) => End(pr, s, p).(rows := s.rows + [s.procs[p].row])
    case Read(p) =>
      var u, b := s.procs[p], s.rows[s.procs[p].id];
      if CanTransition(b.status, u.plan[0]) then s.(procs := s.procs[p := u.(seen := Some(Seen(b.status, b.version)))])
      else End(pr, s, p)
    case Write(p) =>
      var u := s.procs[p];
      var rest := u.plan[1..];
      s.(rows := s.rows[u.id := WrittenRow(s.rows[u.id], u.plan, u.seen.value)],
         procs := s.procs[p := Updating(u.id, rest, if rest == [] then None else Some(Seen(u.plan[0], u.seen.value.version + 1)))])
    case Abort(p) => End(pr, s, p)
  }

  /** steps leads from s to t. */
  ghost predicate Reaches(pr: Protocol, s: State, steps: seq<Step>, t: State)
    decreases |steps|
  {
    if steps == [] then s == t
    else Enabled(pr, s, steps[0]) && Reaches(pr, Next(pr, s, steps[0]), steps[1..], t)
  }

  // ---- The invariant ----

  predicate ProcOk(pr: Protocol, s: State, p: nat)
    requires p < |s.procs|
  {
    match s.procs[p]
    case Creating(row, phase) =>
      && row.start < row.end && IsActive(row.status)
      && (InCritical(s.procs[p]) ==> KeyOf(pr, row) in s.locks && s.locks[KeyOf(pr, row)] == p)
      && (phase.Checked? ==> !HasConflict(s.rows, row.turf, row.date, row.start, row.end))
    case Updating(id, plan, seen) =>
      && id < |s.rows|
      && PlanOk(plan)
      && (seen.Some? ==> plan != [] && CanTransition(seen.value.status, plan[0]))
  }

  predicate LocksHeld(pr: Protocol, s: State) {
    forall k :: k in s.locks ==>
      s.locks[k] < |s.procs| && InCritical(s.procs[s.locks[k]]) && KeyOf(pr, s.procs[s.locks[k]].row) == k
  }

  ghost predicate Inv(pr: Protocol, s: State) {
    && NoOverlap(s.rows)
    && (forall i :: 0 <= i < |s.rows| ==> s.rows[i].start < s.rows[i].end)
    && (forall p :: 0 <= p < |s.procs| ==> ProcOk(pr, s, p))
    && LocksHeld(pr, s)
  }

  /** Request p is about to commit a slot-holding status on a row that has meanwhile stopped holding its slot. */
  predicate Stale(s: State, p: nat) {
    && p < |s.procs| && s.procs[p].Updating? && s.procs[p].plan != [] && s.procs[p].seen.Some? && s.procs[p].id < |s.rows|
    && IsActive(s.procs[p].plan[0]) && !IsActive(s.rows[s.procs[p].id].status)
  }

  /** The row is still as the request read it. */
  predicate Unchanged(s: State, p: nat)
    requires p < |s.procs| && s.procs[p].Updating? && s.procs[p].seen.Some? && s.procs[p].id < |s.rows|
  {
    var b := s.rows[s.procs[p].id];
    s.procs[p].seen.value == Seen(b.status, b.version)
  }

  // ---- Step by step ----

  lemma OthersKept(pr: Protocol, s: State, t: State, p: nat)
    requires Inv(pr, s) && p < |s.procs| == |t.procs| && t.rows == s.rows
    requires forall q :: 0 <= q < |s.procs| && q != p ==> t.procs[q] == s.procs[q]
    requires forall k :: k in s.locks && s.locks[k] != p ==> k in t.locks && t.locks[k] == s.locks[k]
    requires forall k :: k in t.locks ==>
               || (k in s.locks && t.locks[k] == s.locks[k] && s.locks[k] != p)
               || (t.locks[k] == p && InCritical(t.procs[p]) && KeyOf(pr, t.procs[p].row) == k)
    requires ProcOk(pr, t, p)
    ensures Inv(pr, t)
  {
    forall q | 0 <= q < |t.procs| ensures ProcOk(pr, t, q) {
      if q != p {
        assert ProcOk(pr, s, q);
      }
    }
  }

  lemma EndKeepsInv(pr: Protocol, s: State, p: nat)
    requires Inv(pr, s) && p < |s.procs|
    ensures Inv(pr, End(pr, s, p))
  {
    assert ProcOk(pr, s, p);
    OthersKept(pr, s, End(pr, s, p), p);
  }

  lemma ArriveKeepsInv(pr: Protocol, s: State, proc: Proc)
    requires Inv(pr, s) && FreshProc(s, proc)
    ensures Inv(pr, Next(pr, s, Arrive(proc)))
  {
    var t := Next(pr, s, Arrive(proc));
    forall q | 0 <= q < |t.procs| ensures ProcOk(pr, t, q) {
      if q < |s.procs| {
        assert ProcOk(pr, s, q);
      }
    }
  }

  lemma LocalStepKeepsInv(pr: Protocol, s: State, step: Step)
    requires Inv(pr, s) && Enabled(pr, s, step) && (step.Acquire? || step.Check? || step.Read? || step.Abort?)
    ensures Inv(pr, Next(pr, s, step))
  {
    assert ProcOk(pr, s, step.p);
    EndKeepsInv(pr, s, step.p);
    if step.Acquire? || step.Read? || step.Check? {
      if Next(pr, s, step) != End(pr, s, step.p) {
        OthersKept(pr, s, Next(pr, s, step), step.p);
      }
    }
  }

  /** A new row conflicts with no other checked request: requests for one turf and date share a key, whatever the key function. */
  lemma InsertKeepsInv(pr: Protocol, s: State, p: nat)
    requires Inv(pr, s) && Enabled(pr, s, Insert(p))
    ensures Inv(pr, Next(pr, s, Insert(p)))
  {
    var row := s.procs[p].row;
    var ended, t := End(pr, s, p), Next(pr, s, Insert(p));
    assert ProcOk(pr, s, p);
    EndKeepsInv(pr, s, p);
    AppendKeepsNoOverlap(s.rows, row);
    forall q | 0 <= q < |t.procs| ensures ProcOk(pr, t, q) {
      assert ProcOk(pr, s, q) && ProcOk(pr, ended, q);
      if t.procs[q].Creating? && t.procs[q].phase.Checked? {
        var other := t.procs[q].row;
        assert q != p && KeyOf(pr, other) != KeyOf(pr, row);
        assert !Clashes(row, other.turf, other.date, other.start, other.end);
        NoConflictAppend(s.rows, row, other);
      }
    }
  }

  lemma NoConflictAppend(rows: seq<Booking>, row: Booking, other: Booking)
    requires !HasConflict(rows, other.turf, other.date, other.start, other.end)
    requires !Clashes(row, other.turf, other.date, other.start, other.end)
    ensures !HasConflict(rows + [row], other.turf, other.date, other.start, other.end)
  {
    forall i | 0 <= i < |rows + [row]| ensures !Clashes((rows + [row])[i], other.turf, other.date, other.start, other.end) {
      if i < |rows| {
        assert !Clashes(rows[i], other.turf, other.date, other.start, other.end);
      }
    }
  }

  lemma WriteKeepsInv(pr: Protocol, s: State, p: nat)
    requires Inv(pr, s) && Enabled(pr, s, Write(p)) && !Stale(s, p)
    ensures Inv(pr, Next(pr, s, Write(p)))
  {
    var u := s.procs[p];
    var t := Next(pr, s, Write(p));
    assert ProcOk(pr, s, p);
    UpdateKeepsNoOverlap(s.rows, u.id, t.rows[u.id]);
    forall q | 0 <= q < |t.procs| ensures ProcOk(pr, t, q) {
      assert ProcOk(pr, s, q);
      if q != p && t.procs[q].Creating? && t.procs[q].phase.Checked? {
        var other := t.procs[q].row;
        forall i | 0 <= i < |t.rows| ensures !Clashes(t.rows[i], other.turf, other.date, other.start, other.end) {
          assert !Clashes(s.rows[i], other.turf, other.date, other.start, other.end);
        }
      }
    }
  }

  /** Every step but a stale write keeps the invariant. */
  lemma StepKeepsInv(pr: Protocol, s: State, step: Step)
    requires Inv(pr, s) && Enabled(pr, s, step)
    requires step.Write? ==> !Stale(s, step.p)
    ensures Inv(pr, Next(pr, s, step))
  {
    match step
    case Arrive(proc) => ArriveKeepsInv(pr, s, proc);
    case Insert(p) => InsertKeepsInv(pr, s, p);
    case Write(p) => WriteKeepsInv(pr, s, p);
    case _ => LocalStepKeepsInv(pr, s, step);
  }

  // ---- Whole runs ----

  lemma {:induction false} ReachesCompose(pr: Protocol, s: State, a: seq<Step>, m: State, b: seq<Step>, t: State)
    requires Reaches(pr, s, a, m) && Reaches(pr, m, b, t)
    ensures Reaches(pr, s, a + b, t)
    decreases |a|
  {
    if a == [] {
      assert a + b == b;
    } else {
      assert (a + b)[1..] == a[1..] + b;
      ReachesCompose(pr, Next(pr, s, a[0]), a[1..], m, b, t);
    }
  }

  lemma ReachesOne(pr: Protocol, s: State, step: Step)
    requires Enabled(pr, s, step)
    ensures Reaches(pr, s, [step], Next(pr, s, step))
  {
    assert [step][1..] == [];
    assert Reaches(pr, Next(pr, s, step), [], Next(pr, s, step));
  }

  lemma ReachesThen(pr: Protocol, s: State, steps: seq<Step>, m: State, step: Step)
    requires Reaches(pr, s, steps, m) && Enabled(pr, m, step)
    ensures Reaches(pr, s, steps + [step], Next(pr, m, step))
  {
    ReachesOne(pr, m, step);
    ReachesCompose(pr, s, steps, m, [step], Next(pr, m, step));
  }

  /** No step of the run is a stale write. */
  ghost predicate NoStaleWrite(pr: Protocol, s: State, steps: seq<Step>)
    decreases |steps|
  {
    steps != [] && Enabled(pr, s, steps[0]) ==>
      (steps[0].Write? ==> !Stale(s, steps[0].p)) && NoStaleWrite(pr, Next(pr, s, steps[0]), steps[1..])
  }

  /** Safety over every interleaving, for any key function: without stale writes no two active bookings ever overlap. */
  lemma {:induction false} NoDoubleBooking(pr: Protocol, s: State, steps: seq<Step>, t: State)
    requires Inv(pr, s) && Reaches(pr, s, steps, t) && NoStaleWrite(pr, s, steps)
    ensures Inv(pr, t) && HeldOnce(t.rows)
    decreases |steps|
  {
    if steps != [] {
      StepKeepsInv(pr, s, steps[0]);
      NoDoubleBooking(pr, Next(pr, s, steps[0]), steps[1..], t);
    }
  }

  /** What one write does: the table stays free of overlaps unless the write activates an inactive row whose range is taken by
      now. */
  lemma WriteKeepsNoOverlapIff(pr: Protocol, s: State, p: nat)
    requires Inv(pr, s) && Enabled(pr, s, Write(p))
    ensures var b := s.rows[s.procs[p].id];
            NoOverlap(Next(pr, s, Write(p)).rows) <==> !(Stale(s, p) && HasConflict(s.rows, b.turf, b.date, b.start, b.end))
  {
    var id, rows := s.procs[p].id, Next(pr, s, Write(p)).rows;
    var b := s.rows[id];
    if Stale(s, p) && HasConflict(s.rows, b.turf, b.date, b.start, b.end) {
      var i :| 0 <= i < |s.rows| && Clashes(s.rows[i], b.turf, b.date, b.start, b.end);
      assert i != id && RowsClash(rows[id], rows[i]);
    } else if Stale(s, p) {
      forall i, j | 0 <= i < |rows| && 0 <= j < |rows| && i != j ensures !RowsClash(rows[i], rows[j]) {
        assert !RowsClash(s.rows[i], s.rows[j]);
        assert !Clashes(s.rows[i], b.turf, b.date, b.start, b.end) && !Clashes(s.rows[j], b.turf, b.date, b.start, b.end);
      }
    } else {
      UpdateKeepsNoOverlap(s.rows, id, rows[id]);
    }
  }

  /** A write that finds its row as it was read is never stale, follows one transition and raises the version by one. */
  lemma UnchangedIsNotStale(pr: Protocol, s: State, p: nat)
    requires Inv(pr, s) && Enabled(pr, s, Write(p)) && Unchanged(s, p)
    ensures !Stale(s, p)
    ensures var b := s.rows[s.procs[p].id];
            var b' := Next(pr, s, Write(p)).rows[s.procs[p].id];
            CanTransition(b.status, b'.status) && b'.version == b.version + 1
  {
    assert ProcOk(pr, s, p);
  }

  /** No interleaving ever books a minute of a turf twice. */
  ghost predicate SafeForever(pr: Protocol, s: State) {
    forall steps, t :: Reaches(pr, s, steps, t) ==> HeldOnce(t.rows)
  }

  /** The guard rejects every stale write that any interleaving comes to. */
  ghost predicate GuardRejectsStale(pr: Protocol, s: State) {
    forall steps, t, p :: Reaches(pr, s, steps, t) ==> !StaleWrite(pr, t, p)
  }

  /** A stale write that the guard lets through. */
  predicate StaleWrite(pr: Protocol, s: State, p: nat) {
    Enabled(pr, s, Write(p)) && Stale(s, p)
  }

  /** Whenever a stale write is let through, some continuation books the same range twice. */
  lemma StaleWriteDoubleBooks(pr: Protocol, s: State, p: nat) returns (steps: seq<Step>, t: State)
    requires Inv(pr, s) && StaleWrite(pr, s, p)
    ensures Reaches(pr, s, steps, t) && !HeldOnce(t.rows)
  {
    var id := s.procs[p].id;
    var b := s.rows[id];
    if HasConflict(s.rows, b.turf, b.date, b.start, b.end) {
      steps, t := [Write(p)], Next(pr, s, Write(p));
      ReachesOne(pr, s, Write(p));
      var i :| 0 <= i < |s.rows| && Clashes(s.rows[i], b.turf, b.date, b.start, b.end);
      assert i != id && RowsClash(t.rows[id], t.rows[i]);
      UprightShareIff(t.rows[id], t.rows[i]);
    } else {
      var freed, free := ReleaseLock(pr, s, p);
      var booking, taken := BookRange(pr, free, b.(status := Pending));
      ReachesCompose(pr, s, freed, free, booking, taken);
      steps, t := freed + booking + [Write(p)], Next(pr, taken, Write(p));
      ReachesThen(pr, s, freed + booking, taken, Write(p));
      var n := |s.rows|;
      assert t.rows[n] == b.(status := Pending);
      assert RowsClash(t.rows[id], t.rows[n]);
      UprightShareIff(t.rows[id], t.rows[n]);
    }
  }

  /** The lock of row b's turf and date can be freed without touching rows or request p: its holder fails. */
  lemma ReleaseLock(pr: Protocol, s: State, p: nat) returns (steps: seq<Step>, t: State)
    requires Inv(pr, s) && Stale(s, p)
    ensures Reaches(pr, s, steps, t) && Inv(pr, t) && t.rows == s.rows
    ensures |t.procs| == |s.procs| && t.procs[p] == s.procs[p]
    ensures KeyOf(pr, s.rows[s.procs[p].id]) !in t.locks
  {
    var k := KeyOf(pr, s.rows[s.procs[p].id]);
    if k in s.locks {
      var q := s.locks[k];
      steps, t := [Abort(q)], Next(pr, s, Abort(q));
      ReachesOne(pr, s, Abort(q));
      StepKeepsInv(pr, s, Abort(q));
    } else {
      steps, t := [], s;
    }
  }

  /** A free range whose lock is free can be booked by a newly arriving request. */
  lemma BookRange(pr: Protocol, s: State, row: Booking) returns (steps: seq<Step>, t: State)
    requires row.start < row.end && IsActive(row.status) && KeyOf(pr, row) !in s.locks
    requires !HasConflict(s.rows, row.turf, row.date, row.start, row.end)
    ensures Reaches(pr, s, steps, t) && t.rows == s.rows + [row]
    ensures |t.procs| == |s.procs| + 1 && t.procs[..|s.procs|] == s.procs
  {
    var n := |s.procs|;
    var s1 := Next(pr, s, Arrive(Creating(row, Waiting)));
    var s2 := Next(pr, s1, Acquire(n));
    var s3 := Next(pr, s2, Check(n));
    t := Next(pr, s3, Insert(n));
    steps := [Arrive(Creating(row, Waiting))] + [Acquire(n)] + [Check(n)] + [Insert(n)];
    ReachesOne(pr, s, Arrive(Creating(row, Waiting)));
    ReachesThen(pr, s, [Arrive(Creating(row, Waiting))], s1, Acquire(n));
    ReachesThen(pr, s, [Arrive(Creating(row, Waiting))] + [Acquire(n)], s2, Check(n));
    ReachesThen(pr, s, [Arrive(Creating(row, Waiting))] + [Acquire(n)] + [Check(n)], s3, Insert(n));
  }

  lemma {:induction false} FirstStale(pr: Protocol, s: State, steps: seq<Step>, t: State, p: nat)
    returns (pre: seq<Step>, m: State, q: nat)
    requires Inv(pr, s) && Reaches(pr, s, steps, t) && StaleWrite(pr, t, p)
    ensures Reaches(pr, s, pre, m) && Inv(pr, m) && StaleWrite(pr, m, q)
    decreases |steps|
  {
    if steps == [] {
      pre, m, q := [], s, p;
    } else if steps[0].Write? && Stale(s, steps[0].p) {
      pre, m, q := [], s, steps[0].p;
    } else {
      StepKeepsInv(pr, s, steps[0]);
      var rest;
      rest, m, q := FirstStale(pr, Next(pr, s, steps[0]), steps[1..], t, p);
      pre := [steps[0]] + rest;
      assert pre[1..] == rest;
    }
  }

  lemma {:induction false} RejectingRunsAreQuiet(pr: Protocol, s: State, steps: seq<Step>, t: State)
    requires Reaches(pr, s, steps, t) && GuardRejectsStale(pr, s)
    ensures NoStaleWrite(pr, s, steps)
    decreases |steps|
  {
    if steps != [] {
      assert Reaches(pr, s, [], s);
      assert steps[0].Write? ==> !StaleWrite(pr, s, steps[0].p);
      var m := Next(pr, s, steps[0]);
      forall rest, u, p | Reaches(pr, m, rest, u) ensures !StaleWrite(pr, u, p) {
        ReachesOne(pr, s, steps[0]);
        ReachesCompose(pr, s, [steps[0]], m, rest, u);
      }
      RejectingRunsAreQuiet(pr, m, steps[1..], t);
    }
  }

  /** For every guard and every key function: from a sound state no interleaving ever books a minute twice if and only if the
      guard rejects every stale write that an interleaving comes to. */
  lemma SafeIffGuardRejectsStale(pr: Protocol, s: State)
    requires Inv(pr, s)
    ensures SafeForever(pr, s) <==> GuardRejectsStale(pr, s)
  {
    if GuardRejectsStale(pr, s) {
      forall steps, t | Reaches(pr, s, steps, t) ensures HeldOnce(t.rows) {
        RejectingRunsAreQuiet(pr, s, steps, t);
        NoDoubleBooking(pr, s, steps, t);
      }
    } else {
      var steps, t, p :| Reaches(pr, s, steps, t) && StaleWrite(pr, t, p);
      var pre, m, q := FirstStale(pr, s, steps, t, p);
      var rest, u := StaleWriteDoubleBooks(pr, m, q);
      ReachesCompose(pr, s, pre, m, rest, u);
    }
  }

  /** The guard lets no inactive row become active, whatever was read. */
  ghost predicate NeverRevives(guard: Guard) {
    forall b, seen, target :: guard(b, seen, target) && CanTransition(seen.status, target) && IsActive(target) ==>
      IsActive(b.status)
  }

  lemma {:induction false} RevivingNothingIsQuiet(pr: Protocol, s: State, steps: seq<Step>, t: State)
    requires Inv(pr, s) && NeverRevives(pr.guard) && Reaches(pr, s, steps, t)
    ensures NoStaleWrite(pr, s, steps)
    decreases |steps|
  {
    if steps != [] {
      if steps[0].Write? {
        assert ProcOk(pr, s, steps[0].p);
      }
      StepKeepsInv(pr, s, steps[0]);
      RevivingNothingIsQuiet(pr, Next(pr, s, steps[0]), steps[1..], t);
    }
  }

  /** A condition on the guard alone that makes every run safe, from any sound state. */
  lemma SafeWhenGuardNeverRevives(pr: Protocol, s: State)
    requires Inv(pr, s) && NeverRevives(pr.guard)
    ensures SafeForever(pr, s)
  {
    forall steps, t | Reaches(pr, s, steps, t) ensures HeldOnce(t.rows) {
      RevivingNothingIsQuiet(pr, s, steps, t);
      NoDoubleBooking(pr, s, steps, t);
    }
  }

  /** Checking the version when writing makes every run safe. */
  lemma VersionCheckIsSafe(key: KeyFn, s: State)
    requires Inv(VersionChecked(key), s)
    ensures SafeForever(VersionChecked(key), s)
  {
    SafeWhenGuardNeverRevives(VersionChecked(key), s);
  }

  /** A guard that lets a late confirmation through on a booking cancelled since it was read reaches that very write: a
      callback reads the pending booking, the cancellation commits, and the confirmation is still to come. */
  lemma LateConfirmationIsReached(pr: Protocol, row: Booking) returns (steps: seq<Step>, t: State)
    requires row.start < row.end && row.status.Pending?
    requires pr.guard(row, Seen(Pending, row.version), Cancelled)
    requires pr.guard(row.(status := Cancelled, version := row.version + 1), Seen(Pending, row.version), Confirmed)
    ensures Reaches(pr, START, steps, t) && StaleWrite(pr, t, 1)
  {
    var booking, s0 := BookRange(pr, START, row);
    var confirm, cancel := Updating(0, [Confirmed], None), Updating(0, [Cancelled], None);
    var s1 := Next(pr, s0, Arrive(confirm));
    var s2 := Next(pr, s1, Read(1));
    var s3 := Next(pr, s2, Arrive(cancel));
    var s4 := Next(pr, s3, Read(2));
    t := Next(pr, s4, Write(2));
    var a1 := booking + [Arrive(confirm)];
    var a2 := a1 + [Read(1)];
    var a3 := a2 + [Arrive(cancel)];
    var a4 := a3 + [Read(2)];
    steps := a4 + [Write(2)];
    ReachesThen(pr, START, booking, s0, Arrive(confirm));
    ReachesThen(pr, START, a1, s1, Read(1));
    ReachesThen(pr, START, a2, s2, Arrive(cancel));
    ReachesThen(pr, START, a3, s3, Read(2));
    ReachesThen(pr, START, a4, s4, Write(2));
  }

  /** So such a guard is unsafe from the empty database. */
  lemma UnsafeWhenGuardRevivesCancelled(pr: Protocol, row: Booking)
    requires row.start < row.end && row.status.Pending?
    requires pr.guard(row, Seen(Pending, row.version), Cancelled)
    requires pr.guard(row.(status := Cancelled, version := row.version + 1), Seen(Pending, row.version), Confirmed)
    ensures Inv(pr, START) && !SafeForever(pr, START)
  {
    var steps, t := LateConfirmationIsReached(pr, row);
    SafeIffGuardRejectsStale(pr, START);
  }

  /** The code as it stands has no guard: under any key function some interleaving from the empty database books a minute
      twice. */
  lemma ProtocolCanDoubleBook(key: KeyFn)
    ensures Inv(Unguarded(key), START) && !SafeForever(Unguarded(key), START)
  {
    UnsafeWhenGuardRevivesCancelled(Unguarded(key), Booking(0, 0, None, 0, 0, 60, 60, Pending, "regular", 0, 0, 0, 0, None, 1));
  }
}
