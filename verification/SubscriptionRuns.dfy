/** Weekly slots of live subscriptions over whole runs, and the one call that can make them collide. */
module SubscriptionRuns {
  import opened Common
  import opened Times
  import opened Store
  import opened Runs
  import opened Subscriptions
  import opened SubscriptionService
  import SubscriptionFacts

  predicate BothLive(a: Subscription, b: Subscription) {
    a.turf == b.turf && Live(a.status) && Live(b.status)
  }

  /** The slot takes up this minute of every such weekday. A slot that ends before it starts runs past midnight. */
  predicate HoldsWeekly(s: WeeklySlot, day: int, minute: int) {
    if s.start < s.end then s.day == day && s.start <= minute < s.end
    else (s.day == day && s.start <= minute < DAY_MINUTES) || ((s.day + 1) % 7 == day && 0 <= minute < s.end)
  }

  ghost predicate Meet(a: WeeklySlot, b: WeeklySlot) {
    exists day, minute :: HoldsWeekly(a, day, minute) && HoldsWeekly(b, day, minute)
  }

  /** For slots that end after they start, the check made at initiation detects exactly a shared minute. */
  lemma UprightMeetIff(a: WeeklySlot, b: WeeklySlot)
    requires a.start < a.end && b.start < b.end
    ensures Meet(a, b) <==> Collide(a, b)
  {
    if Collide(a, b) {
      var minute := Max(a.start, b.start);
      assert HoldsWeekly(a, a.day, minute) && HoldsWeekly(b, a.day, minute);
    }
  }

  /** Live subscriptions of one turf never share a minute of the week, neither within a subscription nor between two. */
  ghost predicate SlotsDisjoint(subs: seq<Subscription>) {
    forall i, j, x, y ::
      && 0 <= i < |subs| && 0 <= j < |subs| && 0 <= x < |subs[i].slots| && 0 <= y < |subs[j].slots|
      && (i, x) != (j, y) && BothLive(subs[i], subs[j]) ==>
        !Meet(subs[i].slots[x], subs[j].slots[y])
  }

  /** The slots of this subscription avoid one another and those of every other live subscription of its turf. */
  ghost predicate Avoids(subs: seq<Subscription>, id: nat)
    requires id < |subs|
  {
    && (forall x, y :: 0 <= x < y < |subs[id].slots| ==> !Meet(subs[id].slots[x], subs[id].slots[y]))
    && forall j, x, y ::
         && 0 <= j < |subs| && j != id && subs[j].turf == subs[id].turf && Live(subs[j].status)
         && 0 <= x < |subs[id].slots| && 0 <= y < |subs[j].slots| ==>
           !Meet(subs[id].slots[x], subs[j].slots[y])
  }

  ghost predicate UprightSlots(slots: seq<WeeklySlot>) {
    forall x :: 0 <= x < |slots| ==> slots[x].start < slots[x].end
  }

  ghost predicate UprightSubs(subs: seq<Subscription>) {
    forall i :: 0 <= i < |subs| ==> UprightSlots(subs[i].slots)
  }

  lemma {:induction false} LiveSlotListed(subs: seq<Subscription>, turf: nat, j: nat, y: nat)
    requires j < |subs| && subs[j].turf == turf && Live(subs[j].status) && y < |subs[j].slots|
    ensures subs[j].slots[y] in LiveSlots(subs, turf)
  {
    if j < |subs| - 1 {
      LiveSlotListed(subs[..|subs| - 1], turf, j, y);
    }
  }

  lemma FreeSlotAvoidsHeld(rows: seq<Store.Booking>, held: seq<WeeklySlot>, turf: nat, s: WeeklySlot, today: int, other: WeeklySlot)
    requires ConflictError(rows, held, turf, s, today).None? && other in held
    ensures !Collide(s, other)
  {
    SubscriptionFacts.HolderChecksAgree(held, s);
    var k :| 0 <= k < |held| && held[k] == other;
    assert !SlotMeets(held[k], s.day, s.start, s.end);
  }

  /** The checks at initiation keep a new subscription off all others when no slot reaches midnight. */
  lemma EarlyStartAvoids(cfg: Config, db: Db, req: Request, today: int)
    requires req.Valid() && EarlyOp(StartSubscription(req, today)) && UprightSubs(db.subs)
    requires Initiate(cfg, db, req, today).db.subs != db.subs
    ensures Initiate(cfg, db, req, today).db.subs == db.subs + [NewSubscription(req, |db.txns|, today)]
    ensures Avoids(Initiate(cfg, db, req, today).db.subs, |db.subs|)
  {
    var slots, held := Normalized(req.slots), LiveSlots(db.subs, req.turf);
    var errors := ConflictErrors(db.bookings, held, req.turf, slots, today);
    assert FirstOf(errors).None? && !PickedSlotsCollide(slots);
    EarlySlotsUpright(req.slots);
    forall j, x, y |
      0 <= j < |db.subs| && db.subs[j].turf == req.turf && Live(db.subs[j].status)
      && 0 <= x < |slots| && 0 <= y < |db.subs[j].slots|
      ensures !Meet(slots[x], db.subs[j].slots[y])
    {
      LiveSlotListed(db.subs, req.turf, j, y);
      assert errors[x].None?;
      FreeSlotAvoidsHeld(db.bookings, held, req.turf, slots[x], today, db.subs[j].slots[y]);
      UprightMeetIff(slots[x], db.subs[j].slots[y]);
    }
    forall x, y | 0 <= x < y < |slots| ensures !Meet(slots[x], slots[y]) {
      UprightMeetIff(slots[x], slots[y]);
    }
    AvoidsWhenLast(db.subs, NewSubscription(req, |db.txns|, today));
  }

  lemma AvoidsWhenLast(subs: seq<Subscription>, s: Subscription)
    requires forall x, y :: 0 <= x < y < |s.slots| ==> !Meet(s.slots[x], s.slots[y])
    requires forall j, x, y ::
               0 <= j < |subs| && subs[j].turf == s.turf && Live(subs[j].status)
               && 0 <= x < |s.slots| && 0 <= y < |subs[j].slots| ==>
                 !Meet(s.slots[x], subs[j].slots[y])
    ensures Avoids(subs + [s], |subs|)
  {
  }

  /** Adding a live subscription leaves the live slots disjoint if and only if its slots avoid all the others. */
  lemma AppendKeepsDisjointIff(subs: seq<Subscription>, s: Subscription)
    requires SlotsDisjoint(subs) && Live(s.status)
    ensures SlotsDisjoint(subs + [s]) <==> Avoids(subs + [s], |subs|)
  {
    var all, n := subs + [s], |subs|;
    if SlotsDisjoint(all) {
      forall x, y | 0 <= x < y < |s.slots| ensures !Meet(s.slots[x], s.slots[y]) {
        assert BothLive(all[n], all[n]) && (n, x) != (n, y);
        assert !Meet(all[n].slots[x], all[n].slots[y]);
      }
      forall j, x, y |
        0 <= j < n && subs[j].turf == s.turf && Live(subs[j].status) && 0 <= x < |s.slots| && 0 <= y < |subs[j].slots|
        ensures !Meet(s.slots[x], subs[j].slots[y])
      {
        assert BothLive(all[n], all[j]) && (n, x) != (j, y);
        assert !Meet(all[n].slots[x], all[j].slots[y]);
      }
    }
    if Avoids(all, n) {
      forall i, j, x, y |
        && 0 <= i < |all| && 0 <= j < |all| && 0 <= x < |all[i].slots| && 0 <= y < |all[j].slots|
        && (i, x) != (j, y) && BothLive(all[i], all[j])
        ensures !Meet(all[i].slots[x], all[j].slots[y])
      {
        if i < n && j < n {
          assert BothLive(subs[i], subs[j]);
        } else if i == j {
          assert !Meet(s.slots[if x < y then x else y], s.slots[if x < y then y else x]);
        } else if i < n {
          assert !Meet(all[j].slots[y], all[i].slots[x]);
        }
      }
    }
  }

  /** Reviving or keeping a subscription leaves the live slots disjoint if and only if its slots avoid all the others. */
  lemma StatusChangeKeepsDisjointIff(subs: seq<Subscription>, id: nat, status: SubStatus)
    requires SlotsDisjoint(subs) && id < |subs|
    ensures SlotsDisjoint(subs[id := subs[id].(status := status)]) <==> !Live(status) || Live(subs[id].status) || Avoids(subs, id)
  {
    var all := subs[id := subs[id].(status := status)];
    if SlotsDisjoint(all) && Live(status) {
      forall x, y | 0 <= x < y < |subs[id].slots| ensures !Meet(subs[id].slots[x], subs[id].slots[y]) {
        assert BothLive(all[id], all[id]) && (id, x) != (id, y);
        assert !Meet(all[id].slots[x], all[id].slots[y]);
      }
      forall j, x, y |
        && 0 <= j < |subs| && j != id && subs[j].turf == subs[id].turf && Live(subs[j].status)
        && 0 <= x < |subs[id].slots| && 0 <= y < |subs[j].slots|
        ensures !Meet(subs[id].slots[x], subs[j].slots[y])
      {
        assert BothLive(all[id], all[j]) && (id, x) != (j, y);
        assert !Meet(all[id].slots[x], all[j].slots[y]);
      }
    }
    if !Live(status) || Live(subs[id].status) || Avoids(subs, id) {
      forall i, j, x, y |
        && 0 <= i < |all| && 0 <= j < |all| && 0 <= x < |all[i].slots| && 0 <= y < |all[j].slots|
        && (i, x) != (j, y) && BothLive(all[i], all[j])
        ensures !Meet(all[i].slots[x], all[j].slots[y])
      {
        if BothLive(subs[i], subs[j]) {
          assert !Meet(subs[i].slots[x], subs[j].slots[y]);
        } else if i == id && j == id {
          assert !Meet(subs[id].slots[if x < y then x else y], subs[id].slots[if x < y then y else x]);
        } else if i == id {
          assert !Meet(subs[id].slots[x], subs[j].slots[y]);
        } else {
          assert !Meet(subs[id].slots[y], subs[i].slots[x]);
        }
      }
    }
  }

  /** An activation of this call would revive a subscription that is no longer live. */
  predicate Revives(db: Db, op: Op) {
    op.ActivateSubscription? &&
      var r := SubByPayment(db.subs, op.payment);
      r.OneRow? && !Live(db.subs[r.id].status)
  }

  /** The call stores a new subscription. */
  predicate Starts(cfg: Config, db: Db, op: Op)
    requires ValidOp(op)
  {
    op.StartSubscription? && Initiate(cfg, db, op.subRequest, op.today).outcome.Done?
  }

  lemma StartKeepsDisjointIff(cfg: Config, db: Db, r: Request, today: int)
    requires SlotsDisjoint(db.subs) && r.Valid()
    ensures var subs := Initiate(cfg, db, r, today).db.subs;
            if Starts(cfg, db, StartSubscription(r, today))
            then |subs| == |db.subs| + 1 && (SlotsDisjoint(subs) <==> Avoids(subs, |db.subs|))
            else subs == db.subs
  {
    if Initiate(cfg, db, r, today).outcome.Done? {
      AppendKeepsDisjointIff(db.subs, NewSubscription(r, |db.txns|, today));
    }
  }

  lemma ActivateKeepsDisjointIff(db: Db, payment: nat, today: int)
    requires SlotsDisjoint(db.subs)
    ensures SlotsDisjoint(Activate(db, payment, today).db.subs) <==>
              !Revives(db, ActivateSubscription(payment, today)) || Avoids(db.subs, SubByPayment(db.subs, payment).id)
  {
    var r := SubByPayment(db.subs, payment);
    if r.OneRow? {
      StatusChangeKeepsDisjointIff(db.subs, r.id, SubActive);
    }
  }

  /** One call: disjointness survives if and only if a subscription that the call stores or revives avoids the live ones. */
  lemma CallKeepsDisjointIff(cfg: Config, db: Db, op: Op)
    requires SlotsDisjoint(db.subs) && ValidOp(op)
    ensures var subs := Apply(cfg, db, op).db.subs;
            SlotsDisjoint(subs) <==>
              && (Starts(cfg, db, op) ==> |subs| == |db.subs| + 1 && Avoids(subs, |db.subs|))
              && (Revives(db, op) ==> Avoids(db.subs, SubByPayment(db.subs, op.payment).id))
  {
    match op
    case StartSubscription(r, today) =>
      StartKeepsDisjointIff(cfg, db, r, today);
    case ActivateSubscription(p, today) =>
      ActivateKeepsDisjointIff(db, p, today);
    case CancelSubscription(s, actor, isAdmin, past, today) =>
      CancelKeepsDisjoint(db, s, actor, isAdmin, past, today);
    case _ =>
      OtherCallsKeepSubs(cfg, db, op);
  }

  lemma CancelKeepsDisjoint(db: Db, s: nat, actor: nat, isAdmin: bool, past: bool, today: int)
    requires SlotsDisjoint(db.subs)
    ensures SlotsDisjoint(Cancel(db, s, actor, isAdmin, past, today).db.subs)
  {
    if s < |db.subs| {
      StatusChangeKeepsDisjointIff(db.subs, s, SubCancelled);
    }
  }

  lemma OtherCallsKeepSubs(cfg: Config, db: Db, op: Op)
    requires ValidOp(op) && !op.StartSubscription? && !op.ActivateSubscription? && !op.CancelSubscription?
    ensures Apply(cfg, db, op).db.subs == db.subs
  {
  }

  /** No call of the run revives a dead subscription. */
  ghost predicate NeverRevives(cfg: Config, db: Db, ops: seq<Op>)
    requires forall op :: op in ops ==> ValidOp(op)
  {
    forall n :: 0 <= n < |ops| ==> !Revives(Run(cfg, db, ops[..n]), ops[n])
  }

  lemma CallKeepsUprightSubs(cfg: Config, db: Db, op: Op)
    requires UprightSubs(db.subs) && ValidOp(op) && EarlyOp(op)
    ensures UprightSubs(Apply(cfg, db, op).db.subs)
  {
    match op
    case StartSubscription(r, today) =>
      var subs := Initiate(cfg, db, r, today).db.subs;
      assert subs == db.subs || subs == db.subs + [NewSubscription(r, |db.txns|, today)];
      EarlySlotsUpright(r.slots);
    case ActivateSubscription(_, _) =>
    case CancelSubscription(_, _, _, _, _) =>
    case _ =>
      OtherCallsKeepSubs(cfg, db, op);
  }

  /** In runs that start no slot reaching midnight and activate only pending subscriptions, live subscriptions never share a
      minute. */
  lemma {:induction false} LiveSlotsStayDisjoint(cfg: Config, db: Db, ops: seq<Op>)
    requires SlotsDisjoint(db.subs) && UprightSubs(db.subs)
    requires (forall op :: op in ops ==> ValidOp(op) && EarlyOp(op)) && NeverRevives(cfg, db, ops)
    ensures SlotsDisjoint(Run(cfg, db, ops).subs) && UprightSubs(Run(cfg, db, ops).subs)
  {
    if ops != [] {
      var n := |ops| - 1;
      assert forall m :: 0 <= m < n ==> ops[..n][..m] == ops[..m];
      LiveSlotsStayDisjoint(cfg, db, ops[..n]);
      assert ops[n] in ops;
      var mid := Run(cfg, db, ops[..n]);
      CallKeepsUprightSubs(cfg, mid, ops[n]);
      CallKeepsDisjointIff(cfg, mid, ops[n]);
      if Starts(cfg, mid, ops[n]) {
        EarlyStartAvoids(cfg, mid, ops[n].subRequest, ops[n].today);
      }
    }
  }

  // ---- Runs of one-hour subscriptions ----

  /** Customers who ask for the same weekly hour, from today's weekday on. */
  datatype Hour = Hour(turf: nat, plan: nat, today: int, start: int)

  /** The turf is open and the plan grants one weekly hour at any time. */
  predicate OffersHour(cfg: Config, h: Hour) {
    && IsTime(h.start) && TurfOf(cfg, h.turf).active
    && h.plan in cfg.plans
    && var p := cfg.plans[h.plan]; p.monthly && p.active && SlotsPerWeek(p) == 1 && p.windowStart.None? && p.windowEnd.None?
  }

  function HourSlot(h: Hour): WeeklySlot {
    WeeklySlot(Weekday(h.today), h.start, AddMinutes(h.start, SLOT_MINUTES))
  }

  function HourRequest(h: Hour, user: nat): Request {
    Request(user, true, true, true, h.plan, h.turf, [SlotInput(Weekday(h.today), h.start, None)])
  }

  function HourSub(h: Hour, user: nat, status: SubStatus, payment: nat): Subscription {
    Subscription(user, h.plan, h.turf, status, Some(h.today), Some(h.today + 28), Some(payment), [HourSlot(h)])
  }

  function HourTxn(cfg: Config, h: Hour, user: nat, status: TxnStatus): Txn
    requires h.plan in cfg.plans
  {
    Txn(None, user, UpiManual, None, None, cfg.plans[h.plan].price, status, None)
  }

  function WithHour(cfg: Config, h: Hour, db: Db, user: nat): Db
    requires h.plan in cfg.plans
  {
    db.(txns := db.txns + [HourTxn(cfg, h, user, Initiated)], subs := db.subs + [HourSub(h, user, SubPending, |db.txns|)])
  }

  /** No live subscription passes for holding the hour. */
  predicate HourLooksFree(h: Hour, db: Db) {
    db.bookings == [] && Holders(LiveSlots(db.subs, h.turf), HourSlot(h)).NoRow?
  }

  lemma HourPasses(cfg: Config, h: Hour, db: Db, user: nat)
    requires OffersHour(cfg, h) && HourLooksFree(h, db)
    ensures RequestError(cfg, db, HourRequest(h, user), h.today).None?
  {
    var s := SlotInput(Weekday(h.today), h.start, None);
    assert Normalized(HourRequest(h, user).slots) == [HourSlot(h)];
    assert SlotErrors(cfg.plans[h.plan], [s]) == [None];
    assert !BookedOnSomeDate([], h.turf, HourSlot(h), h.today);
    assert ConflictErrors([], LiveSlots(db.subs, h.turf), h.turf, [HourSlot(h)], h.today) == [None];
  }

  lemma SingleSlotRow(req: Request, s: SlotInput, payment: nat, today: int)
    requires req.slots == [s]
    ensures var first := NextOccurrence(s.day, today);
            NewSubscription(req, payment, today) ==
              Subscription(req.user, req.plan, req.turf, SubPending, Some(first), Some(first + 28), Some(payment), [Derived(s)])
  {
    assert Normalized([s]) == [Derived(s)];
    assert EarliestStart([Derived(s)], today) == NextOccurrence(s.day, today);
  }

  lemma AcceptedIsStored(cfg: Config, db: Db, req: Request, today: int)
    requires req.Valid() && RequestError(cfg, db, req, today).None?
    ensures Apply(cfg, db, StartSubscription(req, today)) ==
              After(db.(txns := db.txns + [Txn(None, req.user, UpiManual, None, None, cfg.plans[req.plan].price, Initiated, None)],
                        subs := db.subs + [NewSubscription(req, |db.txns|, today)]), Done)
  {
  }

  lemma HourIsValid(h: Hour, user: nat)
    requires IsTime(h.start)
    ensures HourRequest(h, user).Valid()
    ensures h.start < DAY_MINUTES - SLOT_MINUTES ==> EarlyOp(StartSubscription(HourRequest(h, user), h.today))
  {
  }

  lemma HourIsStored(h: Hour, user: nat, payment: nat)
    ensures NewSubscription(HourRequest(h, user), payment, h.today) == HourSub(h, user, SubPending, payment)
  {
    SingleSlotRow(HourRequest(h, user), SlotInput(Weekday(h.today), h.start, None), payment, h.today);
    NextOccurrenceUnique(Weekday(h.today), h.today, h.today);
  }

  lemma HourAccepted(cfg: Config, h: Hour, db: Db, user: nat)
    requires OffersHour(cfg, h) && HourLooksFree(h, db) && HourRequest(h, user).Valid()
    ensures Apply(cfg, db, StartSubscription(HourRequest(h, user), h.today)) == After(WithHour(cfg, h, db, user), Done)
  {
    HourPasses(cfg, h, db, user);
    AcceptedIsStored(cfg, db, HourRequest(h, user), h.today);
    HourIsStored(h, user, |db.txns|);
  }

  lemma ReportStep(cfg: Config, db: Db, t: nat, user: nat)
    requires t < |db.txns| && db.txns[t].user == user && db.txns[t].status.Initiated?
    ensures Apply(cfg, db, SubmitUtr(user, t)) == After(db.(txns := db.txns[t := db.txns[t].(status := Processing)]), Done)
  {
  }

  lemma VerifyStep(cfg: Config, db: Db, t: nat)
    requires t < |db.txns| && db.txns[t].booking.None? && db.txns[t].status.Processing?
    ensures Apply(cfg, db, VerifyUpi(t)) ==
              After(db.(txns := db.txns[t := db.txns[t].(status := Success)], events := db.events + [PaymentSuccess(t)]), Done)
  {
    assert db.events + [PaymentSuccess(t)] + [] == db.events + [PaymentSuccess(t)];
  }

  // ---- The one call that makes early slots collide ----

  lemma HourCancelled(cfg: Config, h: Hour, db: Db)
    requires db.bookings == [] && db.subs == [HourSub(h, 1, SubPending, 0)]
    ensures Apply(cfg, db, CancelSubscription(0, 1, false, false, h.today)).db ==
              db.(subs := [HourSub(h, 1, SubCancelled, 0)], events := db.events + [SubscriptionCancelled(0, 0)])
  {
  }

  lemma TwoHolders(h: Hour, db: Db)
    requires 0 <= h.start < DAY_MINUTES - SLOT_MINUTES
    requires db.subs == [HourSub(h, 1, SubCancelled, 0), HourSub(h, 2, SubPending, 1)]
    ensures SlotsDisjoint(db.subs) && !SlotsDisjoint(Activate(db, 0, h.today).db.subs)
  {
    OneOrNoneMeaning(db.subs, (s: Subscription) => s.payment == Some(0));
    assert OnlyRow(db.subs, (s: Subscription) => s.payment == Some(0), 0);
    assert SubByPayment(db.subs, 0) == OneRow(0);
    assert SlotsDisjoint(db.subs);
    ActivateKeepsDisjointIff(db, 0, h.today);
    assert HoldsWeekly(HourSlot(h), Weekday(h.today), h.start);
    assert Meet(db.subs[0].slots[0], db.subs[1].slots[0]);
  }

  /** The first customer subscribes, reports the transfer and cancels; the second takes the hour; then the first payment is
      verified. */
  function LateVerification(h: Hour): seq<Op> {
    [StartSubscription(HourRequest(h, 1), h.today), SubmitUtr(1, 0), CancelSubscription(0, 1, false, false, h.today),
     StartSubscription(HourRequest(h, 2), h.today), VerifyUpi(0)]
  }

  lemma LateVerificationIsValid(h: Hour)
    requires IsTime(h.start)
    ensures forall op :: op in LateVerification(h) ==> ValidOp(op)
    ensures h.start < DAY_MINUTES - SLOT_MINUTES ==> forall op :: op in LateVerification(h) ==> EarlyOp(op)
  {
    HourIsValid(h, 1);
    HourIsValid(h, 2);
  }

  lemma LateVerificationEnds(cfg: Config, h: Hour, empty: Db)
    requires OffersHour(cfg, h) && empty.bookings == [] && empty.txns == [] && empty.subs == []
    requires forall op :: op in LateVerification(h) ==> ValidOp(op)
    ensures var db := Run(cfg, empty, LateVerification(h));
            && db.subs == [HourSub(h, 1, SubCancelled, 0), HourSub(h, 2, SubPending, 1)]
            && PaymentSuccess(0) in db.events
  {
    assert LateVerification(h)[0] in LateVerification(h) && LateVerification(h)[3] in LateVerification(h);
    var d1 := WithHour(cfg, h, empty, 1);
    var d2 := d1.(txns := [HourTxn(cfg, h, 1, Processing)]);
    var d3 := d2.(subs := [HourSub(h, 1, SubCancelled, 0)], events := d2.events + [SubscriptionCancelled(0, 0)]);
    var d4 := WithHour(cfg, h, d3, 2);
    var d5 := d4.(txns := [HourTxn(cfg, h, 1, Success), HourTxn(cfg, h, 2, Initiated)], events := d4.events + [PaymentSuccess(0)]);
    LateVerificationSteps(cfg, h, empty, d1, d2, d3, d4, d5);
    TraceIsRun(cfg, [empty, d1, d2, d3, d4, d5], LateVerification(h));
    assert d5.events[|d4.events|] == PaymentSuccess(0);
  }

  /** For any hour before 23:00, a run from the empty database that goes wrong: the first payment's success event revives the
      cancelled subscription, and two live subscriptions hold the same weekly hour. */
  lemma RevivalCollides(cfg: Config, h: Hour, empty: Db)
    requires OffersHour(cfg, h) && h.start < DAY_MINUTES - SLOT_MINUTES && empty.bookings == [] && empty.txns == []
             && empty.subs == []
    ensures forall op :: op in LateVerification(h) ==> ValidOp(op) && EarlyOp(op)
    ensures var db := Run(cfg, empty, LateVerification(h));
            && SlotsDisjoint(db.subs)
            && PaymentSuccess(0) in db.events
            && !SlotsDisjoint(Activate(db, 0, h.today).db.subs)
  {
    LateVerificationIsValid(h);
    LateVerificationEnds(cfg, h, empty);
    TwoHolders(h, Run(cfg, empty, LateVerification(h)));
  }

  lemma LateVerificationSteps(cfg: Config, h: Hour, empty: Db, d1: Db, d2: Db, d3: Db, d4: Db, d5: Db)
    requires OffersHour(cfg, h) && empty.bookings == [] && empty.txns == [] && empty.subs == []
    requires HourRequest(h, 1).Valid() && HourRequest(h, 2).Valid()
    requires d1 == WithHour(cfg, h, empty, 1)
    requires d2 == d1.(txns := [HourTxn(cfg, h, 1, Processing)])
    requires d3 == d2.(subs := [HourSub(h, 1, SubCancelled, 0)], events := d2.events + [SubscriptionCancelled(0, 0)])
    requires d4 == WithHour(cfg, h, d3, 2)
    requires d5 == d4.(txns := [HourTxn(cfg, h, 1, Success), HourTxn(cfg, h, 2, Initiated)],
                       events := d4.events + [PaymentSuccess(0)])
    ensures Trace(cfg, [empty, d1, d2, d3, d4, d5], LateVerification(h))
  {
    HourAccepted(cfg, h, empty, 1);
    ReportStep(cfg, d1, 0, 1);
    HourCancelled(cfg, h, d2);
    assert LiveSlots(d3.subs, h.turf) == [];
    HourAccepted(cfg, h, d3, 2);
    VerifyStep(cfg, d4, 0);
  }
}
