/** The day view of a turf put together, and how far it agrees with what booking accepts and charges. */
module AvailabilityAgreement {
  import opened Common
  import opened Times
  import opened BookingStates
  import opened Store
  import opened TurfAvailability
  import opened StableSort
  import opened Rounding
  import BookingService
  import Pricing

  // ---- The day view ----

  predicate InForce(rule: SlotRule, date: int) {
    && rule.day == Weekday(date) && rule.active
    && (rule.validFrom.Some? ==> date >= rule.validFrom.value)
    && (rule.validUntil.Some? ==> date <= rule.validUntil.value)
  }

  /** Ascending by start time: the keys are negated for the descending sort. */
  function ByStart(rules: seq<SlotRule>): seq<Keyed<SlotRule>> {
    seq(|rules|, i requires 0 <= i < |rules| => Keyed([-(rules[i].start as real)], rules[i]))
  }

  function Filter(rules: seq<SlotRule>, date: int): (r: seq<SlotRule>)
    ensures forall x :: x in r <==> x in rules && InForce(x, date)
  {
    if rules == [] then []
    else (if InForce(rules[0], date) then [rules[0]] else []) + Filter(rules[1..], date)
  }

  function DayRules(rules: seq<SlotRule>, date: int): seq<SlotRule> {
    Vals(SortDesc(ByStart(Filter(rules, date))))
  }

  lemma DayRulesAreInForce(rules: seq<SlotRule>, date: int)
    ensures forall r :: r in DayRules(rules, date) <==> r in rules && InForce(r, date)
  {
    var kept := Filter(rules, date);
    SortedVals(ByStart(kept));
    assert Vals(ByStart(kept)) == kept;
    assert forall r :: r in DayRules(rules, date) <==> r in multiset(DayRules(rules, date));
    assert forall r :: r in kept <==> r in multiset(kept);
  }

  function OverridesOn(turf: Turf, date: int): seq<SlotOverride> {
    if date in turf.overrides then turf.overrides[date] else []
  }

  /** The ranges of the slot-holding bookings of a turf and date. */
  function ActiveRanges(rows: seq<Booking>, turf: nat, date: int): seq<(int, int)> {
    if rows == [] then []
    else
      var b := rows[|rows| - 1];
      ActiveRanges(rows[..|rows| - 1], turf, date) +
      if b.turf == turf && b.date == date && IsActive(b.status) then [(b.start, b.end)] else []
  }

  predicate ValidRules(turf: Turf) {
    forall r :: r in turf.slotRules ==> r.Valid()
  }

  function DayView(turf: Turf, date: int): seq<Cell>
    requires ValidRules(turf)
  {
    DayRulesAreInForce(turf.slotRules, date);
    DayCells(DayRules(turf.slotRules, date), OverridesOn(turf, date))
  }

  /** The day's slots with every active booking marked: capacity and availability are what counting the overlaps gives. */
  method ComputeAvailability(db: Database, cfg: Config, turf: nat, date: int) returns (slots: seq<AvailableSlot>)
    requires ValidRules(TurfOf(cfg, turf))
    ensures var cells := DayView(TurfOf(cfg, turf), date);
            && |slots| == |cells|
            && forall i :: 0 <= i < |slots| ==>
                 var n := OverlapCount(ActiveRanges(db.bookings, turf, date), cells[i].start, cells[i].end);
                 && slots[i].cell == cells[i]
                 && slots[i].remainingCapacity == Remaining(cells[i].capacity, n)
                 && slots[i].isAvailable == StillFree(cells[i].capacity, n)
  {
    DayRulesAreInForce(TurfOf(cfg, turf).slotRules, date);
    slots := GenerateSlots(DayRules(TurfOf(cfg, turf).slotRules, date), OverridesOn(TurfOf(cfg, turf), date));
    MarkConflicts(slots, ActiveRanges(db.bookings, turf, date));
  }

  // ---- What the day view lists ----

  /** The cell is the k-th of this rule, on the rule's weekday and within its validity: it starts in the rule's hours and ends
      in them, a duration later or at 23:59. Neither the rule nor an override of the date blocks it. */
  predicate IsCellOf(c: Cell, rule: SlotRule, k: nat, overrides: seq<SlotOverride>, date: int) {
    && rule.active && rule.day == date % 7
    && (rule.validFrom.None? || rule.validFrom.value <= date) && (rule.validUntil.None? || date <= rule.validUntil.value)
    && rule.slotType != "blocked" && rule.slotType != "maintenance"
    && c.start == rule.start + k * rule.durationMins && c.start < rule.end
    && c.end == Min(c.start + rule.durationMins, 1439) && c.end <= rule.end
    && (forall o :: o in overrides && o.kind == Blocked && o.start.Some? && o.end.Some? ==>
          c.end <= o.start.value || o.end.value <= c.start)
    && c.durationMins == rule.durationMins && c.slotType == rule.slotType && c.capacity == rule.maxCapacity
    && c.basePrice == OverridePrice(overrides, c.start, c.end).GetOr(rule.basePrice)
  }

  lemma {:induction false} AllCellsAre(rules: seq<SlotRule>, overrides: seq<SlotOverride>, c: Cell)
    requires forall r :: r in rules ==> r.Valid()
    ensures c in AllCells(rules, overrides) <==> exists r :: r in rules && c in RuleCells(r, overrides)
  {
    if rules != [] {
      var n := |rules| - 1;
      AllCellsAre(rules[..n], overrides, c);
      assert rules == rules[..n] + [rules[n]];
    }
  }

  lemma CellOfRule(c: Cell, rule: SlotRule, k: nat, overrides: seq<SlotOverride>, date: int)
    requires rule.Valid() && InForce(rule, date)
    ensures IsCellOf(c, rule, k, overrides, date) <==>
              Bookable(rule) && Fits(rule, k) && !IsBlocked(overrides, CellStart(rule, k), CellEnd(rule, k))
              && c == CellAt(rule, overrides, k)
  {
    var s, e := CellStart(rule, k), CellEnd(rule, k);
    assert IsBlocked(overrides, s, e) <==>
             exists o :: o in overrides && o.kind == Blocked && o.start.Some? && o.end.Some?
                         && !(e <= o.start.value || o.end.value <= s)
    by {
      if IsBlocked(overrides, s, e) {
        var i :| 0 <= i < |overrides| && BlocksRange(overrides[i], s, e);
        assert overrides[i] in overrides;
      }
    }
  }

  /** The view lists exactly the cells of the turf's rules for that day, and nothing on a date blocked as a whole. */
  lemma DayViewExact(turf: Turf, date: int, c: Cell)
    requires ValidRules(turf)
    ensures c in DayView(turf, date) <==>
              && (forall o :: o in OverridesOn(turf, date) && o.kind == Blocked ==> o.start.Some?)
              && exists rule, k: nat :: rule in turf.slotRules && IsCellOf(c, rule, k, OverridesOn(turf, date), date)
  {
    var overrides, rules := OverridesOn(turf, date), DayRules(turf.slotRules, date);
    DayRulesAreInForce(turf.slotRules, date);
    AllCellsAre(rules, overrides, c);
    assert FullDayBlocked(overrides) <==> exists o :: o in overrides && o.kind == Blocked && o.start.None? by {
      if FullDayBlocked(overrides) {
        var i :| 0 <= i < |overrides| && overrides[i].kind.Blocked? && overrides[i].start.None?;
        assert overrides[i] in overrides;
      }
    }
    forall rule | rule in rules
      ensures c in RuleCells(rule, overrides) <==> exists k: nat :: IsCellOf(c, rule, k, overrides, date)
    {
      RuleHasCell(rule, overrides, date, c);
    }
    forall rule, k: nat | rule in turf.slotRules && IsCellOf(c, rule, k, overrides, date) ensures rule in rules {
    }
  }

  lemma RuleHasCell(rule: SlotRule, overrides: seq<SlotOverride>, date: int, c: Cell)
    requires rule.Valid() && InForce(rule, date)
    ensures c in RuleCells(rule, overrides) <==> exists k: nat :: IsCellOf(c, rule, k, overrides, date)
  {
    forall k: nat ensures IsCellOf(c, rule, k, overrides, date) <==>
                            Bookable(rule) && Fits(rule, k) && !IsBlocked(overrides, CellStart(rule, k), CellEnd(rule, k))
                            && c == CellAt(rule, overrides, k) {
      CellOfRule(c, rule, k, overrides, date);
    }
    if Bookable(rule) {
      RuleCellsExact(rule, overrides);
    }
  }

  /** The rules of a day are taken in the order of their opening. */
  lemma DayRulesAscend(rules: seq<SlotRule>, date: int, i: nat, j: nat)
    requires i < j < |DayRules(rules, date)|
    ensures DayRules(rules, date)[i].start <= DayRules(rules, date)[j].start
  {
    var keyed := ByStart(Filter(rules, date));
    var sorted := SortDesc(keyed);
    SortDescSorts(keyed);
    assert sorted[i] in multiset(keyed) && sorted[j] in multiset(keyed);
    assert LexLe(sorted[j].key, sorted[i].key);
    assert [-(sorted[j].val.start as real)][1..] == [];
  }

  // ---- Agreement with the conflict query ----

  lemma OverlapCountAppend(ranges: seq<(int, int)>, r: (int, int), start: int, end: int)
    ensures OverlapCount(ranges + [r], start, end) ==
              OverlapCount(ranges, start, end) + if Overlaps(start, end, r.0, r.1) then 1 else 0
  {
    assert (ranges + [r])[..|ranges|] == ranges;
  }

  lemma ConflictSplit(rows: seq<Booking>, turf: nat, date: int, start: int, end: int)
    requires rows != []
    ensures HasConflict(rows, turf, date, start, end) <==>
              HasConflict(rows[..|rows| - 1], turf, date, start, end) || Clashes(rows[|rows| - 1], turf, date, start, end)
  {
    var earlier := rows[..|rows| - 1];
    if HasConflict(earlier, turf, date, start, end) {
      var i :| 0 <= i < |earlier| && Clashes(earlier[i], turf, date, start, end);
      assert Clashes(rows[i], turf, date, start, end);
    }
    if HasConflict(rows, turf, date, start, end) {
      var i :| 0 <= i < |rows| && Clashes(rows[i], turf, date, start, end);
      assert i < |earlier| ==> Clashes(earlier[i], turf, date, start, end);
    }
  }

  /** Counting finds an overlap exactly when the conflict query finds a row. */
  lemma {:induction false} NoOverlapsIffNoConflict(rows: seq<Booking>, turf: nat, date: int, start: int, end: int)
    ensures OverlapCount(ActiveRanges(rows, turf, date), start, end) == 0 <==> !HasConflict(rows, turf, date, start, end)
  {
    if rows != [] {
      var b := rows[|rows| - 1];
      var earlier := ActiveRanges(rows[..|rows| - 1], turf, date);
      NoOverlapsIffNoConflict(rows[..|rows| - 1], turf, date, start, end);
      ConflictSplit(rows, turf, date, start, end);
      OverlapCountAppend(earlier, (b.start, b.end), start, end);
      assert earlier + [] == earlier;
    }
  }

  /** A listed slot shown as available is refused for a conflict exactly when some, but not all, of its capacity is taken; with
      capacity one the view and the conflict query always agree. */
  lemma AvailableButRefusedIff(rows: seq<Booking>, turf: nat, date: int, cell: Cell)
    requires cell.capacity >= 1
    ensures var n := OverlapCount(ActiveRanges(rows, turf, date), cell.start, cell.end);
            var refused := HasConflict(rows, turf, date, cell.start, cell.end);
            && (StillFree(cell.capacity, n) && refused <==> 1 <= n < cell.capacity)
            && (cell.capacity == 1 ==> (StillFree(cell.capacity, n) <==> !refused))
  {
    NoOverlapsIffNoConflict(rows, turf, date, cell.start, cell.end);
  }

  lemma {:induction false} CellHasRule(rules: seq<SlotRule>, overrides: seq<SlotOverride>, cell: Cell) returns (rule: SlotRule)
    requires (forall r :: r in rules ==> r.Valid()) && cell in AllCells(rules, overrides)
    ensures rule in rules && rule.start <= cell.start < cell.end <= rule.end && cell.capacity == rule.maxCapacity
  {
    var n := |rules| - 1;
    if cell in AllCells(rules[..n], overrides) {
      rule := CellHasRule(rules[..n], overrides, cell);
    } else {
      rule := rules[n];
      assert rule in rules;
      var cells := RuleCells(rule, overrides);
      var i :| 0 <= i < |cells| && cells[i] == cell;
      var k := OpenCellComesFrom(rule, overrides, CellCount(rule), i);
      GridShape(rule, k, k);
    }
  }

  /** Booking a slot that is listed as available, of capacity one, is never refused for a conflict or a missing rule. */
  lemma AvailableSlotCanBeBooked(cfg: Config, db: Db, req: BookingService.Request, today: int, cell: Cell)
    requires ValidRules(TurfOf(cfg, req.turf)) && cell in DayView(TurfOf(cfg, req.turf), req.date) && cell.capacity == 1
    requires StillFree(1, OverlapCount(ActiveRanges(db.bookings, req.turf, req.date), cell.start, cell.end))
    requires req.hasPhone && req.start == cell.start && req.end == cell.end
    ensures BookingService.Create(cfg, db, req, today).outcome == Done
  {
    var turf := TurfOf(cfg, req.turf);
    AvailableButRefusedIff(db.bookings, req.turf, req.date, cell);
    DayRulesAreInForce(turf.slotRules, req.date);
    var rule := CellHasRule(DayRules(turf.slotRules, req.date), OverridesOn(turf, req.date), cell);
    var i :| 0 <= i < |turf.slotRules| && turf.slotRules[i] == rule;
    assert BookingService.Covering(turf.slotRules[i], req.date, req.start, req.end);
    assert BookingService.BasePrice(turf.slotRules, req.date, req.start, req.end).Some?;
  }

  // ---- Agreement with the price charged ----

  /** The sum of the listed base prices of count consecutive grid cells from cell first. */
  function ListedSum(rule: SlotRule, overrides: seq<SlotOverride>, first: nat, count: nat): int {
    if count == 0 then 0
    else ListedSum(rule, overrides, first, count - 1) + CellAt(rule, overrides, first + count - 1).basePrice
  }

  lemma {:induction false} ListedWithoutOverrides(rule: SlotRule, overrides: seq<SlotOverride>, first: nat, count: nat)
    requires forall k :: first <= k < first + count ==> OverridePrice(overrides, CellStart(rule, k), CellEnd(rule, k)).None?
    ensures ListedSum(rule, overrides, first, count) == rule.basePrice * count
  {
    if count > 0 {
      ListedWithoutOverrides(rule, overrides, first, count - 1);
      assert rule.basePrice * count == rule.basePrice * (count - 1) + rule.basePrice;
    }
  }

  predicate FullLength(rule: SlotRule, k: nat) {
    CellEnd(rule, k) == CellStart(rule, k) + rule.durationMins
  }

  /** A range of grid cells is charged one slot per full-length cell, and at least one. */
  lemma SlotsCharged(rule: SlotRule, first: nat, count: nat)
    requires rule.Valid() && count >= 1 && first + count <= CellCount(rule)
    ensures var charged := BookingService.SlotCount(rule, CellStart(rule, first), CellEnd(rule, first + count - 1));
            charged == if FullLength(rule, first + count - 1) || count == 1 then count else count - 1
  {
    var d, last := rule.durationMins, first + count - 1;
    GridShape(rule, last, last);
    CellStarts(rule, first, last);
    var minutes := CellEnd(rule, last) - CellStart(rule, first);
    assert CellStart(rule, last) - CellStart(rule, first) == (count - 1) * d;
    var rest := CellEnd(rule, last) - CellStart(rule, last);
    QuotientOf(count - 1, rest, d);
  }

  lemma QuotientOf(q: nat, r: int, d: int)
    requires 0 < r <= d
    ensures (q * d + r) / d == if r == d then q + 1 else q
  {
    assert (q + 1) * d == q * d + d && (q + 2) * d == q * d + 2 * d;
    QuotientUnique(q * d + r, d, if r == d then q + 1 else q);
  }

  lemma QuotientUnique(x: int, d: int, y: int)
    requires d > 0 && y * d <= x < (y + 1) * d
    ensures x / d == y
  {
    QuotientBounds(x, d);
    if x / d < y {
      MulOrder(d, x / d + 1, y);
    } else if x / d > y {
      MulOrder(d, y + 1, x / d);
    }
  }

  /** For consecutive slots of the rule that prices the range, without price overrides: the amount charged equals the listed sum
      if and only if the last slot has full length, or it is the only one, or the slots are free of charge. */
  lemma ChargedEqualsListedIff(turf: Turf, date: int, rule: SlotRule, overrides: seq<SlotOverride>, first: nat, count: nat)
    requires rule.Valid() && count >= 1 && first + count <= CellCount(rule) && rule in turf.slotRules
    requires forall r :: r in turf.slotRules ==>
               BookingService.Covering(r, date, CellStart(rule, first), CellEnd(rule, first + count - 1)) ==> r == rule
    requires BookingService.Covering(rule, date, CellStart(rule, first), CellEnd(rule, first + count - 1))
    requires forall k :: first <= k < first + count ==> OverridePrice(overrides, CellStart(rule, k), CellEnd(rule, k)).None?
    ensures var charged := BookingService.BasePrice(turf.slotRules, date, CellStart(rule, first), CellEnd(rule, first + count - 1));
            && charged.Some?
            && (charged.value == ListedSum(rule, overrides, first, count) <==>
                  FullLength(rule, first + count - 1) || count == 1 || rule.basePrice == 0)
  {
    SlotsCharged(rule, first, count);
    ListedWithoutOverrides(rule, overrides, first, count);
    OnlyRulePrices(turf.slotRules, date, CellStart(rule, first), CellEnd(rule, first + count - 1), rule);
    OneLessIsLess(rule.basePrice, count);
  }

  lemma OneLessIsLess(price: int, count: int)
    ensures price * (count - 1) == price * count <==> price == 0
  {
    assert price * (count - 1) == price * count - price;
  }

  lemma {:induction false} OnlyRulePrices(rules: seq<SlotRule>, date: int, start: int, end: int, rule: SlotRule)
    requires rule in rules && BookingService.Covering(rule, date, start, end)
    requires forall r :: r in rules && BookingService.Covering(r, date, start, end) ==> r == rule
    ensures BookingService.BasePrice(rules, date, start, end) == Some(rule.basePrice * BookingService.SlotCount(rule, start, end))
  {
    assert rules[0] in rules;
    if !BookingService.Covering(rules[0], date, start, end) {
      OnlyRulePrices(rules[1..], date, start, end, rule);
    }
  }

  /** A price override is shown but not charged: for a single slot the two prices agree only when the override changes nothing. */
  lemma OverridePriceIsNotCharged(turf: Turf, date: int, rule: SlotRule, overrides: seq<SlotOverride>, k: nat)
    requires rule.Valid() && k < CellCount(rule) && rule in turf.slotRules
    requires forall r :: r in turf.slotRules && BookingService.Covering(r, date, CellStart(rule, k), CellEnd(rule, k)) ==> r == rule
    requires BookingService.Covering(rule, date, CellStart(rule, k), CellEnd(rule, k))
    requires OverridePrice(overrides, CellStart(rule, k), CellEnd(rule, k)).Some?
    ensures var charged := BookingService.BasePrice(turf.slotRules, date, CellStart(rule, k), CellEnd(rule, k));
            && charged == Some(rule.basePrice)
            && (charged.value == CellAt(rule, overrides, k).basePrice <==>
                  OverridePrice(overrides, CellStart(rule, k), CellEnd(rule, k)).value == rule.basePrice)
  {
    SlotsCharged(rule, k, 1);
    OnlyRulePrices(turf.slotRules, date, CellStart(rule, k), CellEnd(rule, k), rule);
  }
}
