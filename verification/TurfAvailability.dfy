/** Virtual slots of one day: cut from the rules, thinned by overrides, then marked against the active bookings. */
module TurfAvailability {
  import opened Common
  import opened Rounding
  import opened Times

  datatype SlotRule = SlotRule(
    day: int,
    start: int,
    end: int,
    durationMins: int,
    slotType: string,
    basePrice: int,
    maxCapacity: int,
    active: bool,
    validFrom: Option<int>,
    validUntil: Option<int>)
  {
    predicate Valid() {
      IsTime(start) && IsTime(end) && durationMins >= 1
    }
  }

  datatype OverrideKind = Blocked | PriceChange | OtherOverride

  datatype SlotOverride = SlotOverride(kind: OverrideKind, start: Option<int>, end: Option<int>, price: Option<int>)

  /** A generated slot, before any booking is looked at. */
  datatype Cell = Cell(start: int, end: int, durationMins: int, slotType: string, basePrice: int, capacity: int)

  /** Adding minutes stops at 23:59. */
  function AddMinutes(t: int, mins: int): int {
    if t + mins >= DAY_MINUTES then LAST_MINUTE else t + mins
  }

  // ---- The grid of one rule ----

  function CellStart(rule: SlotRule, k: int): int {
    rule.start + k * rule.durationMins
  }

  function CellEnd(rule: SlotRule, k: int): int {
    AddMinutes(CellStart(rule, k), rule.durationMins)
  }

  /** The k-th cell of the grid lies in the rule's window. */
  predicate Fits(rule: SlotRule, k: int) {
    CellStart(rule, k) < rule.end && CellEnd(rule, k) <= rule.end
  }

  function CellCount(rule: SlotRule): nat
    requires rule.Valid()
  {
    var window := rule.end - rule.start;
    if window <= 0 then 0
    else if rule.end == LAST_MINUTE then (window + rule.durationMins - 1) / rule.durationMins
    else window / rule.durationMins
  }

  lemma CellStarts(rule: SlotRule, j: int, k: int)
    requires rule.Valid() && j <= k
    ensures CellStart(rule, j + 1) == CellStart(rule, j) + rule.durationMins
    ensures CellStart(rule, j) <= CellStart(rule, k)
    ensures j < k ==> CellStart(rule, j) + rule.durationMins <= CellStart(rule, k)
  {
    MulOrder(rule.durationMins, j, k);
    MulOrder(rule.durationMins, j, j + 1);
    assert (j + 1) * rule.durationMins == j * rule.durationMins + rule.durationMins;
  }

  lemma QuotientBounds(x: int, d: int)
    requires d > 0
    ensures x / d * d <= x < (x / d + 1) * d
  {
  }

  /** The count is exact: cell k is on the grid if and only if it fits the window. */
  lemma CellsExactlyFit(rule: SlotRule, k: nat)
    requires rule.Valid()
    ensures k < CellCount(rule) <==> Fits(rule, k)
  {
    var n := CellCount(rule);
    var window := rule.end - rule.start;
    var d := rule.durationMins;
    if window > 0 {
      QuotientBounds(window, d);
      QuotientBounds(window + d - 1, d);
    }
    CellStarts(rule, 0, k);
    if k < n {
      CellStarts(rule, k, n);
      CellStarts(rule, k, n - 1);
      CellStarts(rule, n - 1, n);
    } else {
      CellStarts(rule, n, k);
    }
    CellStarts(rule, k, k);
  }

  /** Grid cells are in order and disjoint, and have full length unless they are the last one, cut at 23:59. */
  lemma GridShape(rule: SlotRule, j: nat, k: nat)
    requires rule.Valid() && j <= k < CellCount(rule)
    ensures rule.start <= CellStart(rule, j) < CellEnd(rule, j) <= rule.end
    ensures j < k ==> CellEnd(rule, j) <= CellStart(rule, k)
    ensures CellEnd(rule, j) - CellStart(rule, j) <= rule.durationMins
    ensures CellEnd(rule, j) - CellStart(rule, j) < rule.durationMins <==> CellStart(rule, j) + rule.durationMins > LAST_MINUTE
    ensures CellEnd(rule, j) - CellStart(rule, j) < rule.durationMins ==>
              j == CellCount(rule) - 1 && rule.end == LAST_MINUTE && CellEnd(rule, j) == LAST_MINUTE
  {
    CellsExactlyFit(rule, j);
    CellsExactlyFit(rule, j + 1);
    CellStarts(rule, 0, j);
    CellStarts(rule, j, k);
  }

  // ---- Overrides ----

  predicate BlocksRange(o: SlotOverride, start: int, end: int) {
    o.kind.Blocked? && o.start.Some? && o.end.Some? && Overlaps(start, end, o.start.value, o.end.value)
  }

  predicate IsBlocked(overrides: seq<SlotOverride>, start: int, end: int) {
    exists i :: 0 <= i < |overrides| && BlocksRange(overrides[i], start, end)
  }

  /** ranges is the set of windows blocked by the overrides. */
  ghost predicate BlockedWindows(ranges: set<(int, int)>, overrides: seq<SlotOverride>) {
    && (forall i :: 0 <= i < |overrides| ==>
          overrides[i].kind.Blocked? && overrides[i].start.Some? && overrides[i].end.Some? ==>
            (overrides[i].start.value, overrides[i].end.value) in ranges)
    && (forall r :: r in ranges ==>
          exists i ::
            0 <= i < |overrides| && overrides[i].kind.Blocked? && overrides[i].start == Some(r.0)
            && overrides[i].end == Some(r.1))
  }

  lemma BlockedWindowsBlock(ranges: set<(int, int)>, overrides: seq<SlotOverride>, start: int, end: int)
    requires BlockedWindows(ranges, overrides)
    ensures (exists r :: r in ranges && start < r.1 && end > r.0) <==> IsBlocked(overrides, start, end)
  {
    if IsBlocked(overrides, start, end) {
      var i :| 0 <= i < |overrides| && BlocksRange(overrides[i], start, end);
      var r := (overrides[i].start.value, overrides[i].end.value);
      assert r in ranges && start < r.1 && end > r.0;
    }
  }

  predicate FullDayBlocked(overrides: seq<SlotOverride>) {
    exists i :: 0 <= i < |overrides| && overrides[i].kind.Blocked? && overrides[i].start.None?
  }

  predicate SetsPrice(o: SlotOverride) {
    o.kind.PriceChange? && o.start.Some? && o.end.Some? && o.price.Some?
  }

  function Window(o: SlotOverride): (int, int)
    requires SetsPrice(o)
  {
    (o.start.value, o.end.value)
  }

  /** The keys of the price dictionary in insertion order. */
  function PriceWindows(overrides: seq<SlotOverride>): seq<(int, int)> {
    if overrides == [] then []
    else
      var earlier, last := PriceWindows(overrides[..|overrides| - 1]), overrides[|overrides| - 1];
      if SetsPrice(last) && Window(last) !in earlier then earlier + [Window(last)] else earlier
  }

  /** The price dictionary: a later override of the same window replaces the price. */
  function PriceTable(overrides: seq<SlotOverride>): map<(int, int), int> {
    if overrides == [] then map[]
    else
      var earlier, last := PriceTable(overrides[..|overrides| - 1]), overrides[|overrides| - 1];
      if SetsPrice(last) then earlier[Window(last) := last.price.value] else earlier
  }

  predicate Covers(window: (int, int), start: int, end: int) {
    start >= window.0 && end <= window.1
  }

  function FirstCovering(windows: seq<(int, int)>, start: int, end: int): (r: Option<(int, int)>)
    ensures r.Some? ==> r.value in windows && Covers(r.value, start, end)
    ensures r.None? ==> forall w :: w in windows ==> !Covers(w, start, end)
  {
    if windows == [] then None
    else if Covers(windows[0], start, end) then Some(windows[0])
    else FirstCovering(windows[1..], start, end)
  }

  lemma {:induction false} TableHasWindows(overrides: seq<SlotOverride>)
    ensures forall w :: w in PriceWindows(overrides) <==> w in PriceTable(overrides)
    ensures forall w :: w in PriceTable(overrides) <==>
              exists i :: 0 <= i < |overrides| && SetsPrice(overrides[i]) && Window(overrides[i]) == w
  {
    if overrides != [] {
      var n := |overrides| - 1;
      TableHasWindows(overrides[..n]);
      forall w ensures w in PriceTable(overrides) <==>
        exists i :: 0 <= i < |overrides| && SetsPrice(overrides[i]) && Window(overrides[i]) == w {
        if w in PriceTable(overrides[..n]) {
          var i :| 0 <= i < n && SetsPrice(overrides[..n][i]) && Window(overrides[..n][i]) == w;
          assert overrides[i] == overrides[..n][i];
        } else if i :| 0 <= i < |overrides| && SetsPrice(overrides[i]) && Window(overrides[i]) == w {
          assert i < n ==> overrides[..n][i] == overrides[i];
        }
      }
    }
  }

  function OverridePrice(overrides: seq<SlotOverride>, start: int, end: int): Option<int> {
    TableHasWindows(overrides);
    var w := FirstCovering(PriceWindows(overrides), start, end);
    if w.Some? then Some(PriceTable(overrides)[w.value]) else None
  }

  lemma {:induction false} FirstCoveringAppend(windows: seq<(int, int)>, w: (int, int), start: int, end: int)
    ensures FirstCovering(windows + [w], start, end) ==
            var f := FirstCovering(windows, start, end);
            if f.Some? then f else if Covers(w, start, end) then Some(w) else None
  {
    if windows != [] {
      FirstCoveringAppend(windows[1..], w, start, end);
      assert (windows + [w])[1..] == windows[1..] + [w];
    }
  }

  lemma {:induction false} FirstCoveringWindow(overrides: seq<SlotOverride>, start: int, end: int, first: nat)
    requires first < |overrides| && SetsPrice(overrides[first]) && Covers(Window(overrides[first]), start, end)
    requires forall i :: 0 <= i < first && SetsPrice(overrides[i]) ==> !Covers(Window(overrides[i]), start, end)
    ensures FirstCovering(PriceWindows(overrides), start, end) == Some(Window(overrides[first]))
  {
    var n := |overrides| - 1;
    var earlier, last := PriceWindows(overrides[..n]), overrides[n];
    if SetsPrice(last) {
      FirstCoveringAppend(earlier, Window(last), start, end);
    }
    if first < n {
      FirstCoveringWindow(overrides[..n], start, end, first);
    } else {
      TableHasWindows(overrides[..n]);
    }
  }

  lemma {:induction false} TableKeepsLast(overrides: seq<SlotOverride>, last: nat)
    requires last < |overrides| && SetsPrice(overrides[last])
    requires forall i :: last < i < |overrides| && SetsPrice(overrides[i]) ==> Window(overrides[i]) != Window(overrides[last])
    ensures Window(overrides[last]) in PriceTable(overrides)
    ensures PriceTable(overrides)[Window(overrides[last])] == overrides[last].price.value
  {
    if last < |overrides| - 1 {
      TableKeepsLast(overrides[..|overrides| - 1], last);
    }
  }

  /** A price for a window of the day; an override without a full window or without a price sets none. */
  predicate IsPriceFor(o: SlotOverride, from: int, to: int) {
    o.kind == PriceChange && o.start == Some(from) && o.end == Some(to) && o.price != None
  }

  /** The window is that of the first price override that contains the slot, the price is the last one stored for that window;
      without such an override the slot keeps the price of its rule. */
  lemma OverridePriceMeaning(overrides: seq<SlotOverride>, start: int, end: int, from: int, to: int, first: nat, last: nat)
    ensures (forall i, a, b :: 0 <= i < |overrides| && a <= start && end <= b ==> !IsPriceFor(overrides[i], a, b)) ==>
              OverridePrice(overrides, start, end).None?
    ensures && first <= last < |overrides| && from <= start && end <= to
            && IsPriceFor(overrides[first], from, to) && IsPriceFor(overrides[last], from, to)
            && (forall i, a, b :: 0 <= i < first && a <= start && end <= b ==> !IsPriceFor(overrides[i], a, b))
            && (forall i :: last < i < |overrides| ==> !IsPriceFor(overrides[i], from, to)) ==>
              OverridePrice(overrides, start, end) == overrides[last].price
  {
    forall o: SlotOverride | SetsPrice(o) ensures IsPriceFor(o, Window(o).0, Window(o).1) {
    }
    if OverridePrice(overrides, start, end).Some? {
      TableHasWindows(overrides);
      var w := FirstCovering(PriceWindows(overrides), start, end).value;
      var i :| 0 <= i < |overrides| && SetsPrice(overrides[i]) && Window(overrides[i]) == w;
      assert IsPriceFor(overrides[i], w.0, w.1);
    }
    if && first <= last < |overrides| && from <= start && end <= to
       && IsPriceFor(overrides[first], from, to) && IsPriceFor(overrides[last], from, to)
       && (forall i, a, b :: 0 <= i < first && a <= start && end <= b ==> !IsPriceFor(overrides[i], a, b))
       && forall i :: last < i < |overrides| ==> !IsPriceFor(overrides[i], from, to) {
      forall i | 0 <= i < first && SetsPrice(overrides[i]) ensures !Covers(Window(overrides[i]), start, end) {
        assert IsPriceFor(overrides[i], Window(overrides[i]).0, Window(overrides[i]).1);
      }
      FirstCoveringWindow(overrides, start, end, first);
      TableKeepsLast(overrides, last);
    }
  }

  // ---- What the generator must produce ----

  function CellAt(rule: SlotRule, overrides: seq<SlotOverride>, k: int): Cell {
    var s, e := CellStart(rule, k), CellEnd(rule, k);
    var price := OverridePrice(overrides, s, e);
    Cell(s, e, rule.durationMins, rule.slotType, if price.Some? then price.value else rule.basePrice, rule.maxCapacity)
  }

  /** The unblocked cells among the first n of a rule's grid: a blocked cell is dropped, the grid does not shift. */
  function OpenCells(rule: SlotRule, overrides: seq<SlotOverride>, n: nat): seq<Cell> {
    if n == 0 then []
    else
      OpenCells(rule, overrides, n - 1) +
      if IsBlocked(overrides, CellStart(rule, n - 1), CellEnd(rule, n - 1)) then [] else [CellAt(rule, overrides, n - 1)]
  }

  predicate Bookable(rule: SlotRule) {
    rule.slotType != "blocked" && rule.slotType != "maintenance"
  }

  function RuleCells(rule: SlotRule, overrides: seq<SlotOverride>): seq<Cell>
    requires rule.Valid()
  {
    if Bookable(rule) then OpenCells(rule, overrides, CellCount(rule)) else []
  }

  function AllCells(rules: seq<SlotRule>, overrides: seq<SlotOverride>): seq<Cell>
    requires forall r :: r in rules ==> r.Valid()
  {
    if rules == [] then []
    else AllCells(rules[..|rules| - 1], overrides) + RuleCells(rules[|rules| - 1], overrides)
  }

  function DayCells(rules: seq<SlotRule>, overrides: seq<SlotOverride>): seq<Cell>
    requires forall r :: r in rules ==> r.Valid()
  {
    if FullDayBlocked(overrides) then [] else AllCells(rules, overrides)
  }

  lemma {:induction false} OpenCellComesFrom(rule: SlotRule, overrides: seq<SlotOverride>, n: nat, i: nat) returns (k: nat)
    requires i < |OpenCells(rule, overrides, n)|
    ensures k < n && !IsBlocked(overrides, CellStart(rule, k), CellEnd(rule, k))
    ensures OpenCells(rule, overrides, n)[i] == CellAt(rule, overrides, k)
  {
    if i < |OpenCells(rule, overrides, n - 1)| {
      k := OpenCellComesFrom(rule, overrides, n - 1, i);
    } else {
      k := n - 1;
    }
  }

  lemma {:induction false} OpenCellIsListed(rule: SlotRule, overrides: seq<SlotOverride>, n: nat, k: nat)
    requires k < n && !IsBlocked(overrides, CellStart(rule, k), CellEnd(rule, k))
    ensures CellAt(rule, overrides, k) in OpenCells(rule, overrides, n)
  {
    if k < n - 1 {
      OpenCellIsListed(rule, overrides, n - 1, k);
    }
  }

  lemma {:induction false} OpenCellsOrdered(rule: SlotRule, overrides: seq<SlotOverride>, n: nat, i: nat, j: nat)
    requires rule.Valid() && n <= CellCount(rule) && i < j < |OpenCells(rule, overrides, n)|
    ensures OpenCells(rule, overrides, n)[i].end <= OpenCells(rule, overrides, n)[j].start
  {
    if j < |OpenCells(rule, overrides, n - 1)| {
      OpenCellsOrdered(rule, overrides, n - 1, i, j);
    } else {
      var k := OpenCellComesFrom(rule, overrides, n - 1, i);
      GridShape(rule, k, n - 1);
    }
  }

  /** A rule yields exactly its fitting cells that overlap no blocked range, in order and pairwise disjoint. */
  lemma RuleCellsExact(rule: SlotRule, overrides: seq<SlotOverride>)
    requires rule.Valid() && Bookable(rule)
    ensures forall c :: c in RuleCells(rule, overrides) <==>
              exists k: nat :: Fits(rule, k) && !IsBlocked(overrides, CellStart(rule, k), CellEnd(rule, k))
                && c == CellAt(rule, overrides, k)
    ensures forall i, j :: 0 <= i < j < |RuleCells(rule, overrides)| ==>
              RuleCells(rule, overrides)[i].end <= RuleCells(rule, overrides)[j].start
  {
    var n := CellCount(rule);
    var cells := OpenCells(rule, overrides, n);
    forall i | 0 <= i < |cells|
      ensures exists k: nat ::
                Fits(rule, k) && !IsBlocked(overrides, CellStart(rule, k), CellEnd(rule, k))
                && cells[i] == CellAt(rule, overrides, k)
    {
      var k := OpenCellComesFrom(rule, overrides, n, i);
      CellsExactlyFit(rule, k);
    }
    forall k: nat | Fits(rule, k) && !IsBlocked(overrides, CellStart(rule, k), CellEnd(rule, k))
      ensures CellAt(rule, overrides, k) in cells
    {
      CellsExactlyFit(rule, k);
      OpenCellIsListed(rule, overrides, n, k);
    }
    forall i, j | 0 <= i < j < |cells| ensures cells[i].end <= cells[j].start {
      OpenCellsOrdered(rule, overrides, n, i, j);
    }
  }

  /** A slot offered to the customer; the marker updates it in place. */
  class AvailableSlot {
    const cell: Cell
    var isAvailable: bool
    var remainingCapacity: int

    constructor (cell: Cell)
      ensures this.cell == cell && isAvailable && remainingCapacity == cell.capacity
    {
      this.cell := cell;
      isAvailable, remainingCapacity := true, cell.capacity;
    }
  }

  ghost predicate Distinct(slots: seq<AvailableSlot>) {
    forall i, j :: 0 <= i < j < |slots| ==> slots[i] != slots[j]
  }

  /** Freshly generated slots, one object per cell, nothing marked yet. */
  ghost predicate Unmarked(slots: seq<AvailableSlot>, cells: seq<Cell>)
    reads slots
  {
    && |slots| == |cells|
    && Distinct(slots)
    && forall i :: 0 <= i < |slots| ==>
         slots[i].cell == cells[i] && slots[i].isAvailable && slots[i].remainingCapacity == cells[i].capacity
  }

  method StorePrices(overrides: seq<SlotOverride>) returns (windows: seq<(int, int)>, prices: map<(int, int), int>)
    ensures windows == PriceWindows(overrides) && prices == PriceTable(overrides)
  {
    windows, prices := [], map[];
    for i := 0 to |overrides|
      invariant windows == PriceWindows(overrides[..i]) && prices == PriceTable(overrides[..i])
    {
      var o := overrides[i];
      assert overrides[..i + 1][..i] == overrides[..i];
      if SetsPrice(o) {
        if Window(o) !in windows {
          windows := windows + [Window(o)];
        }
        prices := prices[Window(o) := o.price.value];
      }
    }
    assert overrides[..|overrides|] == overrides;
  }

  method PriceFor(ghost overrides: seq<SlotOverride>, windows: seq<(int, int)>, prices: map<(int, int), int>,
                  basePrice: int, start: int, end: int)
    returns (price: int)
    requires windows == PriceWindows(overrides) && prices == PriceTable(overrides)
    ensures var p := OverridePrice(overrides, start, end);
            price == if p.Some? then p.value else basePrice
  {
    TableHasWindows(overrides);
    price := basePrice;
    for i := 0 to |windows|
      invariant price == basePrice
      invariant FirstCovering(windows, start, end) == FirstCovering(windows[i..], start, end)
    {
      assert windows[i..][1..] == windows[i + 1..];
      if start >= windows[i].0 && end <= windows[i].1 {
        price := prices[windows[i]];
        break;
      }
    }
  }

  method StoreBlocked(overrides: seq<SlotOverride>) returns (ranges: set<(int, int)>)
    ensures BlockedWindows(ranges, overrides)
  {
    ranges := {};
    for i := 0 to |overrides|
      invariant BlockedWindows(ranges, overrides[..i])
    {
      var o := overrides[i];
      assert overrides[..i + 1] == overrides[..i] + [o];
      if o.kind.Blocked? && o.start.Some? && o.end.Some? {
        ranges := ranges + {(o.start.value, o.end.value)};
      }
    }
    assert overrides[..|overrides|] == overrides;
  }

  /** The cursor after k cells: the next cell's start, or the end of a window cut at 23:59. */
  ghost predicate CursorAt(rule: SlotRule, cursor: int, k: nat)
    requires rule.Valid()
  {
    && k <= CellCount(rule)
    && (cursor == CellStart(rule, k) || (k == CellCount(rule) && cursor == rule.end))
  }

  lemma CursorMoves(rule: SlotRule, cursor: int, k: nat)
    requires rule.Valid() && CursorAt(rule, cursor, k) && cursor < rule.end
    ensures AddMinutes(cursor, rule.durationMins) == CellEnd(rule, k) && cursor == CellStart(rule, k)
    ensures k < CellCount(rule) <==> CellEnd(rule, k) <= rule.end
    ensures k < CellCount(rule) ==> CursorAt(rule, CellEnd(rule, k), k + 1)
  {
    CellsExactlyFit(rule, k);
    CellStarts(rule, k, k);
    if k < CellCount(rule) {
      GridShape(rule, k, k);
    }
  }

  method AppendSlot(slots: seq<AvailableSlot>, cell: Cell, ghost cells: seq<Cell>) returns (all: seq<AvailableSlot>)
    requires Unmarked(slots, cells)
    ensures Unmarked(all, cells + [cell])
    ensures slots <= all && fresh(all[|slots|..])
  {
    var slot := new AvailableSlot(cell);
    all := slots + [slot];
  }

  /** Steps a cursor through one rule's window and appends one slot object per unblocked cell. */
  method AppendRuleSlots(rule: SlotRule, overrides: seq<SlotOverride>, slots: seq<AvailableSlot>, ghost cells: seq<Cell>)
    returns (all: seq<AvailableSlot>)
    requires rule.Valid() && Unmarked(slots, cells)
    ensures Unmarked(all, cells + OpenCells(rule, overrides, CellCount(rule)))
    ensures slots <= all && fresh(all[|slots|..])
  {
    var blockedRanges := StoreBlocked(overrides);
    var windows, prices := StorePrices(overrides);
    all := slots;
    var cursor := rule.start;
    ghost var k: nat := 0;
    while cursor < rule.end
      invariant CursorAt(rule, cursor, k)
      invariant Unmarked(all, cells + OpenCells(rule, overrides, k))
      invariant slots <= all && fresh(all[|slots|..])
      decreases CellCount(rule) - k
    {
      var slotEnd := AddMinutes(cursor, rule.durationMins);
      CursorMoves(rule, cursor, k);
      if slotEnd > rule.end {
        break;
      }
      BlockedWindowsBlock(blockedRanges, overrides, cursor, slotEnd);
      if exists r :: r in blockedRanges && cursor < r.1 && slotEnd > r.0 {
        cursor := slotEnd;
        k := k + 1;
        continue;
      }
      var base := PriceFor(overrides, windows, prices, rule.basePrice, cursor, slotEnd);
      var more := AppendSlot(all, Cell(cursor, slotEnd, rule.durationMins, rule.slotType, base, rule.maxCapacity),
                             cells + OpenCells(rule, overrides, k));
      assert more[|slots|..] == all[|slots|..] + more[|all|..];
      all := more;
      assert cells + OpenCells(rule, overrides, k + 1) == cells + OpenCells(rule, overrides, k) + [CellAt(rule, overrides, k)];
      cursor := slotEnd;
      k := k + 1;
    }
    assert k == CellCount(rule) by {
      CellsExactlyFit(rule, k);
    }
  }

  /** The slots of a day: every rule's open cells in order, one object each, or none when the whole day is blocked. */
  method GenerateSlots(rules: seq<SlotRule>, overrides: seq<SlotOverride>) returns (slots: seq<AvailableSlot>)
    requires forall r :: r in rules ==> r.Valid()
    ensures Unmarked(slots, DayCells(rules, overrides))
    ensures fresh(slots)
  {
    slots := [];
    if exists i :: 0 <= i < |overrides| && overrides[i].kind.Blocked? && overrides[i].start.None? {
      return;
    }
    for i := 0 to |rules|
      invariant Unmarked(slots, AllCells(rules[..i], overrides))
      invariant fresh(slots)
    {
      var rule := rules[i];
      assert rules[..i + 1][..i] == rules[..i];
      if rule.slotType == "blocked" || rule.slotType == "maintenance" {
        continue;
      }
      var all := AppendRuleSlots(rule, overrides, slots, AllCells(rules[..i], overrides));
      assert all == slots + all[|slots|..];
      slots := all;
    }
    assert rules[..|rules|] == rules;
  }

  // ---- Marking conflicts ----

  /** The number of bookings, given by their ranges, that overlap [start, end). */
  function OverlapCount(bookings: seq<(int, int)>, start: int, end: int): nat {
    if bookings == [] then 0
    else
      var last := bookings[|bookings| - 1];
      OverlapCount(bookings[..|bookings| - 1], start, end) + if Overlaps(start, end, last.0, last.1) then 1 else 0
  }

  function Remaining(capacity: int, overlapping: nat): int {
    if overlapping == 0 then capacity
    else if capacity <= 0 then capacity - 1
    else Max(0, capacity - overlapping)
  }

  predicate StillFree(capacity: int, overlapping: nat) {
    overlapping == 0 || overlapping < capacity
  }

  lemma {:induction false} OverlapCountOfPrefix(bookings: seq<(int, int)>, start: int, end: int, i: nat)
    requires i <= |bookings|
    ensures OverlapCount(bookings[..i], start, end) <= OverlapCount(bookings, start, end)
  {
    if i < |bookings| {
      OverlapCountOfPrefix(bookings[..|bookings| - 1], start, end, i);
      assert bookings[..|bookings| - 1][..i] == bookings[..i];
    } else {
      assert bookings[..i] == bookings;
    }
  }

  /** Marks one slot, stopping as soon as it is full: the early exit gives the same answer as counting every overlap. */
  method MarkSlot(slot: AvailableSlot, bookings: seq<(int, int)>)
    modifies slot
    ensures var n := OverlapCount(bookings, slot.cell.start, slot.cell.end);
            && slot.remainingCapacity == Remaining(old(slot.remainingCapacity), n)
            && slot.isAvailable == (old(slot.isAvailable) && StillFree(old(slot.remainingCapacity), n))
  {
    ghost var cap, s, e := slot.remainingCapacity, slot.cell.start, slot.cell.end;
    for i := 0 to |bookings|
      invariant OverlapCount(bookings[..i], s, e) == 0 || OverlapCount(bookings[..i], s, e) < cap
      invariant slot.remainingCapacity == cap - OverlapCount(bookings[..i], s, e)
      invariant slot.isAvailable == old(slot.isAvailable)
    {
      assert bookings[..i + 1][..i] == bookings[..i];
      var bk := bookings[i];
      if slot.cell.start < bk.1 && slot.cell.end > bk.0 {
        slot.remainingCapacity := slot.remainingCapacity - 1;
        if slot.remainingCapacity <= 0 {
          slot.isAvailable := false;
          OverlapCountOfPrefix(bookings, s, e, i + 1);
          return;
        }
      }
    }
    assert bookings[..|bookings|] == bookings;
  }

  /** Every slot of the list is marked against every active booking. */
  method MarkConflicts(slots: seq<AvailableSlot>, bookings: seq<(int, int)>)
    requires Distinct(slots)
    modifies slots
    ensures forall i :: 0 <= i < |slots| ==>
              var n := OverlapCount(bookings, slots[i].cell.start, slots[i].cell.end);
              && slots[i].remainingCapacity == Remaining(old(slots[i].remainingCapacity), n)
              && slots[i].isAvailable == (old(slots[i].isAvailable) && StillFree(old(slots[i].remainingCapacity), n))
  {
    for i := 0 to |slots|
      invariant forall k :: 0 <= k < i ==>
                  var n := OverlapCount(bookings, slots[k].cell.start, slots[k].cell.end);
                  && slots[k].remainingCapacity == Remaining(old(slots[k].remainingCapacity), n)
                  && slots[k].isAvailable == (old(slots[k].isAvailable) && StillFree(old(slots[k].remainingCapacity), n))
      invariant forall k :: i <= k < |slots| ==>
                  && slots[k].remainingCapacity == old(slots[k].remainingCapacity)
                  && slots[k].isAvailable == old(slots[k].isAvailable)
    {
      MarkSlot(slots[i], bookings);
    }
  }

  /** The order of the bookings is irrelevant to the count, hence to the marking. */
  lemma {:induction false} OverlapCountIgnoresOrder(a: seq<(int, int)>, b: seq<(int, int)>, start: int, end: int)
    requires multiset(a) == multiset(b)
    ensures OverlapCount(a, start, end) == OverlapCount(b, start, end)
  {
    if a == [] {
      assert |multiset(b)| == 0;
    } else {
      var i := RemoveLast(a, b);
      OverlapCountIgnoresOrder(a[..|a| - 1], b[..i] + b[i + 1..], start, end);
      OverlapCountWithout(b, start, end, i);
    }
  }

  lemma {:induction false} OverlapCountWithout(b: seq<(int, int)>, start: int, end: int, i: nat)
    requires i < |b|
    ensures OverlapCount(b, start, end) ==
            OverlapCount(b[..i] + b[i + 1..], start, end) + if Overlaps(start, end, b[i].0, b[i].1) then 1 else 0
  {
    var n := |b| - 1;
    var rest := b[..i] + b[i + 1..];
    if i < n {
      OverlapCountWithout(b[..n], start, end, i);
      assert rest[..n - 1] == b[..n][..i] + b[..n][i + 1..];
    } else {
      assert rest == b[..n];
    }
  }
}
