/** From the items of a booking to its priced detail rows: canonical discount lines and
    the discount plan (src/services/bookingDiscounts.js:25-89, 143-186), detail rows and
    their totals (src/services/bookingReservationService.js:14-34, 71-193). Identifiers
    are already trimmed, money is whole cents, percentages are hundredths of a point. */
module Checkout {
  import opened Discounts

  datatype Maybe<+T> = Nothing | Just(value: T)

  /** What items are grouped by. */
  datatype Group = Group(service: string, tariff: Maybe<string>, origin: string)

  datatype LineKey = LineKey(member: nat, group: Group, occurrence: nat)

  /** `ownKey`: a line key the item brings along, which only detail rows look at. */
  datatype Item = Item(
    group: Group, quantity: int, unitPrice: Maybe<int>, price: Maybe<int>,
    subtotal: Maybe<int>, discount: int, isv: nat, includesIsv: bool, ownKey: Maybe<LineKey>, duration: int, buffer: int)

  function AtLeastOne(n: int): nat { if n < 1 then 1 else n }

  function OrElse(a: Maybe<int>, b: Maybe<int>, c: int): int {
    if a.Just? then a.value else if b.Just? then b.value else c
  }

  function Max0(n: int): nat { if n < 0 then 0 else n }

  // ---------------------------------------------------------- discount lines

  datatype DiscountLine = DiscountLine(
    key: LineKey, quantity: int, unit: int, subtotal: int, previous: int, available: int)

  /** The item added to its line. */
  function AddedTo(line: DiscountLine, item: Item): DiscountLine {
    var quantity := AtLeastOne(item.quantity);
    var unit := OrElse(item.unitPrice, item.price, line.unit);
    var subtotal := line.subtotal + OrElse(item.subtotal, Nothing, unit * quantity);
    var previous := line.previous + item.discount;
    line.(quantity := line.quantity + quantity, unit := unit, subtotal := subtotal,
          previous := previous, available := Max0(subtotal - previous))
  }

  function NewLine(item: Item, member: nat): DiscountLine {
    DiscountLine(LineKey(member, item.group, 1), 0, OrElse(item.unitPrice, item.price, 0), 0, 0, 0)
  }

  function FindLine(lines: seq<DiscountLine>, group: Group): (k: nat)
    ensures k <= |lines|
    ensures k < |lines| ==> lines[k].key.group == group
    ensures forall j :: 0 <= j < k ==> lines[j].key.group != group
  {
    if lines == [] || lines[0].key.group == group then 0 else 1 + FindLine(lines[1..], group)
  }

  function AddItem(lines: seq<DiscountLine>, item: Item, member: nat): seq<DiscountLine> {
    var k := FindLine(lines, item.group);
    if item.group.service == "" then lines
    else if k < |lines| then lines[k := AddedTo(lines[k], item)]
    else lines + [AddedTo(NewLine(item, member), item)]
  }

  function LinesOf(items: seq<Item>, member: nat): seq<DiscountLine> {
    if items == [] then [] else AddItem(LinesOf(items[..|items| - 1], member), items[|items| - 1], member)
  }

  function Seen(occurrences: map<Group, nat>, group: Group): nat {
    if group in occurrences then occurrences[group] else 0
  }

  method BuildCanonicalDiscountLines(items: seq<Item>, ordenIntegrante: int) returns (grouped: seq<DiscountLine>)
    ensures grouped == LinesOf(items, AtLeastOne(ordenIntegrante))
  {
    var member := AtLeastOne(ordenIntegrante);
    var occurrences: map<Group, nat> := map[];
    grouped := [];
    for i := 0 to |items|
      invariant grouped == LinesOf(items[..i], member)
      invariant forall g :: g in occurrences ==> FindLine(grouped, g) < |grouped|
    {
      var item := items[i];
      assert items[..i + 1][..i] == items[..i];
      if item.group.service == "" { continue; }
      var k := FindLine(grouped, item.group);
      ghost var before := grouped;
      if k == |grouped| {
        var occurrence := Seen(occurrences, item.group) + 1;
        occurrences := occurrences[item.group := occurrence];
        grouped := grouped + [DiscountLine(LineKey(member, item.group, occurrence), 0,
                                           OrElse(item.unitPrice, item.price, 0), 0, 0, 0)];
      }
      var line := grouped[k];
      var quantity := AtLeastOne(item.quantity);
      var unit := OrElse(item.unitPrice, item.price, line.unit);
      var subtotal := OrElse(item.subtotal, Nothing, unit * quantity);
      line := line.(quantity := line.quantity + quantity);
      line := line.(unit := unit);
      line := line.(subtotal := line.subtotal + subtotal);
      line := line.(previous := line.previous + item.discount);
      line := line.(available := Max0(line.subtotal - line.previous));
      grouped := grouped[k := line];
      assert grouped == AddItem(before, item, member);
      GroupsGrow(before, item, member);
    }
    assert items[..|items|] == items;
  }

  /** Groups that have a line keep one, and the group of the item gets one. */
  lemma GroupsGrow(lines: seq<DiscountLine>, item: Item, member: nat)
    requires item.group.service != ""
    ensures var next := AddItem(lines, item, member);
      forall g :: g == item.group || FindLine(lines, g) < |lines| ==> FindLine(next, g) < |next|
  {
    var next := AddItem(lines, item, member);
    forall g | g == item.group || FindLine(lines, g) < |lines| ensures FindLine(next, g) < |next| {
      var j := FindLine(lines, g);
      assert next[j].key.group == g;
    }
  }

  ghost predicate SoundLines(lines: seq<DiscountLine>, member: nat) {
    && (forall i :: 0 <= i < |lines| ==> lines[i].key == LineKey(member, lines[i].key.group, 1))
    && (forall i, j :: 0 <= i < j < |lines| ==> lines[i].key.group != lines[j].key.group)
    && (forall i :: 0 <= i < |lines| ==> lines[i].available == Max0(lines[i].subtotal - lines[i].previous))
  }

  lemma AddItemSound(lines: seq<DiscountLine>, item: Item, member: nat)
    requires SoundLines(lines, member)
    ensures SoundLines(AddItem(lines, item, member), member)
  {
    var k := FindLine(lines, item.group);
  }

  /** One line per group: keys are distinct, and every line carries occurrence one. */
  lemma {:induction false} LinesAreSound(items: seq<Item>, member: nat)
    ensures SoundLines(LinesOf(items, member), member)
  {
    if items != [] {
      LinesAreSound(items[..|items| - 1], member);
      AddItemSound(LinesOf(items[..|items| - 1], member), items[|items| - 1], member);
    }
  }

  // ------------------------------------------------------------ detail rows

  /** Rows are grouped by `group`; their key is the canonical one unless an item brought its own. */
  datatype Row = Row(
    group: Group, key: LineKey, quantity: int, duration: nat, buffer: nat, unit: int, isvRate: nat, includesIsv: bool,
    subtotal: int, discount: int, isv: int, total: int)

  function NewRow(item: Item, member: nat, isvEnabled: bool): Row {
    Row(item.group, if item.ownKey.Just? then item.ownKey.value else LineKey(member, item.group, 1), 0,
        AtLeastOne(item.duration), Max0(item.buffer), OrElse(item.price, Nothing, 0),
        if isvEnabled then item.isv else 0, isvEnabled && item.includesIsv, 0, 0, 0, 0)
  }

  function Counted(row: Row): Row {
    row.(quantity := row.quantity + 1, subtotal := row.unit * (row.quantity + 1))
  }

  function FindRow(rows: seq<Row>, group: Group): (k: nat)
    ensures k <= |rows|
    ensures k < |rows| ==> rows[k].group == group
    ensures forall j :: 0 <= j < k ==> rows[j].group != group
  {
    if rows == [] || rows[0].group == group then 0 else 1 + FindRow(rows[1..], group)
  }

  function AddRow(rows: seq<Row>, item: Item, member: nat, isvEnabled: bool): seq<Row> {
    var k := FindRow(rows, item.group);
    if item.group.service == "" then rows
    else if k < |rows| then rows[k := Counted(rows[k])]
    else rows + [Counted(NewRow(item, member, isvEnabled))]
  }

  function RowsOf(items: seq<Item>, member: nat, isvEnabled: bool): seq<Row> {
    if items == [] then []
    else AddRow(RowsOf(items[..|items| - 1], member, isvEnabled), items[|items| - 1], member, isvEnabled)
  }

  method GroupRows(items: seq<Item>, ordenIntegrante: int, isvEnabled: bool) returns (rows: seq<Row>)
    ensures rows == RowsOf(items, AtLeastOne(ordenIntegrante), isvEnabled)
  {
    var member := AtLeastOne(ordenIntegrante);
    rows := [];
    for i := 0 to |items|
      invariant rows == RowsOf(items[..i], member, isvEnabled)
    {
      var item := items[i];
      assert items[..i + 1][..i] == items[..i];
      if item.group.service == "" { continue; }
      ghost var before := rows;
      var k := FindRow(rows, item.group);
      if k == |rows| { rows := rows + [NewRow(item, member, isvEnabled)]; }
      var row := rows[k];
      row := row.(quantity := row.quantity + 1);
      row := row.(subtotal := row.unit * row.quantity);
      rows := rows[k := row];
      assert rows == AddRow(before, item, member, isvEnabled);
    }
    assert items[..|items|] == items;
  }

  // -------------------------------------------------- lines and rows agree

  /** Plain items: one unit each, priced by the table, nothing already discounted. */
  ghost predicate Plain(items: seq<Item>, priceOf: Group -> nat) {
    forall i :: 0 <= i < |items| ==>
      var it := items[i];
      it.quantity <= 1 && it.unitPrice == Nothing && it.price == Just(priceOf(it.group))
      && it.subtotal == Nothing && it.discount == 0 && it.ownKey == Nothing
  }

  ghost predicate Agree(lines: seq<DiscountLine>, rows: seq<Row>, priceOf: Group -> nat) {
    && |lines| == |rows|
    && forall i :: 0 <= i < |rows| ==>
         && lines[i].key == rows[i].key && lines[i].key.group == rows[i].group
         && rows[i].unit == lines[i].unit == priceOf(rows[i].group)
         && rows[i].quantity == lines[i].quantity >= 1 && lines[i].previous == 0
         && rows[i].subtotal == lines[i].subtotal == lines[i].available == rows[i].unit * rows[i].quantity
  }

  lemma AgreeStep(lines: seq<DiscountLine>, rows: seq<Row>, item: Item, member: nat, isvEnabled: bool, priceOf: Group -> nat)
    requires Agree(lines, rows, priceOf) && Plain([item], priceOf)
    ensures Agree(AddItem(lines, item, member), AddRow(rows, item, member, isvEnabled), priceOf)
  {
    assert [item][0] == item;
    var k, k' := FindLine(lines, item.group), FindRow(rows, item.group);
    assert k == k' by {
      if k < |lines| { assert rows[k].group == item.group; }
      if k' < |rows| { assert lines[k'].key.group == item.group; }
    }
    if k < |lines| {
      NextMultiple(rows[k].unit, rows[k].quantity);
    }
  }

  lemma NextMultiple(unit: int, n: int)
    requires unit >= 0 && n >= 0
    ensures unit * n + unit * 1 == unit * (n + 1) >= 0
  {}

  /** For plain items the discount lines and the detail rows have the same keys, in the
      same order, and the same subtotals. */
  lemma {:induction false} LinesAndRowsAgree(items: seq<Item>, member: nat, isvEnabled: bool, priceOf: Group -> nat)
    requires Plain(items, priceOf)
    ensures Agree(LinesOf(items, member), RowsOf(items, member, isvEnabled), priceOf)
  {
    if items != [] {
      var init, last := items[..|items| - 1], items[|items| - 1];
      LinesAndRowsAgree(init, member, isvEnabled, priceOf);
      AgreeStep(LinesOf(init, member), RowsOf(init, member, isvEnabled), last, member, isvEnabled, priceOf);
    }
  }

  // ---------------------------------------------------------- discount plan

  datatype Source = Promotion | Membership | Reward | Manual | Courtesy | Unsupported

  datatype Assignment = Assignment(key: LineKey, source: Source, cents: int)

  datatype PlanEntry = PlanEntry(key: LineKey, assignments: seq<Assignment>, total: int)

  datatype Failure = UnknownLine | UnsupportedSource | ExceedsSubtotal | PlanMismatch

  datatype Outcome<+T> = Done(value: T) | Failed(error: Failure)

  /** A line as the plan sees it. */
  datatype PlanLine = PlanLine(key: LineKey, subtotal: int)

  function FindEntry(plan: seq<PlanEntry>, key: LineKey): (k: nat)
    ensures k <= |plan|
    ensures k < |plan| ==> plan[k].key == key
    ensures forall j :: 0 <= j < k ==> plan[j].key != key
  {
    if plan == [] || plan[0].key == key then 0 else 1 + FindEntry(plan[1..], key)
  }

  function EmptyPlan(lines: seq<PlanLine>): seq<PlanEntry> {
    seq(|lines|, i requires 0 <= i < |lines| => PlanEntry(lines[i].key, [], 0))
  }

  predicate DistinctLines(lines: seq<PlanLine>) {
    forall i, j :: 0 <= i < j < |lines| ==> lines[i].key != lines[j].key
  }

  function FindPlanLine(lines: seq<PlanLine>, key: LineKey): (k: nat)
    ensures k <= |lines|
    ensures k < |lines| ==> lines[k].key == key
    ensures forall j :: 0 <= j < k ==> lines[j].key != key
  {
    if lines == [] || lines[0].key == key then 0 else 1 + FindPlanLine(lines[1..], key)
  }

  /** A map entry set: a known key keeps its place and takes the new line. */
  function PutLine(lines: seq<PlanLine>, line: PlanLine): seq<PlanLine> {
    var k := FindPlanLine(lines, line.key);
    if k < |lines| then lines[k := line] else lines + [line]
  }

  /** The map of the lines by key, in the order of first insertion. */
  function LineMap(lines: seq<PlanLine>): seq<PlanLine> {
    if lines == [] then [] else PutLine(LineMap(lines[..|lines| - 1]), lines[|lines| - 1])
  }

  lemma {:induction false} LineMapDistinct(lines: seq<PlanLine>)
    ensures DistinctLines(LineMap(lines))
  {
    if lines != [] {
      LineMapDistinct(lines[..|lines| - 1]);
    }
  }

  lemma {:induction false} LineMapOfDistinct(lines: seq<PlanLine>)
    requires DistinctLines(lines)
    ensures LineMap(lines) == lines
  {
    if lines != [] {
      var n := |lines| - 1;
      LineMapOfDistinct(lines[..n]);
      assert FindPlanLine(lines[..n], lines[n].key) == n;
      assert lines == lines[..n] + [lines[n]];
    }
  }

  /** One assignment checked and added to its line. */
  function Assign(lines: seq<PlanLine>, plan: seq<PlanEntry>, a: Assignment): (r: Outcome<seq<PlanEntry>>)
    requires |plan| == |lines|
    ensures r.Done? ==> |r.value| == |lines|
  {
    var k := FindEntry(plan, a.key);
    if k == |plan| then Failed(UnknownLine)
    else if a.source == Unsupported then Failed(UnsupportedSource)
    else if a.cents <= 0 then Done(plan)
    else if plan[k].total + a.cents > lines[k].subtotal then Failed(ExceedsSubtotal)
    else Done(plan[k := PlanEntry(plan[k].key, plan[k].assignments + [a], plan[k].total + a.cents)])
  }

  function PlanOf(lines: seq<PlanLine>, assignments: seq<Assignment>): (r: Outcome<seq<PlanEntry>>)
    ensures r.Done? ==> |r.value| == |lines|
  {
    if assignments == [] then Done(EmptyPlan(lines))
    else
      var before := PlanOf(lines, assignments[..|assignments| - 1]);
      if before.Failed? then before else Assign(lines, before.value, assignments[|assignments| - 1])
  }

  /** The plan of a list of lines, whose keys need not be distinct. */
  function PlanFrom(lines: seq<PlanLine>, assignments: seq<Assignment>): Outcome<seq<PlanEntry>> {
    PlanOf(LineMap(lines), assignments)
  }

  /** Lines put into a map by key, one after another. */
  method MapLines(given: seq<PlanLine>) returns (lines: seq<PlanLine>)
    ensures lines == LineMap(given)
  {
    lines := [];
    for i := 0 to |given|
      invariant lines == LineMap(given[..i])
    {
      assert given[..i + 1][..i] == given[..i];
      var k := FindPlanLine(lines, given[i].key);
      if k < |lines| { lines := lines[k := given[i]]; } else { lines := lines + [given[i]]; }
    }
    assert given[..|given|] == given;
  }

  method BuildDiscountPlan(given: seq<PlanLine>, assignments: seq<Assignment>) returns (r: Outcome<seq<PlanEntry>>)
    ensures r == PlanFrom(given, assignments)
  {
    var lines := MapLines(given);
    var plan := EmptyPlan(lines);
    for i := 0 to |assignments|
      invariant Done(plan) == PlanOf(lines, assignments[..i])
    {
      assert assignments[..i + 1][..i] == assignments[..i];
      var next := PutAssignment(lines, plan, assignments[i]);
      if next.Failed? {
        FailurePersists(lines, assignments, i + 1);
        return next;
      }
      plan := next.value;
    }
    assert assignments[..|assignments|] == assignments;
    r := Done(plan);
  }

  /** The body of the plan loop. */
  method PutAssignment(lines: seq<PlanLine>, plan: seq<PlanEntry>, a: Assignment) returns (r: Outcome<seq<PlanEntry>>)
    requires |plan| == |lines|
    ensures r == Assign(lines, plan, a)
  {
    var k := FindEntry(plan, a.key);
    if k == |plan| { return Failed(UnknownLine); }
    if a.source == Unsupported { return Failed(UnsupportedSource); }
    if a.cents <= 0 { return Done(plan); }
    var nextTotal := plan[k].total + a.cents;
    if nextTotal > lines[k].subtotal { return Failed(ExceedsSubtotal); }
    var next := plan[k := plan[k].(assignments := plan[k].assignments + [a])];
    next := next[k := next[k].(total := nextTotal)];
    assert next == plan[k := PlanEntry(plan[k].key, plan[k].assignments + [a], plan[k].total + a.cents)];
    r := Done(next);
  }

  /** The first rejected assignment decides the outcome. */
  lemma {:induction false} FailurePersists(lines: seq<PlanLine>, assignments: seq<Assignment>, i: nat)
    requires i <= |assignments| && PlanOf(lines, assignments[..i]).Failed?
    ensures PlanOf(lines, assignments) == PlanOf(lines, assignments[..i])
    decreases |assignments| - i
  {
    if i == |assignments| {
      assert assignments[..i] == assignments;
    } else {
      assert assignments[..i + 1][..i] == assignments[..i];
      FailurePersists(lines, assignments, i + 1);
    }
  }

  /** What was assigned to one line: positive assignments only. */
  function AssignedTo(assignments: seq<Assignment>, key: LineKey): nat {
    if assignments == [] then 0
    else
      var a := assignments[|assignments| - 1];
      AssignedTo(assignments[..|assignments| - 1], key) + if a.key == key then Max0(a.cents) else 0
  }

  ghost predicate PlanReflects(lines: seq<PlanLine>, plan: seq<PlanEntry>, assignments: seq<Assignment>) {
    && |plan| == |lines|
    && forall k :: 0 <= k < |lines| ==> plan[k].key == lines[k].key && plan[k].total == AssignedTo(assignments, lines[k].key)
  }

  /** Every assignment names a line and a known source; no line gets more than its subtotal. */
  ghost predicate Assignable(lines: seq<PlanLine>, assignments: seq<Assignment>) {
    && (forall i :: 0 <= i < |assignments| ==> NamesLine(lines, assignments[i]))
    && AllWithin(lines, assignments)
  }

  ghost predicate AllWithin(lines: seq<PlanLine>, assignments: seq<Assignment>) {
    forall k :: 0 <= k < |lines| ==> WithinSubtotal(lines[k], AssignedTo(assignments, lines[k].key))
  }

  ghost predicate NamesLine(lines: seq<PlanLine>, a: Assignment) {
    a.source != Unsupported && exists k :: 0 <= k < |lines| && lines[k].key == a.key
  }

  predicate WithinSubtotal(line: PlanLine, given: nat) { given == 0 || given <= line.subtotal }

  lemma AssignedSnoc(init: seq<Assignment>, a: Assignment, key: LineKey)
    ensures AssignedTo(init + [a], key) == AssignedTo(init, key) + if a.key == key then Max0(a.cents) else 0
  {
    assert (init + [a])[..|init|] == init;
  }

  lemma AssignExact(lines: seq<PlanLine>, plan: seq<PlanEntry>, init: seq<Assignment>, a: Assignment)
    requires DistinctLines(lines) && PlanReflects(lines, plan, init)
    requires AllWithin(lines, init)
    ensures Assign(lines, plan, a).Done? ==> PlanReflects(lines, Assign(lines, plan, a).value, init + [a])
    ensures Assign(lines, plan, a).Done? <==> NamesLine(lines, a) && AllWithin(lines, init + [a])
  {
    var k := FindEntry(plan, a.key);
    forall j | 0 <= j < |lines|
      ensures AssignedTo(init + [a], lines[j].key) == AssignedTo(init, lines[j].key) + if j == k then Max0(a.cents) else 0
      ensures plan[j].key == lines[j].key
    {
      AssignedSnoc(init, a, lines[j].key);
      if lines[j].key == a.key { assert plan[j].key == a.key; }
    }
    if k < |plan| { assert lines[k].key == a.key; }
  }

  lemma {:induction false} PlanOfExact(lines: seq<PlanLine>, assignments: seq<Assignment>)
    requires DistinctLines(lines)
    ensures PlanOf(lines, assignments).Done? ==> PlanReflects(lines, PlanOf(lines, assignments).value, assignments)
    ensures PlanOf(lines, assignments).Done? <==> Assignable(lines, assignments)
  {
    if assignments != [] {
      var init, a := assignments[..|assignments| - 1], assignments[|assignments| - 1];
      PlanOfExact(lines, init);
      assert assignments == init + [a];
      forall k | 0 <= k < |lines|
        ensures WithinSubtotal(lines[k], AssignedTo(assignments, lines[k].key))
            ==> WithinSubtotal(lines[k], AssignedTo(init, lines[k].key))
      {
        AssignedSnoc(init, a, lines[k].key);
      }
      if PlanOf(lines, init).Done? { AssignExact(lines, PlanOf(lines, init).value, init, a); }
      assert Assignable(lines, assignments) ==> Assignable(lines, init) by {
        assert forall i :: 0 <= i < |init| ==> init[i] == assignments[i];
      }
      assert Assignable(lines, assignments) <==> Assignable(lines, init) && NamesLine(lines, a) && AllWithin(lines, assignments);
    }
  }

  /** A plan succeeds iff its assignments are assignable to the lines by key; then each entry
      holds exactly what was assigned to its line. */
  lemma PlanExact(lines: seq<PlanLine>, assignments: seq<Assignment>)
    ensures PlanFrom(lines, assignments).Done? <==> Assignable(LineMap(lines), assignments)
    ensures PlanFrom(lines, assignments).Done? ==> PlanReflects(LineMap(lines), PlanFrom(lines, assignments).value, assignments)
    ensures DistinctLines(lines) ==> LineMap(lines) == lines
  {
    LineMapDistinct(lines);
    PlanOfExact(LineMap(lines), assignments);
    if DistinctLines(lines) { LineMapOfDistinct(lines); }
  }

  predicate HasKey(lines: seq<PlanLine>, key: LineKey) { exists k :: 0 <= k < |lines| && lines[k].key == key }

  /** A plan fails on the first assignment that cannot be taken: its line is unknown, else its source
      is, else it is positive and brings its line above the subtotal. */
  lemma {:induction false} PlanFailure(lines: seq<PlanLine>, assignments: seq<Assignment>) returns (i: nat)
    requires DistinctLines(lines) && PlanOf(lines, assignments).Failed?
    ensures i < |assignments| && PlanOf(lines, assignments[..i]).Done?
    ensures var a, error := assignments[i], PlanOf(lines, assignments).error;
      if !HasKey(lines, a.key) then error == UnknownLine
      else if a.source == Unsupported then error == UnsupportedSource
      else && error == ExceedsSubtotal && a.cents > 0
           && forall k :: 0 <= k < |lines| && lines[k].key == a.key ==> AssignedTo(assignments[..i], a.key) + a.cents > lines[k].subtotal
  {
    var n := |assignments| - 1;
    var init := assignments[..n];
    if PlanOf(lines, init).Failed? {
      i := PlanFailure(lines, init);
      assert init[..i] == assignments[..i];
    } else {
      i := n;
      PlanOfExact(lines, init);
      var plan := PlanOf(lines, init).value;
      var k := FindEntry(plan, assignments[n].key);
      if j :| 0 <= j < |lines| && lines[j].key == assignments[n].key { assert plan[j].key == assignments[n].key; }
      if k < |plan| { assert lines[k].key == assignments[n].key; }
    }
  }

  // ------------------------------------------------------------------ pricing

  /** Rounds num / den to the nearest cent, halves up. */
  function RoundDiv(num: int, den: int): int
    requires den > 0
  {
    (2 * num + den) / (2 * den)
  }

  function LineIsv(subtotal: int, discount: int, rate: nat, includesIsv: bool): int {
    var base := Max0(subtotal - discount);
    if rate == 0 then 0
    else if includesIsv then RoundDiv(base * rate, 10000 + rate)
    else RoundDiv(base * rate, 10000)
  }

  function LineTotal(subtotal: int, discount: int, isv: int, includesIsv: bool): int {
    Max0(Max0(subtotal - discount) + if includesIsv then 0 else isv)
  }

  function Priced(row: Row, discount: int): Row {
    var isv := LineIsv(row.subtotal, discount, row.isvRate, row.includesIsv);
    row.(discount := discount, isv := isv, total := LineTotal(row.subtotal, discount, isv, row.includesIsv))
  }

  /** `cents` is num / den to the nearest cent, halves up. */
  predicate NearestCent(cents: int, num: int, den: int) { 2 * num - den < 2 * cents * den <= 2 * num + den }

  lemma RoundsToNearest(num: int, den: int)
    requires den > 0
    ensures NearestCent(RoundDiv(num, den), num, den)
    ensures num >= 0 ==> RoundDiv(num, den) >= 0
  {
    var q := RoundDiv(num, den);
    DivisionIdentity(2 * num + den, 2 * den);
    assert 2 * q * den == (2 * den) * q;
  }

  /** The tax of a priced row: none at rate zero; a rate contained in the price takes the part
      rate / (100 + rate) out of the discounted amount and leaves the total at that amount; any
      other rate is added on top of it. */
  lemma TaxOfRow(row: Row, discount: int)
    ensures var base, priced := if row.subtotal > discount then row.subtotal - discount else 0, Priced(row, discount);
      && priced.discount == discount && priced.subtotal == row.subtotal && priced.key == row.key
      && priced.total == (if row.includesIsv then base else base + priced.isv) && priced.isv >= 0
      && (row.isvRate == 0 ==> priced.isv == 0)
      && (row.isvRate > 0 && row.includesIsv ==> NearestCent(priced.isv, base * row.isvRate, 10000 + row.isvRate))
      && (row.isvRate > 0 && !row.includesIsv ==> NearestCent(priced.isv, base * row.isvRate, 10000))
  {
    var base := Max0(row.subtotal - discount);
    Products(base, row.isvRate);
    RoundsToNearest(base * row.isvRate, 10000 + row.isvRate);
    RoundsToNearest(base * row.isvRate, 10000);
  }

  lemma Products(a: nat, b: nat)
    ensures a * b >= 0
  {}

  function Subtotals(rows: seq<Row>): seq<int> { seq(|rows|, i requires 0 <= i < |rows| => rows[i].subtotal) }
  function RowDiscounts(rows: seq<Row>): seq<int> { seq(|rows|, i requires 0 <= i < |rows| => rows[i].discount) }
  function RowTotals(rows: seq<Row>): seq<int> { seq(|rows|, i requires 0 <= i < |rows| => rows[i].total) }
  function RowIsv(rows: seq<Row>): seq<int> { seq(|rows|, i requires 0 <= i < |rows| => rows[i].isv) }
  function EntryTotals(plan: seq<PlanEntry>): seq<int> { seq(|plan|, i requires 0 <= i < |plan| => plan[i].total) }

  datatype Summary = Summary(subtotal: int, discount: int, isv: int, total: int)

  function SummarizeAppointmentDetailRows(rows: seq<Row>): Summary {
    Summary(Sum(Subtotals(rows)), Sum(RowDiscounts(rows)), Sum(RowIsv(rows)), Sum(RowTotals(rows)))
  }

  datatype PlanArgument =
    | NoPlan(requested: int)
    | PlanMap(entries: seq<PlanEntry>)
    | PlanObject(assignments: seq<Assignment>)

  function PlannedFor(plan: seq<PlanEntry>, key: LineKey): int {
    var k := FindEntry(plan, key);
    if k < |plan| then plan[k].total else 0
  }

  function MinOf(a: int, b: int): int { if a < b then a else b }

  /** The proportional share of one row when there is no plan. */
  function RowShare(requested: int, subtotal: int, rowSubtotal: int, remaining: int, last: bool): int {
    var discount := if last then remaining
                    else if subtotal > 0 then RoundDiv(requested * rowSubtotal, subtotal) else 0;
    Max0(MinOf(MinOf(discount, remaining), rowSubtotal))
  }

  /** Discounts of rows i.. without a plan, and what is left unassigned at the end. */
  function Proportional(subtotals: seq<int>, requested: int, subtotal: int, i: nat, remaining: int): (seq<int>, int)
    requires i <= |subtotals|
    decreases |subtotals| - i
  {
    if i == |subtotals| then ([], remaining)
    else
      var d := RowShare(requested, subtotal, subtotals[i], remaining, i == |subtotals| - 1);
      var rest := Proportional(subtotals, requested, subtotal, i + 1, Max0(remaining - d));
      ([d] + rest.0, rest.1)
  }

  /** Rows priced with one discount each; fails on the first row given too much. */
  function PricedWith(rows: seq<Row>, discounts: seq<int>): Outcome<seq<Row>>
    requires |rows| == |discounts|
  {
    if exists i :: 0 <= i < |rows| && discounts[i] > rows[i].subtotal then Failed(ExceedsSubtotal)
    else Done(seq(|rows|, i requires 0 <= i < |rows| => Priced(rows[i], discounts[i])))
  }

  function PlanDiscounts(rows: seq<Row>, plan: seq<PlanEntry>): seq<int> {
    seq(|rows|, i requires 0 <= i < |rows| => PlannedFor(plan, rows[i].key))
  }

  function DetailRows(rows: seq<Row>, argument: PlanArgument): Outcome<seq<Row>> {
    match argument
    case NoPlan(requested) =>
      PricedWith(rows, ProportionalAll(Subtotals(rows), requested))
    case PlanMap(plan) => PlannedRows(rows, plan)
    case PlanObject(assignments) =>
      var plan := PlanFrom(PlanLines(rows), assignments);
      if plan.Failed? then Failed(plan.error) else PlannedRows(rows, plan.value)
  }

  function ProportionalAll(subtotals: seq<int>, requested: int): (r: seq<int>)
    ensures |r| == |subtotals|
  {
    var subtotal := Sum(subtotals);
    ProportionalLength(subtotals, requested, subtotal, 0, MinOf(requested, subtotal));
    Proportional(subtotals, requested, subtotal, 0, MinOf(requested, subtotal)).0
  }

  lemma {:induction false} ProportionalLength(subtotals: seq<int>, requested: int, subtotal: int, i: nat, remaining: int)
    requires i <= |subtotals|
    ensures |Proportional(subtotals, requested, subtotal, i, remaining).0| == |subtotals| - i
    decreases |subtotals| - i
  {
    if i < |subtotals| {
      var d := RowShare(requested, subtotal, subtotals[i], remaining, i == |subtotals| - 1);
      ProportionalLength(subtotals, requested, subtotal, i + 1, Max0(remaining - d));
    }
  }

  function PlanLines(rows: seq<Row>): seq<PlanLine> {
    seq(|rows|, i requires 0 <= i < |rows| => PlanLine(rows[i].key, rows[i].subtotal))
  }

  function PlannedRows(rows: seq<Row>, plan: seq<PlanEntry>): Outcome<seq<Row>> {
    var priced := PricedWith(rows, PlanDiscounts(rows, plan));
    if priced.Failed? then priced
    else if Sum(RowDiscounts(priced.value)) != Sum(EntryTotals(plan)) then Failed(PlanMismatch)
    else priced
  }

  /** The pricing loop of buildAppointmentDetailRows over rows already grouped. */
  method PriceRows(rows: seq<Row>, discounts: seq<int>) returns (r: Outcome<seq<Row>>)
    requires |rows| == |discounts|
    ensures r == PricedWith(rows, discounts)
  {
    var priced := rows;
    for i := 0 to |rows|
      invariant |priced| == |rows|
      invariant forall j :: 0 <= j < i ==> discounts[j] <= rows[j].subtotal && priced[j] == Priced(rows[j], discounts[j])
      invariant forall j :: i <= j < |rows| ==> priced[j] == rows[j]
    {
      var row := priced[i];
      row := row.(discount := discounts[i]);
      if row.discount > row.subtotal { return Failed(ExceedsSubtotal); }
      row := row.(isv := LineIsv(row.subtotal, row.discount, row.isvRate, row.includesIsv));
      row := row.(total := LineTotal(row.subtotal, row.discount, row.isv, row.includesIsv));
      priced := priced[i := row];
    }
    assert priced == seq(|rows|, i requires 0 <= i < |rows| => Priced(rows[i], discounts[i]));
    r := Done(priced);
  }

  method ShareProportionally(rows: seq<Row>, requested: int) returns (discounts: seq<int>)
    ensures discounts == ProportionalAll(Subtotals(rows), requested)
  {
    var subtotals := Subtotals(rows);
    var subtotal := Sum(subtotals);
    var remaining := MinOf(requested, subtotal);
    discounts := [];
    ghost var all := Proportional(subtotals, requested, subtotal, 0, remaining).0;
    for i := 0 to |rows|
      invariant discounts + Proportional(subtotals, requested, subtotal, i, remaining).0 == all
    {
      var d := RowShare(requested, subtotal, subtotals[i], remaining, i == |rows| - 1);
      ghost var before, rest := discounts, Proportional(subtotals, requested, subtotal, i + 1, Max0(remaining - d)).0;
      assert Proportional(subtotals, requested, subtotal, i, remaining).0 == [d] + rest;
      assert before + ([d] + rest) == (before + [d]) + rest;
      discounts := discounts + [d];
      remaining := Max0(remaining - d);
    }
  }

  method BuildAppointmentDetailRows(items: seq<Item>, ordenIntegrante: int, isvEnabled: bool, argument: PlanArgument)
    returns (r: Outcome<seq<Row>>)
    ensures r == DetailRows(RowsOf(items, AtLeastOne(ordenIntegrante), isvEnabled), argument)
  {
    var rows := GroupRows(items, ordenIntegrante, isvEnabled);
    var plan: seq<PlanEntry>;
    match argument {
      case NoPlan(requested) =>
        var shares := ShareProportionally(rows, requested);
        r := PriceRows(rows, shares);
        return;
      case PlanMap(entries) => plan := entries;
      case PlanObject(assignments) =>
        var built := BuildDiscountPlan(PlanLines(rows), assignments);
        if built.Failed? { return Failed(built.error); }
        plan := built.value;
    }
    r := PriceRows(rows, PlanDiscounts(rows, plan));
    if r.Failed? { return; }
    if Sum(RowDiscounts(r.value)) != Sum(EntryTotals(plan)) { return Failed(PlanMismatch); }
  }

  ghost predicate SoundRows(rows: seq<Row>, member: nat) {
    && (forall i :: 0 <= i < |rows| ==> rows[i].key == LineKey(member, rows[i].group, 1))
    && (forall i, j :: 0 <= i < j < |rows| ==> rows[i].group != rows[j].group)
  }

  lemma AddRowSound(rows: seq<Row>, item: Item, member: nat, isvEnabled: bool)
    requires SoundRows(rows, member) && item.ownKey == Nothing
    ensures SoundRows(AddRow(rows, item, member, isvEnabled), member)
  {
    var k := FindRow(rows, item.group);
  }

  /** One row per group, so row keys are distinct too when no item brings its own. */
  lemma {:induction false} RowsAreSound(items: seq<Item>, member: nat, isvEnabled: bool)
    requires forall i :: 0 <= i < |items| ==> items[i].ownKey == Nothing
    ensures SoundRows(RowsOf(items, member, isvEnabled), member)
    ensures DistinctLines(PlanLines(RowsOf(items, member, isvEnabled)))
  {
    if items != [] {
      RowsAreSound(items[..|items| - 1], member, isvEnabled);
      AddRowSound(RowsOf(items[..|items| - 1], member, isvEnabled), items[|items| - 1], member, isvEnabled);
    }
  }

  // ----------------------------------------------------------- without a plan

  /** The rounded share of every row in the request. */
  function RoundedShares(subtotals: seq<int>, requested: int, total: int): seq<int>
    requires total > 0
  {
    seq(|subtotals|, i requires 0 <= i < |subtotals| => RoundDiv(requested * subtotals[i], total))
  }

  /** What the last row would have to take, and cannot: the request less the rounded shares
      of the other rows and less the last subtotal. */
  function Unplaced(subtotals: seq<int>, requested: int): int {
    var total, n := Sum(subtotals), |subtotals|;
    if requested <= 0 || requested >= total then 0
    else Max0(requested - SumTo(RoundedShares(subtotals, requested, total), n - 1) - subtotals[n - 1])
  }

  lemma ShareWithin(requested: int, rowSubtotal: int, total: int)
    requires 0 <= requested <= total && total > 0 && rowSubtotal >= 0
    ensures 0 <= RoundDiv(requested * rowSubtotal, total) <= rowSubtotal
  {
    Scale2(rowSubtotal, requested, total);
    HalfUp(requested * rowSubtotal, total, rowSubtotal);
  }

  lemma HalfUp(product: int, total: int, bound: int)
    requires total > 0 && 0 <= product <= total * bound
    ensures 0 <= RoundDiv(product, total) <= bound
  {
    var num, den := 2 * product + total, 2 * total;
    DivisionIdentity(num, den);
    assert den * (bound + 1) == 2 * (total * bound) + den;
    if num / den > bound { Scale(den, bound + 1, num / den); }
  }

  lemma ShareCovers(requested: int, rowSubtotal: int, total: int)
    requires requested >= total > 0 && rowSubtotal >= 0
    ensures RoundDiv(requested * rowSubtotal, total) >= rowSubtotal
  {
    Scale2(rowSubtotal, total, requested);
    QuotientAtLeast(2 * (requested * rowSubtotal) + total, 2 * total, rowSubtotal);
  }

  lemma Scale2(k: int, a: int, b: int)
    requires k >= 0 && a <= b
    ensures a * k <= b * k
    ensures a >= 0 ==> 0 <= a * k
  {}

  lemma PlusOne(k: int, q: int)
    ensures k * (q + 1) == k * q + k
  {}

  lemma QuotientAtLeast(x: int, den: int, bound: int)
    requires den > 0 && den * bound <= x
    ensures x / den >= bound
  {
    DivisionIdentity(x, den);
    PlusOne(den, x / den);
    if x / den < bound { Scale(den, x / den + 1, bound); }
  }

  /** Every discount lies between nothing and its row; together with what is left over at
      the end the discounts make up what there was to give. */
  lemma {:induction false} ProportionalWithin(subtotals: seq<int>, requested: int, total: int, i: nat, remaining: int)
    requires i <= |subtotals| && AllNonNegative(subtotals)
    ensures var p := Proportional(subtotals, requested, total, i, remaining);
      && |p.0| == |subtotals| - i
      && (forall k :: 0 <= k < |p.0| ==> 0 <= p.0[k] <= subtotals[i + k])
      && (remaining >= 0 ==> Sum(p.0) + p.1 == remaining && p.1 >= 0)
      && (remaining <= 0 ==> Sum(p.0) == 0)
    decreases |subtotals| - i
  {
    if i < |subtotals| {
      var d := RowShare(requested, total, subtotals[i], remaining, i == |subtotals| - 1);
      var rest := Proportional(subtotals, requested, total, i + 1, Max0(remaining - d));
      ProportionalWithin(subtotals, requested, total, i + 1, Max0(remaining - d));
      SumCons(d, rest.0);
    }
  }

  lemma ShareIsNearest(subtotals: seq<int>, requested: int, total: int, k: nat)
    requires total > 0 && k < |subtotals|
    ensures NearestCent(RoundedShares(subtotals, requested, total)[k], requested * subtotals[k], total)
  {
    RoundsToNearest(requested * subtotals[k], total);
  }

  /** Row k of a list of discounts takes its rounded share, the last row what is left, but no row
      more than is left or than its own subtotal. */
  predicate TakesShare(given: seq<int>, subtotals: seq<int>, shares: seq<int>, from: nat, left: int, k: nat)
    requires |given| == |subtotals| - from && |shares| == |subtotals| && k < |given|
  {
    given[k] == MinOf(if from + k == |subtotals| - 1 then left else MinOf(shares[from + k], left), subtotals[from + k])
  }

  lemma {:induction false} SharesEach(subtotals: seq<int>, requested: int, total: int, i: nat, remaining: int)
    requires i <= |subtotals| && AllNonNegative(subtotals) && 0 < requested <= total && remaining >= 0
    ensures var given, shares := Proportional(subtotals, requested, total, i, remaining).0, RoundedShares(subtotals, requested, total);
      |given| == |subtotals| - i && forall k: nat :: k < |given| ==> TakesShare(given, subtotals, shares, i, remaining - SumTo(given, k), k)
    decreases |subtotals| - i
  {
    if i < |subtotals| {
      var d := RowShare(requested, total, subtotals[i], remaining, i == |subtotals| - 1);
      var given, rest := Proportional(subtotals, requested, total, i, remaining).0, Proportional(subtotals, requested, total, i + 1, Max0(remaining - d)).0;
      var shares := RoundedShares(subtotals, requested, total);
      ShareWithin(requested, subtotals[i], total);
      SharesEach(subtotals, requested, total, i + 1, Max0(remaining - d));
      assert given == [d] + rest && 0 <= d <= remaining;
      SharesCons(d, rest, subtotals, shares, i, remaining);
    }
  }

  lemma SharesCons(d: int, rest: seq<int>, subtotals: seq<int>, shares: seq<int>, i: nat, remaining: int)
    requires i < |subtotals| == |shares| && |rest| == |subtotals| - i - 1
    requires TakesShare([d] + rest, subtotals, shares, i, remaining, 0)
    requires forall k: nat :: k < |rest| ==> TakesShare(rest, subtotals, shares, i + 1, remaining - d - SumTo(rest, k), k)
    ensures forall k: nat :: k <= |rest| ==> TakesShare([d] + rest, subtotals, shares, i, remaining - SumTo([d] + rest, k), k)
  {
    forall k: nat | k <= |rest| ensures TakesShare([d] + rest, subtotals, shares, i, remaining - SumTo([d] + rest, k), k) {
      if k > 0 {
        SumConsTo(d, rest, k - 1);
        assert TakesShare(rest, subtotals, shares, i + 1, remaining - d - SumTo(rest, k - 1), k - 1);
      }
    }
  }

  /** Without a plan, what each row is given of the request; `shares` are to the nearest cent. */
  lemma ProportionalEach(subtotals: seq<int>, requested: int) returns (shares: seq<int>)
    requires AllNonNegative(subtotals) && 0 < requested <= Sum(subtotals)
    ensures var given := ProportionalAll(subtotals, requested);
      && |shares| == |subtotals|
      && (forall k :: 0 <= k < |subtotals| ==> NearestCent(shares[k], requested * subtotals[k], Sum(subtotals)))
      && forall k: nat :: k < |subtotals| ==> TakesShare(given, subtotals, shares, 0, requested - SumTo(given, k), k)
  {
    shares := RoundedShares(subtotals, requested, Sum(subtotals));
    SharesEach(subtotals, requested, Sum(subtotals), 0, requested);
    forall k | 0 <= k < |subtotals| ensures NearestCent(shares[k], requested * subtotals[k], Sum(subtotals)) {
      ShareIsNearest(subtotals, requested, Sum(subtotals), k);
    }
  }

  /** The loop from row i on a request below the total: what stays unplaced is the amount
      left, less the rounded shares of rows i to the last but one and less the last row. */
  lemma {:induction false} LeftOverInside(subtotals: seq<int>, requested: int, total: int, i: nat, remaining: int)
    requires i < |subtotals| && AllNonNegative(subtotals) && 0 < requested < total && remaining >= 0
    ensures var shares, n := RoundedShares(subtotals, requested, total), |subtotals|;
      Proportional(subtotals, requested, total, i, remaining).1
        == Max0(remaining - (SumTo(shares, n - 1) - SumTo(shares, i)) - subtotals[n - 1])
    decreases |subtotals| - i
  {
    var shares, n := RoundedShares(subtotals, requested, total), |subtotals|;
    if i < n - 1 {
      ShareWithin(requested, subtotals[i], total);
      var d := RowShare(requested, total, subtotals[i], remaining, false);
      assert d == MinOf(shares[i], remaining);
      LeftOverInside(subtotals, requested, total, i + 1, Max0(remaining - d));
      assert SumTo(shares, i + 1) == SumTo(shares, i) + shares[i];
      SharesFrom(subtotals, requested, total, i + 1);
    }
  }

  lemma {:induction false} SharesFrom(subtotals: seq<int>, requested: int, total: int, i: nat)
    requires i < |subtotals| && AllNonNegative(subtotals) && 0 < requested < total
    ensures var shares := RoundedShares(subtotals, requested, total); SumTo(shares, i) <= SumTo(shares, |subtotals| - 1)
    decreases |subtotals| - i
  {
    if i < |subtotals| - 1 {
      SharesFrom(subtotals, requested, total, i + 1);
      ShareWithin(requested, subtotals[i], total);
    }
  }

  /** A request of the whole total or more fills every row. */
  lemma {:induction false} NothingLeftOver(subtotals: seq<int>, requested: int, total: int, i: nat)
    requires i <= |subtotals| && AllNonNegative(subtotals) && total == Sum(subtotals) && requested >= total
    ensures Proportional(subtotals, requested, total, i, total - SumTo(subtotals, i)).1 == 0
    decreases |subtotals| - i
  {
    if i < |subtotals| {
      var remaining := total - SumTo(subtotals, i);
      SumToGrows(subtotals, i);
      SumToGrows(subtotals, i + 1);
      if total > 0 { ShareCovers(requested, subtotals[i], total); }
      if i == |subtotals| - 1 { assert remaining == subtotals[i]; }
      assert RowShare(requested, total, subtotals[i], remaining, i == |subtotals| - 1) == subtotals[i];
      NothingLeftOver(subtotals, requested, total, i + 1);
    }
  }

  lemma {:induction false} SumToGrows(s: seq<int>, i: nat)
    requires i <= |s| && AllNonNegative(s)
    ensures 0 <= SumTo(s, i) <= Sum(s)
    decreases |s| - i
  {
    if i < |s| { SumToGrows(s, i + 1); }
    SumToNonNegative(s, i);
  }

  lemma ProportionalSum(s: seq<int>, requested: int)
    requires AllNonNegative(s)
    ensures Sum(ProportionalAll(s, requested)) == Max0(MinOf(requested, Sum(s))) - Unplaced(s, requested)
    ensures forall i :: 0 <= i < |s| ==> ProportionalAll(s, requested)[i] <= s[i]
  {
    var total := Sum(s);
    ProportionalWithin(s, requested, total, 0, MinOf(requested, total));
    if requested >= total {
      NothingLeftOver(s, requested, total, 0);
      SumToGrows(s, |s|);
    } else if requested > 0 {
      LeftOverInside(s, requested, total, 0, requested);
    }
  }

  /** Without a plan pricing never fails, and the row discounts fall short of the request,
      capped by the total, by exactly what is unplaced. */
  lemma ProportionalShortfall(rows: seq<Row>, requested: int)
    requires AllNonNegative(Subtotals(rows))
    ensures var s, r := Subtotals(rows), DetailRows(rows, NoPlan(requested));
      r.Done? && Sum(RowDiscounts(r.value)) == Max0(MinOf(requested, Sum(s))) - Unplaced(s, requested)
  {
    var s := Subtotals(rows);
    ProportionalSum(s, requested);
    PricedDiscounts(rows, ProportionalAll(s, requested));
  }

  lemma PricedDiscounts(rows: seq<Row>, discounts: seq<int>)
    requires |rows| == |discounts| && forall i :: 0 <= i < |rows| ==> discounts[i] <= rows[i].subtotal
    ensures PricedWith(rows, discounts).Done? && RowDiscounts(PricedWith(rows, discounts).value) == discounts
  {}

  /** Without a plan the rows receive the whole request, capped by the total, exactly when it
      is nothing or at least the total, or when the rounded shares of all rows but the last
      leave no more than the last row can take; every part of that is known before the call. */
  lemma ProportionalMeetsRequestIff(rows: seq<Row>, requested: int)
    requires AllNonNegative(Subtotals(rows))
    ensures var s, r := Subtotals(rows), DetailRows(rows, NoPlan(requested));
      && r.Done?
      && (Sum(RowDiscounts(r.value)) == Max0(MinOf(requested, Sum(s))) <==>
            || requested <= 0 || requested >= Sum(s)
            || requested <= SumTo(RoundedShares(s, requested, Sum(s)), |s| - 1) + s[|s| - 1])
  {
    ProportionalShortfall(rows, requested);
  }

  lemma SumOfFive(s: seq<int>)
    requires |s| == 5
    ensures Sum(s) == s[0] + s[1] + s[2] + s[3] + s[4]
    ensures SumTo(s, 4) == s[0] + s[1] + s[2] + s[3]
  {
    assert SumTo(s, 0) == 0;
    assert SumTo(s, 2) == s[0] + s[1];
    assert SumTo(s, 4) == s[0] + s[1] + s[2] + s[3];
  }

  /** It does fall short: of two cents requested, rows of 2, 2, 2, 2 and 1 cents receive one. */
  lemma ProportionalFallsShort(rows: seq<Row>)
    requires Subtotals(rows) == [2, 2, 2, 2, 1]
    ensures var r := DetailRows(rows, NoPlan(2));
      r.Done? && Sum(RowDiscounts(r.value)) == 1 && Sum(Subtotals(rows)) == 9
  {
    var s := Subtotals(rows);
    SumOfFive(s);
    var shares := RoundedShares(s, 2, 9);
    SumOfFive(shares);
    assert RoundDiv(4, 9) == 0;
    ProportionalShortfall(rows, 2);
  }

  // -------------------------------------------------------------- composition

  /** Discount lines as the allocation sees them. */
  function Allocatable(lines: seq<DiscountLine>): seq<Line<LineKey>> {
    seq(|lines|, i requires 0 <= i < |lines| => Line(lines[i].key, lines[i].available))
  }

  function AsPlanLines(lines: seq<DiscountLine>): seq<PlanLine> {
    seq(|lines|, i requires 0 <= i < |lines| => PlanLine(lines[i].key, lines[i].subtotal))
  }

  /** Awards turned into assignments of one source. */
  function AsAssignments(awards: seq<Award<LineKey>>, source: Source): seq<Assignment> {
    seq(|awards|, i requires 0 <= i < |awards| => Assignment(awards[i].key, source, awards[i].cents))
  }

  function PositiveCents(assignments: seq<Assignment>): int {
    if assignments == [] then 0
    else PositiveCents(assignments[..|assignments| - 1]) + Max0(assignments[|assignments| - 1].cents)
  }

  lemma {:induction false} SumUpdateTo(s: seq<int>, k: nat, x: int, n: nat)
    requires k < n <= |s|
    ensures SumTo(s[k := s[k] + x], n) == SumTo(s, n) + x
  {
    if k < n - 1 { SumUpdateTo(s, k, x, n - 1); } else { SumPrefix(s, s[k := s[k] + x], k); }
  }

  lemma SumUpdate(s: seq<int>, k: nat, x: int)
    requires k < |s|
    ensures Sum(s[k := s[k] + x]) == Sum(s) + x
  {
    SumUpdateTo(s, k, x, |s|);
  }

  lemma {:induction false} SumZeroTo(s: seq<int>, n: nat)
    requires n <= |s| && forall i :: 0 <= i < |s| ==> s[i] == 0
    ensures SumTo(s, n) == 0
  {
    if n > 0 { SumZeroTo(s, n - 1); }
  }

  lemma AssignConserves(lines: seq<PlanLine>, plan: seq<PlanEntry>, a: Assignment)
    requires |plan| == |lines| && Assign(lines, plan, a).Done?
    ensures Sum(EntryTotals(Assign(lines, plan, a).value)) == Sum(EntryTotals(plan)) + Max0(a.cents)
  {
    var k := FindEntry(plan, a.key);
    if a.cents > 0 {
      var after := Assign(lines, plan, a).value;
      assert EntryTotals(after) == EntryTotals(plan)[k := EntryTotals(plan)[k] + a.cents];
      SumUpdate(EntryTotals(plan), k, a.cents);
    }
  }

  /** A plan conserves: its totals add up to the positive cents assigned. */
  lemma {:induction false} PlanConserves(lines: seq<PlanLine>, assignments: seq<Assignment>)
    requires PlanOf(lines, assignments).Done?
    ensures Sum(EntryTotals(PlanOf(lines, assignments).value)) == PositiveCents(assignments)
  {
    if assignments == [] {
      SumZeroTo(EntryTotals(EmptyPlan(lines)), |lines|);
    } else {
      var init := assignments[..|assignments| - 1];
      PlanConserves(lines, init);
      AssignConserves(lines, PlanOf(lines, init).value, assignments[|assignments| - 1]);
    }
  }

  /** The assignment of one part, when its award is positive. */
  function OneAward(part: Line<LineKey>, cents: int, source: Source): seq<Assignment> {
    if cents > 0 then [Assignment(part.key, source, cents)] else []
  }

  /** The assignments of the first n parts, then that of the last one. */
  lemma AwardsSnoc(parts: seq<Line<LineKey>>, cents: seq<int>, source: Source)
    requires |parts| == |cents| && |parts| > 0
    ensures AsAssignments(Awards(parts, cents), source)
         == AsAssignments(Awards(parts[..|parts| - 1], cents[..|parts| - 1]), source)
            + OneAward(parts[|parts| - 1], cents[|parts| - 1], source)
  {}

  lemma PositiveSnoc(before: seq<Assignment>, part: Line<LineKey>, cents: int, source: Source)
    ensures PositiveCents(before + OneAward(part, cents, source)) == PositiveCents(before) + Max0(cents)
  {
    var one := OneAward(part, cents, source);
    if cents > 0 {
      assert (before + one)[..|before|] == before;
    } else {
      assert before + one == before;
    }
  }

  lemma AssignedSnocAward(before: seq<Assignment>, part: Line<LineKey>, cents: int, source: Source, key: LineKey)
    ensures AssignedTo(before + OneAward(part, cents, source), key)
         == AssignedTo(before, key) + if part.key == key then Max0(cents) else 0
  {
    if cents > 0 {
      AssignedSnoc(before, Assignment(part.key, source, cents), key);
    } else {
      assert before + OneAward(part, cents, source) == before;
    }
  }

  lemma {:induction false} AwardsTotal(parts: seq<Line<LineKey>>, cents: seq<int>, source: Source)
    requires |parts| == |cents| && AllNonNegative(cents)
    ensures PositiveCents(AsAssignments(Awards(parts, cents), source)) == Sum(cents)
  {
    if parts != [] {
      var n := |parts| - 1;
      AwardsTotal(parts[..n], cents[..n], source);
      SumSnoc(cents);
      AwardsSnoc(parts, cents, source);
      PositiveSnoc(AsAssignments(Awards(parts[..n], cents[..n]), source), parts[n], cents[n], source);
    }
  }

  ghost predicate DistinctParts(parts: seq<Line<LineKey>>) {
    forall i, j :: 0 <= i < j < |parts| ==> parts[i].key != parts[j].key
  }

  /** A key that no part carries is assigned nothing. */
  lemma {:induction false} NotAwarded(parts: seq<Line<LineKey>>, cents: seq<int>, source: Source, key: LineKey)
    requires |parts| == |cents| && forall i :: 0 <= i < |parts| ==> parts[i].key != key
    ensures AssignedTo(AsAssignments(Awards(parts, cents), source), key) == 0
  {
    if parts != [] {
      var n := |parts| - 1;
      NotAwarded(parts[..n], cents[..n], source, key);
      AwardsSnoc(parts, cents, source);
      AssignedSnocAward(AsAssignments(Awards(parts[..n], cents[..n]), source), parts[n], cents[n], source, key);
    }
  }

  lemma DistinctPrefix(parts: seq<Line<LineKey>>)
    requires DistinctParts(parts) && |parts| > 0
    ensures var n := |parts| - 1;
            DistinctParts(parts[..n]) && forall i :: 0 <= i < n ==> parts[..n][i].key != parts[n].key
  {}

  /** Each key is assigned exactly what its participating line was awarded. */
  lemma {:induction false} AwardedTo(parts: seq<Line<LineKey>>, cents: seq<int>, source: Source, i: nat)
    requires |parts| == |cents| && i < |parts| && cents[i] >= 0 && DistinctParts(parts)
    ensures AssignedTo(AsAssignments(Awards(parts, cents), source), parts[i].key) == cents[i]
  {
    var n, key := |parts| - 1, parts[i].key;
    DistinctPrefix(parts);
    AwardsSnoc(parts, cents, source);
    AssignedSnocAward(AsAssignments(Awards(parts[..n], cents[..n]), source), parts[n], cents[n], source, key);
    if i < n {
      assert parts[..n][i].key == key;
      AwardedTo(parts[..n], cents[..n], source, i);
    } else {
      NotAwarded(parts[..n], cents[..n], source, key);
    }
  }

  lemma {:induction false} AwardsNameParts(parts: seq<Line<LineKey>>, cents: seq<int>, i: nat)
    requires |parts| == |cents| && i < |Awards(parts, cents)|
    ensures exists j :: 0 <= j < |parts| && parts[j].key == Awards(parts, cents)[i].key
  {
    var n := |parts| - 1;
    var before := Awards(parts[..n], cents[..n]);
    if i < |before| {
      AwardsNameParts(parts[..n], cents[..n], i);
      var j :| 0 <= j < |parts[..n]| && parts[..n][j].key == before[i].key;
      assert parts[j].key == Awards(parts, cents)[i].key;
    } else {
      assert parts[n].key == Awards(parts, cents)[i].key;
    }
  }

  /** Every part is some line of the booking with what it can absorb. */
  ghost predicate FromLines(parts: seq<Line<LineKey>>, lines: seq<DiscountLine>) {
    forall i :: 0 <= i < |parts| ==> exists k :: 0 <= k < |lines| && parts[i] == Line(lines[k].key, lines[k].available)
  }

  lemma PartsFromLines(lines: seq<DiscountLine>, rank: LineKey -> int)
    ensures FromLines(Participants(Allocatable(lines), rank), lines)
  {
    var all := Allocatable(lines);
    var parts := Participants(all, rank);
    forall i | 0 <= i < |parts| ensures exists k :: 0 <= k < |lines| && parts[i] == Line(lines[k].key, lines[k].available) {
      assert parts[i] in parts;
      SortedMembers(Eligible(all), rank, parts[i]);
      EligibleMembers(all, parts[i]);
      var k :| 0 <= k < |all| && all[k] == parts[i];
      assert parts[i] == Line(lines[k].key, lines[k].available);
    }
  }

  /** Participants are lines of the booking, each at most once. */
  lemma PartsComeFromLines(lines: seq<DiscountLine>, member: nat, rank: LineKey -> int)
    requires SoundLines(lines, member)
    ensures DistinctParts(Participants(Allocatable(lines), rank))
    ensures FromLines(Participants(Allocatable(lines), rank), lines)
  {
    PartsFromLines(lines, rank);
    assert DistinctParts(Allocatable(lines));
    EligibleKeys(Allocatable(lines));
    SortedKeys(Eligible(Allocatable(lines)), rank);
  }

  lemma {:induction false} EligibleKeys(lines: seq<Line<LineKey>>)
    requires DistinctParts(lines)
    ensures DistinctParts(Eligible(lines))
  {
    if lines != [] {
      var init, last := lines[..|lines| - 1], lines[|lines| - 1];
      EligibleKeys(init);
      forall i | 0 <= i < |Eligible(init)| ensures Eligible(init)[i].key != last.key {
        assert Eligible(init)[i] in Eligible(init);
        EligibleMembers(init, Eligible(init)[i]);
      }
    }
  }

  lemma {:induction false} InsertedKeys(line: Line<LineKey>, lines: seq<Line<LineKey>>, rank: LineKey -> int)
    requires DistinctParts(lines) && forall x :: x in lines ==> x.key != line.key
    ensures DistinctParts(InsertByKey(line, lines, rank))
  {
    if lines == [] || rank(line.key) < rank(lines[0].key) {
      ConsKeys(line, lines);
    } else {
      InsertedKeys(line, lines[1..], rank);
      assert lines[0] in lines;
      forall x | x in InsertByKey(line, lines[1..], rank) ensures x.key != lines[0].key {
        InsertedLine(line, lines[1..], rank, x);
        if x in lines[1..] { var j :| 0 <= j < |lines| - 1 && lines[1..][j] == x; assert lines[j + 1] == x; }
      }
      ConsKeys(lines[0], InsertByKey(line, lines[1..], rank));
    }
  }

  lemma ConsKeys(line: Line<LineKey>, lines: seq<Line<LineKey>>)
    requires DistinctParts(lines) && forall x :: x in lines ==> x.key != line.key
    ensures DistinctParts([line] + lines)
  {
    assert forall j :: 0 <= j < |lines| ==> lines[j] in lines;
  }

  lemma {:induction false} SortedKeys(lines: seq<Line<LineKey>>, rank: LineKey -> int)
    requires DistinctParts(lines)
    ensures DistinctParts(SortByKey(lines, rank))
  {
    if lines != [] {
      var init, last := lines[..|lines| - 1], lines[|lines| - 1];
      SortedKeys(init, rank);
      forall x | x in SortByKey(init, rank) ensures x.key != last.key {
        SortedMembers(init, rank, x);
      }
      InsertedKeys(last, SortByKey(init, rank), rank);
    }
  }

  /** Parts awarded within their capacity are assignable to the lines they come from. */
  lemma AwardsAssignable(lines: seq<DiscountLine>, member: nat, parts: seq<Line<LineKey>>, cents: seq<int>, source: Source)
    requires SoundLines(lines, member) && source != Unsupported && DistinctParts(parts) && |parts| == |cents|
    requires forall k :: 0 <= k < |lines| ==> lines[k].previous >= 0 && lines[k].subtotal >= 0
    requires forall i :: 0 <= i < |parts| ==> 0 <= cents[i] <= parts[i].capacity
    requires FromLines(parts, lines)
    ensures var given := AsAssignments(Awards(parts, cents), source);
            && Assignable(AsPlanLines(lines), given)
            && forall k :: 0 <= k < |lines| ==> 0 <= AssignedTo(given, lines[k].key) <= lines[k].subtotal
  {
    var given := AsAssignments(Awards(parts, cents), source);
    forall i | 0 <= i < |given| ensures NamesLine(AsPlanLines(lines), given[i]) {
      AwardsNameParts(parts, cents, i);
      var j :| 0 <= j < |parts| && parts[j].key == given[i].key;
      var k :| 0 <= k < |lines| && parts[j] == Line(lines[k].key, lines[k].available);
      assert AsPlanLines(lines)[k].key == given[i].key;
    }
    forall k | 0 <= k < |lines| ensures 0 <= AssignedTo(given, lines[k].key) <= lines[k].subtotal {
      AwardWithinLine(lines, member, parts, cents, source, k);
    }
  }

  /** The plan made of an allocation's awards. */
  ghost function AllocationPlan(lines: seq<DiscountLine>, requested: int, rank: LineKey -> int, source: Source): Outcome<seq<PlanEntry>>
    requires RequestFits(Participants(Allocatable(lines), rank), requested)
  {
    PlanFrom(AsPlanLines(lines), AsAssignments(AllocationOf(Allocatable(lines), requested, rank).awards, source))
  }

  /** A plan that mirrors the lines, within their subtotals, for a given total. */
  ghost predicate PlanFor(plan: Outcome<seq<PlanEntry>>, lines: seq<DiscountLine>, requested: int) {
    && plan.Done? && |plan.value| == |lines|
    && Sum(EntryTotals(plan.value)) == requested
    && forall k :: 0 <= k < |lines| ==> plan.value[k].key == lines[k].key && 0 <= plan.value[k].total <= lines[k].subtotal
  }

  lemma AssignablePlan(lines: seq<DiscountLine>, member: nat, given: seq<Assignment>, requested: int)
    requires SoundLines(lines, member) && Assignable(AsPlanLines(lines), given) && PositiveCents(given) == requested
    requires forall k :: 0 <= k < |lines| ==> 0 <= AssignedTo(given, lines[k].key) <= lines[k].subtotal
    ensures PlanFor(PlanFrom(AsPlanLines(lines), given), lines, requested)
  {
    LineMapOfDistinct(AsPlanLines(lines));
    PlanOfExact(AsPlanLines(lines), given);
    PlanConserves(AsPlanLines(lines), given);
  }

  ghost predicate AssignmentsFit(lines: seq<DiscountLine>, given: seq<Assignment>, requested: int) {
    && Assignable(AsPlanLines(lines), given) && PositiveCents(given) == requested
    && forall k :: 0 <= k < |lines| ==> 0 <= AssignedTo(given, lines[k].key) <= lines[k].subtotal
  }

  lemma AwardsFit(lines: seq<DiscountLine>, member: nat, parts: seq<Line<LineKey>>, cents: seq<int>, requested: int, source: Source)
    requires SoundLines(lines, member) && source != Unsupported && DistinctParts(parts) && |parts| == |cents|
    requires forall k :: 0 <= k < |lines| ==> lines[k].previous >= 0 && lines[k].subtotal >= 0
    requires Sum(cents) == requested && forall i :: 0 <= i < |parts| ==> 0 <= cents[i] <= parts[i].capacity
    requires FromLines(parts, lines)
    ensures AssignmentsFit(lines, AsAssignments(Awards(parts, cents), source), requested)
  {
    AwardsAssignable(lines, member, parts, cents, source);
    AwardsTotal(parts, cents, source);
  }

  lemma AllocationAssignmentsFit(lines: seq<DiscountLine>, member: nat, requested: int, rank: LineKey -> int, source: Source)
    requires SoundLines(lines, member) && source != Unsupported
    requires forall k :: 0 <= k < |lines| ==> lines[k].previous >= 0 && lines[k].subtotal >= 0
    requires RequestFits(Participants(Allocatable(lines), rank), requested)
    ensures AssignmentsFit(lines, AsAssignments(AllocationOf(Allocatable(lines), requested, rank).awards, source), requested)
  {
    var parts := Participants(Allocatable(lines), rank);
    PartsComeFromLines(lines, member, rank);
    AllocationIsFair(Allocatable(lines), requested, rank);
    AwardsFit(lines, member, parts, CentsFor(parts, requested, rank), requested, source);
  }

  /** The awards of an allocation always form a valid plan of the same lines. */
  lemma AllocationFeedsPlan(lines: seq<DiscountLine>, member: nat, requested: int, rank: LineKey -> int, source: Source)
    requires SoundLines(lines, member) && source != Unsupported
    requires forall k :: 0 <= k < |lines| ==> lines[k].previous >= 0 && lines[k].subtotal >= 0
    requires RequestFits(Participants(Allocatable(lines), rank), requested)
    ensures PlanFor(AllocationPlan(lines, requested, rank, source), lines, requested)
  {
    var given := AsAssignments(AllocationOf(Allocatable(lines), requested, rank).awards, source);
    AllocationAssignmentsFit(lines, member, requested, rank, source);
    AssignablePlan(lines, member, given, requested);
  }

  lemma OwnLine(lines: seq<DiscountLine>, member: nat, part: Line<LineKey>, j: nat, k: nat)
    requires SoundLines(lines, member) && j < |lines| && k < |lines|
    requires part == Line(lines[j].key, lines[j].available) && part.key == lines[k].key
    requires lines[k].previous >= 0 && lines[k].subtotal >= 0
    ensures part.capacity <= lines[k].subtotal
  {
    assert lines[j].key.group == lines[k].key.group;
  }

  lemma AwardWithinLine(lines: seq<DiscountLine>, member: nat, parts: seq<Line<LineKey>>, cents: seq<int>, source: Source, k: nat)
    requires SoundLines(lines, member) && DistinctParts(parts) && |parts| == |cents| && k < |lines|
    requires lines[k].previous >= 0 && lines[k].subtotal >= 0
    requires forall i :: 0 <= i < |parts| ==> 0 <= cents[i] <= parts[i].capacity
    requires FromLines(parts, lines)
    ensures AssignedTo(AsAssignments(Awards(parts, cents), source), lines[k].key) <= lines[k].subtotal
  {
    if i :| 0 <= i < |parts| && parts[i].key == lines[k].key {
      AwardedTo(parts, cents, source, i);
      var j :| 0 <= j < |lines| && parts[i] == Line(lines[j].key, lines[j].available);
      OwnLine(lines, member, parts[i], j, k);
    } else {
      NotAwarded(parts, cents, source, lines[k].key);
    }
  }

  /** With tax off every row total is its subtotal less its discount, and so are the sums. */
  lemma {:induction false} TotalsWithoutTax(rows: seq<Row>)
    requires forall i :: 0 <= i < |rows| ==> rows[i].total == rows[i].subtotal - rows[i].discount
    ensures NetOfDiscount(SummarizeAppointmentDetailRows(rows))
  {
    if rows != [] {
      var n := |rows| - 1;
      TotalsWithoutTax(rows[..n]);
      SumSnoc(RowTotals(rows));
      SumSnoc(Subtotals(rows));
      SumSnoc(RowDiscounts(rows));
      assert RowTotals(rows)[..n] == RowTotals(rows[..n]);
      assert Subtotals(rows)[..n] == Subtotals(rows[..n]);
      assert RowDiscounts(rows)[..n] == RowDiscounts(rows[..n]);
    }
  }

  /** A plan whose entries line up with the rows prices them without failing. */
  lemma AlignedPlanPrices(rows: seq<Row>, plan: seq<PlanEntry>, member: nat)
    requires SoundRows(rows, member) && |plan| == |rows|
    requires forall i :: 0 <= i < |rows| ==> plan[i].key == rows[i].key && 0 <= plan[i].total <= rows[i].subtotal
    ensures var r := DetailRows(rows, PlanMap(plan));
            && r.Done? && |r.value| == |rows|
            && forall i :: 0 <= i < |rows| ==> r.value[i] == Priced(rows[i], plan[i].total)
    ensures Sum(RowDiscounts(DetailRows(rows, PlanMap(plan)).value)) == Sum(EntryTotals(plan))
  {
    forall i | 0 <= i < |rows| ensures PlannedFor(plan, rows[i].key) == plan[i].total {
      var k := FindEntry(plan, rows[i].key);
      assert plan[i].key == rows[i].key;
      assert plan[k].key == rows[k].key;
    }
    var priced := PricedWith(rows, PlanDiscounts(rows, plan));
    assert RowDiscounts(priced.value) == EntryTotals(plan);
  }

  predicate SameKeysAndSubtotals(rows: seq<Row>, lines: seq<DiscountLine>) {
    |rows| == |lines| && forall i :: 0 <= i < |rows| ==> rows[i].key == lines[i].key && rows[i].subtotal == lines[i].subtotal
  }

  /** Rows priced by a plan of the same lines mirror them and are discounted by the request. */
  lemma PlannedRowsCompose(
    lines: seq<DiscountLine>, rows: seq<Row>, plan: seq<PlanEntry>, member: nat, requested: int)
    requires SoundRows(rows, member) && SameKeysAndSubtotals(rows, lines) && PlanFor(Done(plan), lines, requested)
    ensures var r := DetailRows(rows, PlanMap(plan));
      && r.Done? && RowsMirrorLines(r.value, lines)
      && SummarizeAppointmentDetailRows(r.value).discount == requested
      && (Untaxed(rows) ==> NetOfDiscount(SummarizeAppointmentDetailRows(r.value)))
  {
    AlignedPlanPrices(rows, plan, member);
    if Untaxed(rows) {
      UntaxedTotals(rows, DetailRows(rows, PlanMap(plan)).value, plan);
    }
  }

  /** End to end: for plain items, an allocation that fits feeds a plan that never fails,
      the rows carry the lines' keys and subtotals, row discounts add up to the request, and
      with tax off the booking total is subtotal minus discount. */
  lemma CheckoutComposes(items: seq<Item>, member: nat, isvEnabled: bool, priceOf: Group -> nat,
                         requested: int, rank: LineKey -> int, source: Source)
    requires Plain(items, priceOf) && source != Unsupported
    requires RequestFits(Participants(Allocatable(LinesOf(items, member)), rank), requested)
    ensures var lines := LinesOf(items, member);
            var plan := AllocationPlan(lines, requested, rank, source);
            && plan.Done?
            && var r := DetailRows(RowsOf(items, member, isvEnabled), PlanMap(plan.value));
               && r.Done? && RowsMirrorLines(r.value, lines)
               && SummarizeAppointmentDetailRows(r.value).discount == requested
               && (!isvEnabled ==> NetOfDiscount(SummarizeAppointmentDetailRows(r.value)))
  {
    var lines, rows := LinesOf(items, member), RowsOf(items, member, isvEnabled);
    LinesAreSound(items, member);
    RowsAreSound(items, member, isvEnabled);
    LinesAndRowsAgree(items, member, isvEnabled, priceOf);
    forall k | 0 <= k < |lines| ensures lines[k].subtotal >= 0 { assert lines[k].subtotal == lines[k].available; }
    AllocationFeedsPlan(lines, member, requested, rank, source);
    PlannedRowsCompose(lines, rows, AllocationPlan(lines, requested, rank, source).value, member, requested);
    if !isvEnabled { UntaxedRows(items, member); }
  }

  lemma UntaxedTotals(rows: seq<Row>, priced: seq<Row>, plan: seq<PlanEntry>)
    requires |rows| == |priced| == |plan| && Untaxed(rows)
    requires forall i :: 0 <= i < |rows| ==> plan[i].total <= rows[i].subtotal && priced[i] == Priced(rows[i], plan[i].total)
    ensures NetOfDiscount(SummarizeAppointmentDetailRows(priced))
  {
    forall i | 0 <= i < |priced| ensures priced[i].total == priced[i].subtotal - priced[i].discount {}
    TotalsWithoutTax(priced);
  }

  predicate NetOfDiscount(t: Summary) { t.total == t.subtotal - t.discount }

  /** Same keys and subtotals, in the same order, and no row discounted beyond its subtotal. */
  predicate RowsMirrorLines(rows: seq<Row>, lines: seq<DiscountLine>) {
    && |rows| == |lines|
    && forall i :: 0 <= i < |rows| ==>
         && rows[i].key == lines[i].key && rows[i].subtotal == lines[i].subtotal
         && 0 <= rows[i].discount <= rows[i].subtotal
  }

  predicate Untaxed(rows: seq<Row>) { forall i :: 0 <= i < |rows| ==> rows[i].isvRate == 0 && !rows[i].includesIsv }

  lemma {:induction false} UntaxedRows(items: seq<Item>, member: nat)
    ensures Untaxed(RowsOf(items, member, false))
  {
    if items != [] { UntaxedRows(items[..|items| - 1], member); }
  }
}
