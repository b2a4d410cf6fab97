/** What grouping the items of a booking makes of them: one line and one row per group, told from
    the items alone (src/services/bookingDiscounts.js:39-89,
    src/services/bookingReservationService.js:78-124). */
module Grouping {
  import opened Discounts
  import opened Checkout

  /** The item counts for this group; items without a service count for none. */
  predicate CountsFor(item: Item, g: Group) { item.group == g && g.service != "" }

  predicate Appears(items: seq<Item>, g: Group) { exists i :: 0 <= i < |items| && CountsFor(items[i], g) }

  function Units(item: Item): int { if item.quantity < 1 then 1 else item.quantity }

  function UnitsOf(items: seq<Item>, g: Group): int {
    if items == [] then 0
    else
      var last := items[|items| - 1];
      UnitsOf(items[..|items| - 1], g) + if CountsFor(last, g) then Units(last) else 0
  }

  function DiscountsOf(items: seq<Item>, g: Group): int {
    if items == [] then 0
    else
      var last := items[|items| - 1];
      DiscountsOf(items[..|items| - 1], g) + if CountsFor(last, g) then last.discount else 0
  }

  /** The price the group has reached: the last one given, the unit price before the plain one. */
  function PriceOf(items: seq<Item>, g: Group): int {
    if items == [] then 0
    else
      var last := items[|items| - 1];
      if CountsFor(last, g) && last.unitPrice.Just? then last.unitPrice.value
      else if CountsFor(last, g) && last.price.Just? then last.price.value
      else PriceOf(items[..|items| - 1], g)
  }

  /** The amounts of the group's items: their own subtotal, or units times the price reached. */
  function AmountOf(items: seq<Item>, g: Group): int {
    if items == [] then 0
    else
      var last := items[|items| - 1];
      AmountOf(items[..|items| - 1], g)
      + if !CountsFor(last, g) then 0 else if last.subtotal.Just? then last.subtotal.value else PriceOf(items, g) * Units(last)
  }

  lemma AppearsSnoc(items: seq<Item>, g: Group)
    requires items != []
    ensures Appears(items, g) <==> Appears(items[..|items| - 1], g) || CountsFor(items[|items| - 1], g)
  {
    var init := items[..|items| - 1];
    if i :| 0 <= i < |init| && CountsFor(init[i], g) { assert items[i] == init[i]; }
    if i :| 0 <= i < |items| && CountsFor(items[i], g) { assert i == |items| - 1 || init[i] == items[i]; }
  }

  lemma {:induction false} NothingReached(items: seq<Item>, g: Group)
    requires !Appears(items, g)
    ensures UnitsOf(items, g) == 0 && DiscountsOf(items, g) == 0 && PriceOf(items, g) == 0 && AmountOf(items, g) == 0
  {
    if items != [] {
      AppearsSnoc(items, g);
      NothingReached(items[..|items| - 1], g);
    }
  }

  // ---------------------------------------------------------- discount lines

  /** The line holds what the items of its group add up to. */
  predicate LineOf(line: DiscountLine, items: seq<Item>) {
    var g := line.key.group;
    && line.quantity == UnitsOf(items, g) && line.unit == PriceOf(items, g) && line.subtotal == AmountOf(items, g)
    && line.previous == DiscountsOf(items, g)
    && line.available == (if line.subtotal > line.previous then line.subtotal - line.previous else 0)
  }

  ghost predicate LinesFor(lines: seq<DiscountLine>, items: seq<Item>) {
    && (forall k :: 0 <= k < |lines| ==> LineOf(lines[k], items))
    && forall g: Group :: Appears(items, g) <==> FindLine(lines, g) < |lines|
  }

  lemma FoundLine(lines: seq<DiscountLine>, g: Group)
    ensures FindLine(lines, g) < |lines| <==> exists k :: 0 <= k < |lines| && lines[k].key.group == g
  {
    if FindLine(lines, g) < |lines| { assert lines[FindLine(lines, g)].key.group == g; }
  }

  lemma OtherLine(line: DiscountLine, items: seq<Item>)
    requires items != [] && LineOf(line, items[..|items| - 1]) && !CountsFor(items[|items| - 1], line.key.group)
    ensures LineOf(line, items)
  {
  }

  lemma GrownLine(line: DiscountLine, items: seq<Item>)
    requires items != [] && LineOf(line, items[..|items| - 1]) && CountsFor(items[|items| - 1], line.key.group)
    ensures LineOf(AddedTo(line, items[|items| - 1]), items)
  {
  }

  lemma FirstLine(items: seq<Item>, member: nat)
    requires items != []
    requires var g := items[|items| - 1].group; g.service != "" && !Appears(items[..|items| - 1], g)
    ensures LineOf(AddedTo(NewLine(items[|items| - 1], member), items[|items| - 1]), items)
  {
    NothingReached(items[..|items| - 1], items[|items| - 1].group);
  }

  lemma LinesStep(lines: seq<DiscountLine>, items: seq<Item>, member: nat)
    requires items != [] && LinesFor(lines, items[..|items| - 1]) && SoundLines(lines, member)
    ensures LinesFor(AddItem(lines, items[|items| - 1], member), items)
  {
    var last := items[|items| - 1];
    var next := AddItem(lines, last, member);
    var k := FindLine(lines, last.group);
    forall j | 0 <= j < |next| ensures LineOf(next[j], items) {
      if last.group.service == "" || (j != k && j < |lines|) {
        OtherLine(lines[j], items);
      } else if k < |lines| {
        GrownLine(lines[k], items);
      } else {
        FirstLine(items, member);
      }
    }
    forall g: Group ensures Appears(items, g) <==> FindLine(next, g) < |next| {
      AppearsSnoc(items, g);
      StepFinds(lines, last, member, g);
    }
  }

  lemma StepFinds(lines: seq<DiscountLine>, item: Item, member: nat, g: Group)
    ensures var next := AddItem(lines, item, member);
      FindLine(next, g) < |next| <==> FindLine(lines, g) < |lines| || CountsFor(item, g)
  {
    var next := AddItem(lines, item, member);
    var k := FindLine(lines, item.group);
    FoundLine(lines, g);
    FoundLine(next, g);
    if j :| 0 <= j < |lines| && lines[j].key.group == g { assert next[j].key.group == g; }
    if CountsFor(item, g) { assert next[k].key.group == g; }
  }

  lemma {:induction false} LinesHold(items: seq<Item>, member: nat)
    ensures LinesFor(LinesOf(items, member), items)
  {
    if items != [] {
      LinesHold(items[..|items| - 1], member);
      LinesAreSound(items[..|items| - 1], member);
      LinesStep(LinesOf(items[..|items| - 1], member), items, member);
    }
  }

  /** The discount lines: one for every group that has an item with a service, holding its units,
      the price it reached, its amounts, its earlier discounts and what they leave to discount. */
  lemma LinesAddUp(items: seq<Item>, member: nat)
    ensures var lines := LinesOf(items, member);
      && (forall k :: 0 <= k < |lines| ==> LineOf(lines[k], items))
      && (forall i, j :: 0 <= i < j < |lines| ==> lines[i].key.group != lines[j].key.group)
      && forall g: Group :: Appears(items, g) <==> exists k :: 0 <= k < |lines| && lines[k].key.group == g
  {
    var lines := LinesOf(items, member);
    LinesHold(items, member);
    LinesAreSound(items, member);
    forall g: Group ensures Appears(items, g) <==> exists k :: 0 <= k < |lines| && lines[k].key.group == g { FoundLine(lines, g); }
  }

  // -------------------------------------------------------------- detail rows

  function CountOf(items: seq<Item>, g: Group): nat {
    if items == [] then 0
    else CountOf(items[..|items| - 1], g) + if CountsFor(items[|items| - 1], g) then 1 else 0
  }

  /** The first item of the group. */
  predicate FirstOf(items: seq<Item>, g: Group, i: int) {
    0 <= i < |items| && CountsFor(items[i], g) && forall j :: 0 <= j < i ==> !CountsFor(items[j], g)
  }

  /** The row counts its group's items at the price, time and tax of the first of them. */
  predicate RowFrom(row: Row, items: seq<Item>, i: int, member: nat, isvEnabled: bool)
    requires 0 <= i < |items|
  {
    && row.quantity == CountOf(items, row.group) && row.subtotal == row.unit * row.quantity
    && row.unit == (if items[i].price.Just? then items[i].price.value else 0)
    && row.key == (if items[i].ownKey.Just? then items[i].ownKey.value else LineKey(member, row.group, 1))
    && row.duration == (if items[i].duration < 1 then 1 else items[i].duration)
    && row.buffer == (if items[i].buffer < 0 then 0 else items[i].buffer)
    && row.isvRate == (if isvEnabled then items[i].isv else 0) && row.includesIsv == (isvEnabled && items[i].includesIsv)
    && row.discount == 0 && row.isv == 0 && row.total == 0
  }

  predicate RowOf(row: Row, items: seq<Item>, member: nat, isvEnabled: bool) {
    exists i :: 0 <= i < |items| && FirstOf(items, row.group, i) && RowFrom(row, items, i, member, isvEnabled)
  }

  ghost predicate RowsFor(rows: seq<Row>, items: seq<Item>, member: nat, isvEnabled: bool) {
    && (forall k :: 0 <= k < |rows| ==> RowOf(rows[k], items, member, isvEnabled))
    && (forall i, j :: 0 <= i < j < |rows| ==> rows[i].group != rows[j].group)
    && forall g: Group :: Appears(items, g) <==> FindRow(rows, g) < |rows|
  }

  lemma FoundRow(rows: seq<Row>, g: Group)
    ensures FindRow(rows, g) < |rows| <==> exists k :: 0 <= k < |rows| && rows[k].group == g
  {
    if FindRow(rows, g) < |rows| { assert rows[FindRow(rows, g)].group == g; }
  }

  lemma {:induction false} NothingCounted(items: seq<Item>, g: Group)
    requires !Appears(items, g)
    ensures CountOf(items, g) == 0
  {
    if items != [] {
      AppearsSnoc(items, g);
      NothingCounted(items[..|items| - 1], g);
    }
  }

  lemma FirstStays(items: seq<Item>, g: Group, i: int)
    requires items != [] && FirstOf(items[..|items| - 1], g, i)
    ensures FirstOf(items, g, i) && items[i] == items[..|items| - 1][i]
  {
    var init := items[..|items| - 1];
    forall j | 0 <= j < i ensures !CountsFor(items[j], g) { assert items[j] == init[j]; }
  }

  lemma KeptRow(row: Row, items: seq<Item>, member: nat, isvEnabled: bool)
    requires items != [] && RowOf(row, items[..|items| - 1], member, isvEnabled)
    ensures RowOf(if CountsFor(items[|items| - 1], row.group) then Counted(row) else row, items, member, isvEnabled)
  {
    var init := items[..|items| - 1];
    var i :| 0 <= i < |init| && FirstOf(init, row.group, i) && RowFrom(row, init, i, member, isvEnabled);
    FirstStays(items, row.group, i);
    var next := if CountsFor(items[|items| - 1], row.group) then Counted(row) else row;
    assert FirstOf(items, next.group, i) && RowFrom(next, items, i, member, isvEnabled);
  }

  lemma FirstRow(items: seq<Item>, member: nat, isvEnabled: bool)
    requires items != []
    requires var g := items[|items| - 1].group; g.service != "" && !Appears(items[..|items| - 1], g)
    ensures RowOf(Counted(NewRow(items[|items| - 1], member, isvEnabled)), items, member, isvEnabled)
  {
    var n, g, init := |items| - 1, items[|items| - 1].group, items[..|items| - 1];
    NothingCounted(init, g);
    forall j | 0 <= j < n ensures !CountsFor(items[j], g) { assert items[j] == init[j]; }
    var row := Counted(NewRow(items[n], member, isvEnabled));
    assert FirstOf(items, row.group, n) && RowFrom(row, items, n, member, isvEnabled);
  }

  lemma RowFinds(rows: seq<Row>, item: Item, member: nat, isvEnabled: bool, g: Group)
    ensures var next := AddRow(rows, item, member, isvEnabled);
      FindRow(next, g) < |next| <==> FindRow(rows, g) < |rows| || CountsFor(item, g)
  {
    var next := AddRow(rows, item, member, isvEnabled);
    var k := FindRow(rows, item.group);
    FoundRow(rows, g);
    FoundRow(next, g);
    if j :| 0 <= j < |rows| && rows[j].group == g { assert next[j].group == g; }
    if CountsFor(item, g) { assert next[k].group == g; }
  }

  lemma RowsStep(rows: seq<Row>, items: seq<Item>, member: nat, isvEnabled: bool)
    requires items != [] && RowsFor(rows, items[..|items| - 1], member, isvEnabled)
    ensures RowsFor(AddRow(rows, items[|items| - 1], member, isvEnabled), items, member, isvEnabled)
  {
    var last := items[|items| - 1];
    var next := AddRow(rows, last, member, isvEnabled);
    var k := FindRow(rows, last.group);
    forall j | 0 <= j < |next| ensures RowOf(next[j], items, member, isvEnabled) {
      if j < |rows| {
        KeptRow(rows[j], items, member, isvEnabled);
        assert j < k ==> rows[j].group != last.group;
        assert k < j ==> rows[k].group != rows[j].group;
      } else {
        FirstRow(items, member, isvEnabled);
      }
    }
    forall g: Group ensures Appears(items, g) <==> FindRow(next, g) < |next| {
      AppearsSnoc(items, g);
      RowFinds(rows, last, member, isvEnabled, g);
    }
  }

  lemma {:induction false} RowsHold(items: seq<Item>, member: nat, isvEnabled: bool)
    ensures RowsFor(RowsOf(items, member, isvEnabled), items, member, isvEnabled)
  {
    if items != [] {
      RowsHold(items[..|items| - 1], member, isvEnabled);
      RowsStep(RowsOf(items[..|items| - 1], member, isvEnabled), items, member, isvEnabled);
    }
  }

  /** The detail rows: one for every group that has an item with a service, counting its items at
      the price, time and tax of the first. */
  lemma RowsCount(items: seq<Item>, member: nat, isvEnabled: bool)
    ensures var rows := RowsOf(items, member, isvEnabled);
      && (forall k :: 0 <= k < |rows| ==> RowOf(rows[k], items, member, isvEnabled))
      && (forall i, j :: 0 <= i < j < |rows| ==> rows[i].group != rows[j].group)
      && forall g: Group :: Appears(items, g) <==> exists k :: 0 <= k < |rows| && rows[k].group == g
  {
    var rows := RowsOf(items, member, isvEnabled);
    RowsHold(items, member, isvEnabled);
    forall g: Group ensures Appears(items, g) <==> exists k :: 0 <= k < |rows| && rows[k].group == g { FoundRow(rows, g); }
  }
}
