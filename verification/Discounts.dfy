/** Apportionment of a discount over booking lines (src/services/bookingDiscounts.js:91-141).
    Money is whole cents; remainders are exact, being numerators over one common divisor;
    the collation of line keys is an abstract rank. */
module Discounts {

  /** A line with the cents it can absorb. */
  datatype Line<K> = Line(key: K, capacity: int)

  datatype Award<K> = Award(key: K, cents: int)

  datatype Allocation<K> = Allocated(awards: seq<Award<K>>) | AllocationIncomplete

  /** The first n entries added up. */
  function SumTo(s: seq<int>, n: nat): int
    requires n <= |s|
  {
    if n == 0 then 0 else SumTo(s, n - 1) + s[n - 1]
  }

  function Sum(s: seq<int>): int { SumTo(s, |s|) }

  lemma {:induction false} SumPrefix(a: seq<int>, b: seq<int>, n: nat)
    requires n <= |a| && n <= |b| && forall i :: 0 <= i < n ==> a[i] == b[i]
    ensures SumTo(a, n) == SumTo(b, n)
  {
    if n > 0 { SumPrefix(a, b, n - 1); }
  }

  lemma SumSnoc(s: seq<int>)
    requires |s| > 0
    ensures Sum(s) == Sum(s[..|s| - 1]) + s[|s| - 1]
  {
    SumPrefix(s, s[..|s| - 1], |s| - 1);
  }

  function Capacities<K>(lines: seq<Line<K>>): seq<int> {
    seq(|lines|, i requires 0 <= i < |lines| => lines[i].capacity)
  }

  function Eligible<K>(lines: seq<Line<K>>): (r: seq<Line<K>>)
    ensures forall i :: 0 <= i < |r| ==> r[i].capacity > 0
  {
    if lines == [] then []
    else Eligible(lines[..|lines| - 1]) + if lines[|lines| - 1].capacity > 0 then [lines[|lines| - 1]] else []
  }

  // ---------------------------------------------------------------- ordering

  function InsertByKey<K>(line: Line<K>, lines: seq<Line<K>>, rank: K -> int): (r: seq<Line<K>>)
    ensures |r| == |lines| + 1
  {
    if lines == [] || rank(line.key) < rank(lines[0].key) then [line] + lines
    else [lines[0]] + InsertByKey(line, lines[1..], rank)
  }

  /** The stable library sort by collated key. */
  function SortByKey<K>(lines: seq<Line<K>>, rank: K -> int): (r: seq<Line<K>>)
    ensures |r| == |lines|
  {
    if lines == [] then []
    else InsertByKey(lines[|lines| - 1], SortByKey(lines[..|lines| - 1], rank), rank)
  }

  lemma {:induction false} InsertedLine<K>(line: Line<K>, lines: seq<Line<K>>, rank: K -> int, x: Line<K>)
    ensures x in InsertByKey(line, lines, rank) <==> x == line || x in lines
  {
    if lines != [] { InsertedLine(line, lines[1..], rank, x); }
  }

  lemma {:induction false} SortedMembers<K>(lines: seq<Line<K>>, rank: K -> int, x: Line<K>)
    ensures x in SortByKey(lines, rank) <==> x in lines
  {
    if lines != [] {
      var init, last := lines[..|lines| - 1], lines[|lines| - 1];
      SortedMembers(init, rank, x);
      InsertedLine(last, SortByKey(init, rank), rank, x);
      assert lines == init + [last];
    }
  }

  /** The lines that take part, in canonical order. */
  function Participants<K>(lines: seq<Line<K>>, rank: K -> int): seq<Line<K>> {
    SortByKey(Eligible(lines), rank)
  }

  lemma ParticipantsPositive<K>(lines: seq<Line<K>>, rank: K -> int)
    ensures forall i :: 0 <= i < |Participants(lines, rank)| ==> Participants(lines, rank)[i].capacity > 0
  {
    var r := Participants(lines, rank);
    forall i | 0 <= i < |r| ensures r[i].capacity > 0 {
      SortedMembers(Eligible(lines), rank, r[i]);
      assert r[i] in r;
    }
  }

  ghost predicate KeyOrdered<K>(lines: seq<Line<K>>, rank: K -> int) {
    forall i, j :: 0 <= i < j < |lines| ==> rank(lines[i].key) < rank(lines[j].key)
  }

  /** Keys are distinct also after collation. */
  ghost predicate DistinctKeys<K>(lines: seq<Line<K>>, rank: K -> int) {
    forall i, j :: 0 <= i < j < |lines| ==> rank(lines[i].key) != rank(lines[j].key)
  }

  lemma ConsKeyOrdered<K>(line: Line<K>, lines: seq<Line<K>>, rank: K -> int)
    requires KeyOrdered(lines, rank) && forall x :: x in lines ==> rank(line.key) < rank(x.key)
    ensures KeyOrdered([line] + lines, rank)
  {
    assert forall j :: 0 <= j < |lines| ==> lines[j] in lines;
  }

  lemma {:induction false} InsertKeyOrdered<K>(line: Line<K>, lines: seq<Line<K>>, rank: K -> int)
    requires KeyOrdered(lines, rank)
    requires forall x :: x in lines ==> rank(x.key) != rank(line.key)
    ensures KeyOrdered(InsertByKey(line, lines, rank), rank)
  {
    if lines == [] || rank(line.key) < rank(lines[0].key) {
      forall x | x in lines ensures rank(line.key) < rank(x.key) {
        var j :| 0 <= j < |lines| && lines[j] == x;
        assert rank(lines[0].key) <= rank(lines[j].key);
      }
      ConsKeyOrdered(line, lines, rank);
    } else {
      InsertKeyOrdered(line, lines[1..], rank);
      forall x | x in InsertByKey(line, lines[1..], rank) ensures rank(lines[0].key) < rank(x.key) {
        InsertedLine(line, lines[1..], rank, x);
        assert lines[0] in lines;
        if x in lines[1..] { var j :| 0 <= j < |lines| - 1 && lines[1..][j] == x; assert lines[j + 1] == x; }
      }
      ConsKeyOrdered(lines[0], InsertByKey(line, lines[1..], rank), rank);
    }
  }

  lemma {:induction false} SortKeyOrdered<K>(lines: seq<Line<K>>, rank: K -> int)
    requires DistinctKeys(lines, rank)
    ensures KeyOrdered(SortByKey(lines, rank), rank)
  {
    if lines != [] {
      var init, last := lines[..|lines| - 1], lines[|lines| - 1];
      SortKeyOrdered(init, rank);
      forall x | x in SortByKey(init, rank) ensures rank(x.key) != rank(last.key) {
        SortedMembers(init, rank, x);
      }
      InsertKeyOrdered(last, SortByKey(init, rank), rank);
    }
  }

  lemma HeadIsLeast<K>(a: seq<Line<K>>, b: seq<Line<K>>, rank: K -> int)
    requires KeyOrdered(a, rank) && KeyOrdered(b, rank) && |a| > 0 && |b| > 0
    requires forall x :: x in a <==> x in b
    ensures a[0] == b[0]
  {
    assert a[0] in a && b[0] in b;
    var i :| 0 <= i < |b| && b[i] == a[0];
    var j :| 0 <= j < |a| && a[j] == b[0];
    assert rank(b[0].key) <= rank(b[i].key);
    assert rank(a[0].key) <= rank(a[j].key);
  }

  lemma {:induction false} OrderedUnique<K>(a: seq<Line<K>>, b: seq<Line<K>>, rank: K -> int)
    requires KeyOrdered(a, rank) && KeyOrdered(b, rank)
    requires forall x :: x in a <==> x in b
    ensures a == b
  {
    if a == [] {
      if b != [] { HeadMember(b); }
    } else if b == [] {
      HeadMember(a);
    } else {
      HeadIsLeast(a, b, rank);
      forall x ensures x in a[1..] <==> x in b[1..] {
        TailMembers(a, rank, x);
        TailMembers(b, rank, x);
      }
      OrderedUnique(a[1..], b[1..], rank);
    }
  }

  lemma HeadMember<K>(a: seq<Line<K>>)
    requires |a| > 0
    ensures a[0] in a
  {}

  lemma TailMembers<K>(a: seq<Line<K>>, rank: K -> int, x: Line<K>)
    requires KeyOrdered(a, rank) && |a| > 0
    ensures x in a[1..] <==> x in a && x != a[0]
  {
    assert forall i :: 0 < i < |a| ==> a[i] != a[0];
    assert forall i :: 0 < i < |a| ==> a[1..][i - 1] == a[i];
  }

  lemma {:induction false} EligibleMembers<K>(lines: seq<Line<K>>, x: Line<K>)
    ensures x in Eligible(lines) <==> x in lines && x.capacity > 0
  {
    if lines != [] {
      var init, last := lines[..|lines| - 1], lines[|lines| - 1];
      EligibleMembers(init, x);
      assert lines == init + [last];
    }
  }

  lemma {:induction false} EligibleDistinct<K>(lines: seq<Line<K>>, rank: K -> int)
    requires DistinctKeys(lines, rank)
    ensures DistinctKeys(Eligible(lines), rank)
  {
    if lines != [] {
      var init, last := lines[..|lines| - 1], lines[|lines| - 1];
      EligibleDistinct(init, rank);
      var kept := Eligible(init);
      forall i | 0 <= i < |kept| ensures rank(kept[i].key) != rank(last.key) {
        EligibleMembers(init, kept[i]);
        assert kept[i] in init;
      }
    }
  }

  /** The canonical order forgets the input order: for distinct keys the participants, and
      so everything computed from them, depend only on which lines were given. */
  lemma InputOrderIrrelevant<K>(a: seq<Line<K>>, b: seq<Line<K>>, rank: K -> int)
    requires DistinctKeys(a, rank) && DistinctKeys(b, rank)
    requires forall x :: x in a <==> x in b
    ensures Participants(a, rank) == Participants(b, rank)
  {
    EligibleDistinct(a, rank);
    EligibleDistinct(b, rank);
    SortKeyOrdered(Eligible(a), rank);
    SortKeyOrdered(Eligible(b), rank);
    forall x ensures x in Participants(a, rank) <==> x in Participants(b, rank) {
      SortedMembers(Eligible(a), rank, x);
      SortedMembers(Eligible(b), rank, x);
      EligibleMembers(a, x);
      EligibleMembers(b, x);
    }
    OrderedUnique(Participants(a, rank), Participants(b, rank), rank);
  }

  // ------------------------------------------------------------------ shares

  /** Whole cents of the exact share requested * capacity / total. */
  function Floors(capacities: seq<int>, requested: int, total: int): seq<int>
    requires total > 0
  {
    seq(|capacities|, i requires 0 <= i < |capacities| => requested * capacities[i] / total)
  }

  /** Numerators of the fractional parts, over the common divisor total. */
  function Remainders(capacities: seq<int>, requested: int, total: int): seq<int>
    requires total > 0
  {
    seq(|capacities|, i requires 0 <= i < |capacities| => requested * capacities[i] % total)
  }

  lemma Distribute(total: int, f: int, q: int, requested: int, s: int, c: int, rs: int, r: int)
    requires total * f + rs == requested * s && total * q + r == requested * c
    ensures total * (f + q) + (rs + r) == requested * (s + c)
  {}

  lemma DivisionIdentity(x: int, total: int)
    requires total > 0
    ensures x == total * (x / total) + x % total && 0 <= x % total < total
  {}

  lemma {:induction false} SharesAddUp(capacities: seq<int>, requested: int, total: int)
    requires total > 0
    ensures total * Sum(Floors(capacities, requested, total)) + Sum(Remainders(capacities, requested, total))
         == requested * Sum(capacities)
  {
    var n := |capacities|;
    if n > 0 {
      var init, c := capacities[..n - 1], capacities[n - 1];
      SharesAddUp(init, requested, total);
      assert Floors(capacities, requested, total)[..n - 1] == Floors(init, requested, total);
      assert Remainders(capacities, requested, total)[..n - 1] == Remainders(init, requested, total);
      SumSnoc(capacities);
      SumSnoc(Floors(capacities, requested, total));
      SumSnoc(Remainders(capacities, requested, total));
      DivisionIdentity(requested * c, total);
      Distribute(total, Sum(Floors(init, requested, total)), requested * c / total, requested, Sum(init), c,
                 Sum(Remainders(init, requested, total)), requested * c % total);
    }
  }

  lemma OneMore(n: nat, k: int)
    requires n > 0
    ensures n * k == (n - 1) * k + k
  {}

  lemma {:induction false} RemaindersSmall(capacities: seq<int>, requested: int, total: int)
    requires total > 0
    ensures 0 <= Sum(Remainders(capacities, requested, total)) <= |capacities| * (total - 1)
  {
    var n := |capacities|;
    if n > 0 {
      var init, all := capacities[..n - 1], Remainders(capacities, requested, total);
      RemaindersSmall(init, requested, total);
      assert all[..n - 1] == Remainders(init, requested, total);
      DivisionIdentity(requested * capacities[n - 1], total);
      OneMore(n, total - 1);
      SumSnoc(all);
    }
  }

  lemma LeftoverArithmetic(total: int, requested: int, f: int, n: int, r: int)
    requires total > 0 && n > 0 && total * f + r == requested * total && 0 <= r <= n * (total - 1)
    ensures 0 <= requested - f < n
  {
    var left := requested - f;
    DistributeMinus(total, requested, f);
    assert n * (total - 1) == n * total - n;
    if left < 0 { Scale(total, left, -1); } else if left >= n { Scale(total, n, left); }
  }

  /** The cents left after the floors: fewer than the number of lines. */
  lemma LeftoverBounds(capacities: seq<int>, requested: int, total: int)
    requires |capacities| > 0 && total > 0 && total == Sum(capacities)
    ensures 0 <= requested - Sum(Floors(capacities, requested, total)) < |capacities|
  {
    SharesAddUp(capacities, requested, total);
    RemaindersSmall(capacities, requested, total);
    LeftoverArithmetic(total, requested, Sum(Floors(capacities, requested, total)), |capacities|,
                       Sum(Remainders(capacities, requested, total)));
  }

  lemma DistributeMinus(total: int, requested: int, f: int)
    ensures total * (requested - f) == requested * total - total * f
  {}

  lemma Scale(k: int, a: int, b: int)
    requires k > 0 && a <= b
    ensures k * a <= k * b
  {}

  lemma QuotientAtMost(x: int, total: int, bound: int)
    requires total > 0 && 0 <= x <= total * bound
    ensures 0 <= x / total <= bound
  {
    DivisionIdentity(x, total);
    assert total * (bound + 1) == total * bound + total;
    if x / total > bound { Scale(total, bound + 1, x / total); }
  }

  lemma FloorWithinCapacity(capacity: int, requested: int, total: int)
    requires 0 < requested <= total && capacity > 0
    ensures 0 <= requested * capacity / total <= capacity
  {
    Scale(capacity, requested, total);
    Scale(capacity, 0, requested);
    assert requested * capacity == capacity * requested && total * capacity == capacity * total;
    QuotientAtMost(requested * capacity, total, capacity);
  }

  // ----------------------------------------------------------- leftover order

  /** What the leftover order compares: fractional part, then collated key. */
  datatype Weight = Weight(remainder: int, rank: int)

  predicate Precedes(a: Weight, b: Weight) {
    a.remainder > b.remainder || (a.remainder == b.remainder && a.rank <= b.rank)
  }

  /** A list of distinct positions below n. */
  ghost predicate Positions(order: seq<int>, n: nat) {
    && (forall k :: 0 <= k < |order| ==> 0 <= order[k] < n)
    && (forall i, j :: 0 <= i < j < |order| ==> order[i] != order[j])
  }

  predicate Below(order: seq<int>, n: nat) { forall k :: 0 <= k < |order| ==> 0 <= order[k] < n }

  /** Every position below n, once. */
  ghost predicate Arrangement(order: seq<int>, n: nat) {
    |order| == n && Positions(order, n) && forall x :: 0 <= x < n ==> x in order
  }

  function InsertByRemainder(weights: seq<Weight>, a: int, order: seq<int>): (r: seq<int>)
    requires 0 <= a < |weights| && Below(order, |weights|)
    ensures |r| == |order| + 1 && Below(r, |weights|)
  {
    if order == [] || !Precedes(weights[order[0]], weights[a]) then [a] + order
    else [order[0]] + InsertByRemainder(weights, a, order[1..])
  }

  lemma {:induction false} InsertedMembers(weights: seq<Weight>, a: int, order: seq<int>, x: int)
    requires 0 <= a < |weights| && Below(order, |weights|)
    ensures x in InsertByRemainder(weights, a, order) <==> x == a || x in order
  {
    if order != [] { InsertedMembers(weights, a, order[1..], x); }
  }

  lemma ConsPositions(x: int, order: seq<int>, n: nat)
    requires Positions(order, n) && 0 <= x < n && x !in order
    ensures Positions([x] + order, n)
  {}

  lemma {:induction false} InsertedPositions(weights: seq<Weight>, a: int, order: seq<int>, n: nat)
    requires 0 <= a < n <= |weights| && Below(order, |weights|) && Positions(order, n) && a !in order
    ensures Positions(InsertByRemainder(weights, a, order), n)
  {
    if order == [] || !Precedes(weights[order[0]], weights[a]) {
      ConsPositions(a, order, n);
    } else {
      InsertedPositions(weights, a, order[1..], n);
      InsertedMembers(weights, a, order[1..], order[0]);
      ConsPositions(order[0], InsertByRemainder(weights, a, order[1..]), n);
    }
  }

  /** The first n positions, sorted stably by larger remainder, then by key. */
  function ByRemainder(weights: seq<Weight>, n: nat): (r: seq<int>)
    requires n <= |weights|
    ensures |r| == n && Below(r, |weights|)
  {
    if n == 0 then [] else InsertByRemainder(weights, n - 1, ByRemainder(weights, n - 1))
  }

  lemma {:induction false} ByRemainderArranges(weights: seq<Weight>, n: nat)
    requires n <= |weights|
    ensures Arrangement(ByRemainder(weights, n), n)
  {
    if n > 0 {
      var before := ByRemainder(weights, n - 1);
      ByRemainderArranges(weights, n - 1);
      InsertedPositions(weights, n - 1, before, n);
      var after := ByRemainder(weights, n);
      forall x | 0 <= x < n ensures x in after {
        InsertedMembers(weights, n - 1, before, x);
      }
    }
  }

  ghost predicate WeightOrdered(weights: seq<Weight>, order: seq<int>)
    requires Below(order, |weights|)
  {
    forall i, j :: 0 <= i < j < |order| ==> Precedes(weights[order[i]], weights[order[j]])
  }

  lemma ConsOrdered(weights: seq<Weight>, x: int, order: seq<int>)
    requires 0 <= x < |weights| && Below(order, |weights|) && WeightOrdered(weights, order) && Below([x] + order, |weights|)
    requires forall y :: y in order ==> Precedes(weights[x], weights[y])
    ensures WeightOrdered(weights, [x] + order)
  {
    var all := [x] + order;
    forall i, j | 0 <= i < j < |all| ensures Precedes(weights[all[i]], weights[all[j]]) {
      assert all[j] == order[j - 1];
      if i == 0 { assert order[j - 1] in order; } else { assert all[i] == order[i - 1]; }
    }
  }

  lemma {:induction false} InsertedOrdered(weights: seq<Weight>, a: int, order: seq<int>)
    requires 0 <= a < |weights| && Below(order, |weights|) && WeightOrdered(weights, order)
    ensures WeightOrdered(weights, InsertByRemainder(weights, a, order))
  {
    if order == [] || !Precedes(weights[order[0]], weights[a]) {
      forall y | y in order ensures Precedes(weights[a], weights[y]) {
        var j :| 0 <= j < |order| && order[j] == y;
        assert j == 0 || Precedes(weights[order[0]], weights[order[j]]);
      }
      ConsOrdered(weights, a, order);
    } else {
      InsertedOrdered(weights, a, order[1..]);
      forall y | y in InsertByRemainder(weights, a, order[1..]) ensures Precedes(weights[order[0]], weights[y]) {
        InsertedMembers(weights, a, order[1..], y);
        if y in order[1..] { var j :| 0 <= j < |order| - 1 && order[1..][j] == y; assert order[j + 1] == y; }
      }
      ConsOrdered(weights, order[0], InsertByRemainder(weights, a, order[1..]));
    }
  }

  /** Leftover cents are offered to larger remainders first, ties by key. */
  lemma {:induction false} ByRemainderOrdered(weights: seq<Weight>, n: nat)
    requires n <= |weights|
    ensures WeightOrdered(weights, ByRemainder(weights, n))
  {
    if n > 0 {
      ByRemainderOrdered(weights, n - 1);
      InsertedOrdered(weights, n - 1, ByRemainder(weights, n - 1));
    }
  }

  // -------------------------------------------------------------- the filling

  function Min(a: int, b: int): int { if a < b then a else b }

  /** Bulk form of the one-cent loop: each row in turn takes all it has room for. */
  function Fill(rooms: seq<int>, cents: int): (r: seq<int>)
    ensures |r| == |rooms|
  {
    if rooms == [] then []
    else var take := Min(rooms[0], cents); [take] + Fill(rooms[1..], cents - take)
  }

  predicate AllNonNegative(rooms: seq<int>) { forall i :: 0 <= i < |rooms| ==> rooms[i] >= 0 }

  lemma {:induction false} SumConsTo(x: int, s: seq<int>, n: nat)
    requires n <= |s|
    ensures SumTo([x] + s, n + 1) == x + SumTo(s, n)
  {
    if n > 0 {
      SumConsTo(x, s, n - 1);
    } else {
      assert SumTo([x] + s, 0) == 0;
    }
  }

  lemma SumCons(x: int, s: seq<int>)
    ensures Sum([x] + s) == x + Sum(s)
  {
    SumConsTo(x, s, |s|);
  }

  lemma {:induction false} SumToNonNegative(s: seq<int>, n: nat)
    requires AllNonNegative(s) && n <= |s|
    ensures SumTo(s, n) >= 0
  {
    if n > 0 { SumToNonNegative(s, n - 1); }
  }

  lemma SumNonNegative(s: seq<int>)
    requires AllNonNegative(s)
    ensures Sum(s) >= 0
  {
    SumToNonNegative(s, |s|);
  }

  /** Filling places every cent there is room for and overfills no row. */
  lemma {:induction false} FillSound(rooms: seq<int>, cents: int)
    requires AllNonNegative(rooms) && 0 <= cents <= Sum(rooms)
    ensures Sum(Fill(rooms, cents)) == cents
    ensures forall i :: 0 <= i < |rooms| ==> 0 <= Fill(rooms, cents)[i] <= Min(rooms[i], cents)
  {
    if rooms != [] {
      assert rooms == [rooms[0]] + rooms[1..];
      SumCons(rooms[0], rooms[1..]);
      SumNonNegative(rooms[1..]);
      var take := Min(rooms[0], cents);
      FillSound(rooms[1..], cents - take);
      SumCons(take, Fill(rooms[1..], cents - take));
    }
  }

  lemma {:induction false} FillNothing(rooms: seq<int>)
    requires AllNonNegative(rooms)
    ensures forall i :: 0 <= i < |rooms| ==> Fill(rooms, 0)[i] == 0
  {
    if rooms != [] { FillNothing(rooms[1..]); }
  }

  /** One more cent goes to the first row that still has room, and nowhere else. */
  lemma {:induction false} FillOneMore(rooms: seq<int>, cents: int, k: nat)
    requires k < |rooms| && Fill(rooms, cents)[k] < rooms[k]
    requires forall j :: 0 <= j < k ==> Fill(rooms, cents)[j] >= rooms[j]
    ensures Fill(rooms, cents + 1) == Fill(rooms, cents)[k := Fill(rooms, cents)[k] + 1]
  {
    var take, tail := Min(rooms[0], cents), rooms[1..];
    var rest := Fill(tail, cents - take);
    FillCons(rooms, cents);
    FillCons(rooms, cents + 1);
    if k == 0 {
      assert ([take] + rest)[0 := take + 1] == [take + 1] + rest;
    } else {
      assert Fill(rooms, cents)[0] >= rooms[0];
      forall j | 0 <= j < k - 1 ensures rest[j] >= tail[j] {
        assert Fill(rooms, cents)[j + 1] >= rooms[j + 1];
      }
      FillOneMore(tail, cents - take, k - 1);
      assert ([take] + rest)[k := rest[k - 1] + 1] == [take] + rest[k - 1 := rest[k - 1] + 1];
    }
  }

  lemma FillCons(rooms: seq<int>, cents: int)
    requires |rooms| > 0
    ensures var take := Min(rooms[0], cents); Fill(rooms, cents) == [take] + Fill(rooms[1..], cents - take)
  {}

  lemma {:induction false} FillHasRoom(rooms: seq<int>, cents: int)
    requires AllNonNegative(rooms) && 0 <= cents < Sum(rooms)
    ensures exists k :: 0 <= k < |rooms| && Fill(rooms, cents)[k] < rooms[k]
  {
    assert rooms != [];
    assert rooms == [rooms[0]] + rooms[1..];
    SumCons(rooms[0], rooms[1..]);
    SumNonNegative(rooms[1..]);
    if cents < rooms[0] {
      assert Fill(rooms, cents)[0] < rooms[0];
    } else {
      FillHasRoom(rooms[1..], cents - rooms[0]);
      var k :| 0 <= k < |rooms| - 1 && Fill(rooms[1..], cents - rooms[0])[k] < rooms[1..][k];
      assert Fill(rooms, cents)[k + 1] < rooms[k + 1];
    }
  }

  ghost predicate AtMostOne(s: seq<int>) { forall i :: 0 <= i < |s| ==> s[i] <= 1 }

  lemma AtMostOneCons(x: int, s: seq<int>)
    ensures AtMostOne([x] + s) <==> x <= 1 && AtMostOne(s)
  {
    var all := [x] + s;
    assert all[0] == x;
    assert forall i :: 0 <= i < |s| ==> s[i] == all[i + 1];
  }

  /** The rows before the last of `cents` rows have room for one cent. */
  ghost predicate SingleRooms(rooms: seq<int>, cents: int) {
    forall j :: 0 <= j < |rooms| && j < cents - 1 ==> rooms[j] == 1
  }

  lemma SingleRoomsTail(rooms: seq<int>, cents: int)
    requires |rooms| > 0
    ensures SingleRooms(rooms, cents) <==> (cents <= 1 || rooms[0] == 1) && SingleRooms(rooms[1..], cents - 1)
  {
    assert forall j :: 0 <= j < |rooms| - 1 ==> rooms[1..][j] == rooms[j + 1];
    if SingleRooms(rooms[1..], cents - 1) && (cents <= 1 || rooms[0] == 1) {
      forall j | 0 <= j < |rooms| && j < cents - 1 ensures rooms[j] == 1 {
        if j > 0 { assert rooms[1..][j - 1] == 1; }
      }
    }
  }

  lemma {:induction false} FillFew(rooms: seq<int>, cents: int)
    requires AllNonNegative(rooms) && cents <= 1
    ensures AtMostOne(Fill(rooms, cents))
  {
    if rooms != [] {
      var take := Min(rooms[0], cents);
      if cents >= 0 { FillFew(rooms[1..], cents - take); } else { FillFew(rooms[1..], 0); }
      AtMostOneCons(take, Fill(rooms[1..], cents - take));
    }
  }

  /** Among rows that all have room no row takes two of the leftover cents iff every row
      before the last one reached has room for exactly one. */
  lemma {:induction false} FillSpreadsIff(rooms: seq<int>, cents: int)
    requires (forall j :: 0 <= j < |rooms| ==> rooms[j] >= 1) && 0 <= cents
    ensures AtMostOne(Fill(rooms, cents)) <==> SingleRooms(rooms, cents)
  {
    if cents <= 1 {
      FillFew(rooms, cents);
    } else if rooms != [] {
      var take, tail := Min(rooms[0], cents), rooms[1..];
      SingleRoomsTail(rooms, cents);
      AtMostOneCons(take, Fill(tail, cents - take));
      if rooms[0] == 1 { FillSpreadsIff(tail, cents - 1); }
    }
  }

  // ------------------------------------------------------------- permutations

  function Pick(x: seq<int>, order: seq<int>): seq<int>
    requires Below(order, |x|)
  {
    seq(|order|, j requires 0 <= j < |order| => x[order[j]])
  }

  function Plus(a: seq<int>, b: seq<int>): seq<int>
    requires |a| == |b|
  {
    seq(|a|, i requires 0 <= i < |a| => a[i] + b[i])
  }

  lemma {:induction false} SumPlusTo(a: seq<int>, b: seq<int>, n: nat)
    requires n <= |a| == |b|
    ensures SumTo(Plus(a, b), n) == SumTo(a, n) + SumTo(b, n)
  {
    if n > 0 { SumPlusTo(a, b, n - 1); }
  }

  lemma SumPlus(a: seq<int>, b: seq<int>)
    requires |a| == |b|
    ensures Sum(Plus(a, b)) == Sum(a) + Sum(b)
  {
    SumPlusTo(a, b, |a|);
  }

  /** A list with one index cut out. */
  function Cut(order: seq<int>, k: nat): (r: seq<int>)
    requires k < |order|
    ensures |r| == |order| - 1
    ensures forall i :: 0 <= i < k ==> r[i] == order[i]
    ensures forall i :: k <= i < |r| ==> r[i] == order[i + 1]
  {
    order[..k] + order[k + 1..]
  }

  lemma CutPositions(order: seq<int>, n: nat, k: nat)
    requires Positions(order, n + 1) && k < |order| && order[k] == n
    ensures Positions(Cut(order, k), n)
  {
    var r := Cut(order, k);
    forall i | 0 <= i < |r| ensures 0 <= r[i] < n {
      if i < k { assert order[i] != order[k]; } else { assert order[k] != order[i + 1]; }
    }
  }

  lemma CutCovers(order: seq<int>, k: nat, x: int)
    requires k < |order| && x in order && x != order[k]
    ensures x in Cut(order, k)
  {
    var j :| 0 <= j < |order| && order[j] == x;
    if j < k { assert Cut(order, k)[j] == x; } else { assert Cut(order, k)[j - 1] == x; }
  }

  lemma CutGreatest(order: seq<int>, n: nat, k: nat)
    requires Arrangement(order, n + 1) && k < |order| && order[k] == n
    ensures Arrangement(Cut(order, k), n)
  {
    CutPositions(order, n, k);
    var r := Cut(order, k);
    forall x | 0 <= x < n ensures x in r {
      assert x in order;
      CutCovers(order, k, x);
    }
  }

  /** Cutting one index out of a list takes its value out of the sum. */
  lemma {:induction false} SumCutTo(s: seq<int>, k: nat, n: nat)
    requires k < n <= |s|
    ensures SumTo(s, n) == SumTo(Cut(s, k), n - 1) + s[k]
  {
    if n == k + 1 { SumPrefix(s, Cut(s, k), k); } else { SumCutTo(s, k, n - 1); }
  }

  lemma SumCut(s: seq<int>, k: nat)
    requires k < |s|
    ensures Sum(s) == Sum(Cut(s, k)) + s[k]
  {
    SumCutTo(s, k, |s|);
  }

  /** Picking the positions below n only looks at the first n values. */
  lemma PickCut(x: seq<int>, order: seq<int>, k: nat)
    requires |x| > 0 && Below(order, |x|) && k < |order| && Below(Cut(order, k), |x| - 1)
    ensures Pick(x[..|x| - 1], Cut(order, k)) == Cut(Pick(x, order), k)
  {}

  /** Picking along an arrangement adds up the same. */
  lemma {:induction false} SumOfOrder(x: seq<int>, order: seq<int>)
    requires Arrangement(order, |x|) && Below(order, |x|)
    ensures Sum(Pick(x, order)) == Sum(x)
    decreases |x|
  {
    if x != [] {
      var n := |x| - 1;
      assert n in order;
      var k :| 0 <= k < |order| && order[k] == n;
      CutGreatest(order, n, k);
      SumOfOrder(x[..n], Cut(order, k));
      PickCut(x, order, k);
      SumCut(Pick(x, order), k);
      SumSnoc(x);
    }
  }

  // ------------------------------------------------------------ the allocation

  /** Where a position stands in an arrangement. */
  ghost function Position(order: seq<int>, n: nat, x: int): (k: int)
    requires Arrangement(order, n) && 0 <= x < n
    ensures 0 <= k < |order| && order[k] == x
  {
    assert x in order;
    var k :| 0 <= k < |order| && order[k] == x;
    k
  }

  /** The rows of one allocation: capacities, whole shares, order of the leftover cents. */
  datatype Split = Split(capacities: seq<int>, floors: seq<int>, order: seq<int>, leftover: int)

  ghost predicate IsSplit(s: Split) {
    && |s.floors| == |s.capacities|
    && Arrangement(s.order, |s.capacities|) && Below(s.order, |s.capacities|)
    && (forall i :: 0 <= i < |s.capacities| ==> 0 <= s.floors[i] <= s.capacities[i])
    && 0 <= s.leftover <= Sum(s.capacities) - Sum(s.floors)
  }

  function Rooms(s: Split): (r: seq<int>)
    requires |s.floors| == |s.capacities| && Below(s.order, |s.capacities|)
    ensures |r| == |s.order|
  {
    seq(|s.order|, j requires 0 <= j < |s.order| => s.capacities[s.order[j]] - s.floors[s.order[j]])
  }

  /** The cents of every row: its whole share and what the bulk filling gives it. */
  ghost function Cents(s: Split): (r: seq<int>)
    requires IsSplit(s)
    ensures |r| == |s.capacities|
  {
    seq(|s.capacities|, i requires 0 <= i < |s.capacities| =>
      s.floors[i] + Fill(Rooms(s), s.leftover)[Position(s.order, |s.capacities|, i)])
  }

  lemma RoomsFacts(s: Split)
    requires IsSplit(s)
    ensures AllNonNegative(Rooms(s))
    ensures Sum(Rooms(s)) == Sum(s.capacities) - Sum(s.floors)
  {
    SumOfOrder(s.capacities, s.order);
    SumOfOrder(s.floors, s.order);
    SumPlus(Rooms(s), Pick(s.floors, s.order));
    assert Plus(Rooms(s), Pick(s.floors, s.order)) == Pick(s.capacities, s.order);
  }

  lemma CentsAlongOrder(s: Split)
    requires IsSplit(s)
    ensures Below(s.order, |Cents(s)|)
    ensures Pick(Cents(s), s.order) == Plus(Pick(s.floors, s.order), Fill(Rooms(s), s.leftover))
  {
    forall j | 0 <= j < |s.order| ensures Position(s.order, |s.capacities|, s.order[j]) == j {}
  }

  /** The awarded cents add up to the whole shares and the leftover; every row gets at
      least its whole share, at most its capacity, and at most the leftover on top. */
  lemma CentsConserve(s: Split)
    requires IsSplit(s)
    ensures Sum(Cents(s)) == Sum(s.floors) + s.leftover
    ensures forall i :: 0 <= i < |s.capacities| ==>
              s.floors[i] <= Cents(s)[i] <= s.capacities[i] && Cents(s)[i] <= s.floors[i] + s.leftover
  {
    RoomsFacts(s);
    FillSound(Rooms(s), s.leftover);
    CentsAlongOrder(s);
    SumOfOrder(Cents(s), s.order);
    SumOfOrder(s.floors, s.order);
    SumPlus(Pick(s.floors, s.order), Fill(Rooms(s), s.leftover));
    forall i | 0 <= i < |s.capacities|
      ensures s.floors[i] <= Cents(s)[i] <= s.capacities[i] && Cents(s)[i] <= s.floors[i] + s.leftover
    {
      var j := Position(s.order, |s.capacities|, i);
      assert Cents(s)[i] == s.floors[i] + Fill(Rooms(s), s.leftover)[j];
      assert Rooms(s)[j] == s.capacities[i] - s.floors[i];
    }
  }

  function Weights<K>(parts: seq<Line<K>>, requested: int, rank: K -> int): seq<Weight>
    requires Sum(Capacities(parts)) > 0
  {
    var total := Sum(Capacities(parts));
    seq(|parts|, i requires 0 <= i < |parts| => Weight(requested * parts[i].capacity % total, rank(parts[i].key)))
  }

  /** The split the code computes for a request over participating lines. */
  function SplitOf<K>(parts: seq<Line<K>>, requested: int, rank: K -> int): Split
    requires Sum(Capacities(parts)) > 0
  {
    var caps := Capacities(parts);
    var total := Sum(caps);
    var floors := Floors(caps, requested, total);
    Split(caps, floors, ByRemainder(Weights(parts, requested, rank), |parts|), requested - Sum(floors))
  }

  lemma SplitIsSound<K>(parts: seq<Line<K>>, requested: int, rank: K -> int)
    requires forall i :: 0 <= i < |parts| ==> parts[i].capacity > 0
    requires 0 < requested <= Sum(Capacities(parts))
    ensures IsSplit(SplitOf(parts, requested, rank))
    ensures SplitOf(parts, requested, rank).leftover < |parts|
  {
    var caps := Capacities(parts);
    var total := Sum(caps);
    ByRemainderArranges(Weights(parts, requested, rank), |parts|);
    LeftoverBounds(caps, requested, total);
    forall i | 0 <= i < |caps| ensures 0 <= Floors(caps, requested, total)[i] <= caps[i] {
      FloorWithinCapacity(caps[i], requested, total);
    }
  }

  /** Awards list the rows with a positive amount, in canonical order. */
  function Awards<K>(parts: seq<Line<K>>, cents: seq<int>): seq<Award<K>>
    requires |parts| == |cents|
  {
    if parts == [] then []
    else
      var n := |parts| - 1;
      Awards(parts[..n], cents[..n]) + if cents[n] > 0 then [Award(parts[n].key, cents[n])] else []
  }

  ghost predicate RequestFits<K>(parts: seq<Line<K>>, requested: int) {
    && (forall i :: 0 <= i < |parts| ==> parts[i].capacity > 0)
    && 0 < requested <= Sum(Capacities(parts))
  }

  /** The cents each participating line is awarded. */
  ghost function CentsFor<K>(parts: seq<Line<K>>, requested: int, rank: K -> int): (cents: seq<int>)
    requires RequestFits(parts, requested)
    ensures |cents| == |parts|
  {
    SplitIsSound(parts, requested, rank);
    Cents(SplitOf(parts, requested, rank))
  }

  /** What the allocation of a request must be. */
  ghost function AllocationOf<K>(lines: seq<Line<K>>, requested: int, rank: K -> int): Allocation<K> {
    var parts := Participants(lines, rank);
    if requested <= 0 then Allocated([])
    else if requested > Sum(Capacities(parts)) then AllocationIncomplete
    else
      ParticipantsPositive(lines, rank);
      Allocated(Awards(parts, CentsFor(parts, requested, rank)))
  }

  /** The cents add up to the request; no line exceeds its capacity, every line gets at
      least the floor of its exact share and at most one cent less than the number of
      lines on top of it. */
  ghost predicate Fair<K>(parts: seq<Line<K>>, requested: int, cents: seq<int>)
    requires |cents| == |parts| && Sum(Capacities(parts)) > 0
  {
    var total := Sum(Capacities(parts));
    && Sum(cents) == requested
    && forall i :: 0 <= i < |parts| ==>
         && 0 <= cents[i] <= parts[i].capacity
         && requested * parts[i].capacity / total <= cents[i]
         && cents[i] <= requested * parts[i].capacity / total + |parts| - 1
  }

  lemma CentsAreFair<K>(parts: seq<Line<K>>, requested: int, rank: K -> int)
    requires RequestFits(parts, requested)
    ensures Fair(parts, requested, CentsFor(parts, requested, rank))
  {
    SplitIsSound(parts, requested, rank);
    CentsConserve(SplitOf(parts, requested, rank));
  }

  /** Conservation, caps and near-proportionality of every allocation that fits. */
  lemma AllocationIsFair<K>(lines: seq<Line<K>>, requested: int, rank: K -> int)
    requires RequestFits(Participants(lines, rank), requested)
    ensures var parts := Participants(lines, rank);
            var cents := CentsFor(parts, requested, rank);
            AllocationOf(lines, requested, rank) == Allocated(Awards(parts, cents)) && Fair(parts, requested, cents)
  {
    CentsAreFair(Participants(lines, rank), requested, rank);
  }

  /** The loop state: each row holds its whole share and what `given` cents fill. */
  ghost predicate Filled(s: Split, cents: seq<int>, given: int)
    requires IsSplit(s)
  {
    && |cents| == |s.capacities|
    && forall j :: 0 <= j < |s.order| ==> cents[s.order[j]] == s.floors[s.order[j]] + Fill(Rooms(s), given)[j]
  }

  lemma FilledIsCents(s: Split, cents: seq<int>)
    requires IsSplit(s) && Filled(s, cents, s.leftover)
    ensures cents == Cents(s)
  {
    forall i | 0 <= i < |cents| ensures cents[i] == Cents(s)[i] {
      var j := Position(s.order, |s.capacities|, i);
      assert s.order[j] == i;
    }
  }

  lemma FilledStep(s: Split, cents: seq<int>, given: int, k: nat, next: seq<int>)
    requires IsSplit(s) && Filled(s, cents, given) && 0 <= given < s.leftover && k < |s.order|
    requires cents[s.order[k]] < s.capacities[s.order[k]]
    requires forall j :: 0 <= j < k ==> cents[s.order[j]] >= s.capacities[s.order[j]]
    requires next == cents[s.order[k] := cents[s.order[k]] + 1]
    ensures Filled(s, next, given + 1)
  {
    RoomsFacts(s);
    forall j | 0 <= j < k ensures Fill(Rooms(s), given)[j] >= Rooms(s)[j] {
      assert cents[s.order[j]] >= s.capacities[s.order[j]];
    }
    FillOneMore(Rooms(s), given, k);
    forall j | 0 <= j < |s.order| ensures next[s.order[j]] == s.floors[s.order[j]] + Fill(Rooms(s), given + 1)[j] {
      if j != k { assert s.order[j] != s.order[k]; }
    }
  }

  lemma FilledHasRoom(s: Split, cents: seq<int>, given: int)
    requires IsSplit(s) && Filled(s, cents, given) && 0 <= given < s.leftover
    ensures exists k :: 0 <= k < |s.order| && cents[s.order[k]] < s.capacities[s.order[k]]
  {
    RoomsFacts(s);
    FillHasRoom(Rooms(s), given);
    var k :| 0 <= k < |Rooms(s)| && Fill(Rooms(s), given)[k] < Rooms(s)[k];
    assert cents[s.order[k]] < s.capacities[s.order[k]];
  }

  /** The search for the first row of the order that still has room. */
  method FirstWithRoom(order: seq<int>, cents: array<int>, capacities: seq<int>) returns (k: nat)
    requires Below(order, cents.Length) && cents.Length == |capacities|
    ensures k <= |order|
    ensures k < |order| ==> cents[order[k]] < capacities[order[k]]
    ensures forall j :: 0 <= j < k ==> cents[order[j]] >= capacities[order[j]]
  {
    k := 0;
    while k < |order| && cents[order[k]] >= capacities[order[k]]
      invariant k <= |order|
      invariant forall j :: 0 <= j < k ==> cents[order[j]] >= capacities[order[j]]
    {
      k := k + 1;
    }
  }

  /** One cent to the first row of the order with room; there is always one. */
  method PlaceOne(s: Split, cents: array<int>, ghost given: int) returns (placed: bool)
    requires IsSplit(s) && Filled(s, cents[..], given) && 0 <= given < s.leftover
    modifies cents
    ensures placed && Filled(s, cents[..], given + 1)
  {
    ghost var before := cents[..];
    var k := FirstWithRoom(s.order, cents, s.capacities);
    FilledHasRoom(s, before, given);
    if k == |s.order| { return false; }
    cents[s.order[k]] := cents[s.order[k]] + 1;
    assert cents[..] == before[s.order[k] := before[s.order[k]] + 1];
    FilledStep(s, before, given, k, cents[..]);
    placed := true;
  }

  /** The one-cent loop over rows shared by both orderings. */
  method PlaceLeftover(s: Split, cents: array<int>)
    requires IsSplit(s) && cents[..] == s.floors
    modifies cents
    ensures Filled(s, cents[..], s.leftover)
  {
    var remaining := s.leftover;
    ghost var given := 0;
    FilledAtStart(s);
    while remaining > 0
      invariant 0 <= given && 0 <= remaining && given + remaining == s.leftover
      invariant Filled(s, cents[..], given)
    {
      var placed := PlaceOne(s, cents, given);
      given := given + 1;
      if !placed { break; }
      remaining := remaining - 1;
    }
  }

  lemma FilledAtStart(s: Split)
    requires IsSplit(s)
    ensures Filled(s, s.floors, 0)
  {
    RoomsFacts(s);
    FillNothing(Rooms(s));
  }

  /** The provisional rows, the leftover loop and the final check of the sum. */
  method AwardShares<K>(parts: seq<Line<K>>, requested: int, rank: K -> int) returns (r: Allocation<K>)
    requires RequestFits(parts, requested)
    ensures r == Allocated(Awards(parts, CentsFor(parts, requested, rank)))
  {
    SplitIsSound(parts, requested, rank);
    var split := SplitOf(parts, requested, rank);
    var cents := new int[|parts|](i requires 0 <= i < |parts| => split.floors[i]);
    assert cents[..] == split.floors;
    PlaceLeftover(split, cents);
    FilledIsCents(split, cents[..]);
    CentsConserve(split);
    if Sum(cents[..]) != requested { return AllocationIncomplete; }
    r := Allocated(Awards(parts, cents[..]));
  }

  method AllocateDiscountAcrossLines<K>(lines: seq<Line<K>>, requested: int, rank: K -> int) returns (r: Allocation<K>)
    ensures r == AllocationOf(lines, requested, rank)
  {
    var parts := Participants(lines, rank);
    if requested <= 0 { return Allocated([]); }
    if requested > Sum(Capacities(parts)) { return AllocationIncomplete; }
    ParticipantsPositive(lines, rank);
    r := AwardShares(parts, requested, rank);
  }

  // ---------------------------------------------------------- within one cent

  /** Every award is within one cent of its exact share, compared over the divisor. */
  ghost predicate WithinOneCent<K>(parts: seq<Line<K>>, requested: int, cents: seq<int>)
    requires |parts| == |cents|
  {
    var total := Sum(Capacities(parts));
    forall i :: 0 <= i < |parts| ==>
      -total <= cents[i] * total - requested * parts[i].capacity <= total
  }

  lemma GapToExact(cents: int, floor: int, total: int, product: int)
    requires total > 0 && floor == product / total && cents >= floor
    ensures (-total <= cents * total - product <= total) <==> cents - floor <= 1
  {
    DivisionIdentity(product, total);
    var give := cents - floor;
    assert cents * total == total * floor + give * total;
    if give >= 2 { Scale(total, 2, give); assert give * total == total * give; }
    if give == 0 { assert give * total == 0; }
    if give == 1 { assert give * total == total; }
  }

  /** How much room a whole share leaves, told from the capacity alone. */
  lemma RoomOfOne(capacity: int, requested: int, total: int)
    requires 0 < requested < total && capacity > 0
    ensures var room := capacity - requested * capacity / total;
      room >= 1 && (room == 1 <==> capacity * (total - requested) <= total)
  {
    var product := requested * capacity;
    var floor := product / total;
    DivisionIdentity(product, total);
    DistributeMinus(capacity, total, requested);
    DistributeMinus(total, capacity, floor);
    assert capacity * total == total * capacity && capacity * requested == product;
    var room := capacity - floor;
    assert total * room == capacity * (total - requested) + product % total;
    Scale(capacity, 1, total - requested);
    if room <= 0 { Scale(total, room, 0); }
    if room >= 2 { Scale(total, 2, room); }
  }

  /** Every row takes at most one leftover cent iff the rows before the last one reached
      have room for one. */
  lemma GivesOneIff(s: Split)
    requires IsSplit(s) && (s.leftover == 0 || forall j :: 0 <= j < |Rooms(s)| ==> Rooms(s)[j] >= 1)
    ensures (forall i :: 0 <= i < |s.capacities| ==> Cents(s)[i] - s.floors[i] <= 1) <==> SingleRooms(Rooms(s), s.leftover)
  {
    RoomsFacts(s);
    if s.leftover == 0 { FillFew(Rooms(s), 0); } else { FillSpreadsIff(Rooms(s), s.leftover); }
    CentsAlongOrder(s);
    var given := Fill(Rooms(s), s.leftover);
    if AtMostOne(given) {
      forall i | 0 <= i < |s.capacities| ensures Cents(s)[i] - s.floors[i] <= 1 {
        assert Cents(s)[i] - s.floors[i] == given[Position(s.order, |s.capacities|, i)];
      }
    } else {
      var j :| 0 <= j < |given| && given[j] > 1;
      assert Pick(Cents(s), s.order)[j] == Pick(s.floors, s.order)[j] + given[j];
    }
  }

  /** Each of the first leftover - 1 rows of the order has a capacity small enough for its
      whole share to leave room for one cent only. */
  ghost predicate SmallRowsFirst<K>(parts: seq<Line<K>>, requested: int, s: Split)
    requires Below(s.order, |parts|)
  {
    var total := Sum(Capacities(parts));
    forall j :: 0 <= j < |s.order| && j < s.leftover - 1 ==> parts[s.order[j]].capacity * (total - requested) <= total
  }

  lemma SmallRowsIff<K>(parts: seq<Line<K>>, requested: int, rank: K -> int)
    requires RequestFits(parts, requested)
    ensures var s := SplitOf(parts, requested, rank);
      && IsSplit(s)
      && (s.leftover == 0 || forall j :: 0 <= j < |Rooms(s)| ==> Rooms(s)[j] >= 1)
      && (SmallRowsFirst(parts, requested, s) <==> SingleRooms(Rooms(s), s.leftover))
  {
    SplitIsSound(parts, requested, rank);
    var s, total := SplitOf(parts, requested, rank), Sum(Capacities(parts));
    if requested < total {
      forall j | 0 <= j < |s.order|
        ensures Rooms(s)[j] >= 1
        ensures Rooms(s)[j] == 1 <==> parts[s.order[j]].capacity * (total - requested) <= total
      {
        RoomOfOne(parts[s.order[j]].capacity, requested, total);
      }
    } else {
      WholeShares(parts, requested, rank);
    }
  }

  lemma ExactQuotient(capacity: int, requested: int)
    requires requested > 0
    ensures requested * capacity / requested == capacity
  {
    var q := requested * capacity / requested;
    DivisionIdentity(requested * capacity, requested);
    DistributeMinus(requested, capacity, q);
    if q < capacity { Scale(requested, 1, capacity - q); }
    if q > capacity { Scale(requested, capacity - q, -1); }
  }

  lemma WholeShares<K>(parts: seq<Line<K>>, requested: int, rank: K -> int)
    requires RequestFits(parts, requested) && requested == Sum(Capacities(parts))
    ensures SplitOf(parts, requested, rank).leftover == 0
  {
    var caps := Capacities(parts);
    var floors := Floors(caps, requested, requested);
    forall i | 0 <= i < |caps| ensures floors[i] == caps[i] { ExactQuotient(caps[i], requested); }
    assert floors == caps;
  }

  /** Awards stay within one cent of exact precisely when each of the first leftover - 1 rows
      of the order has capacity * (total - requested) <= total. The order is by larger
      fractional part, ties by key, and all of it is known before any cent is placed. */
  lemma WithinOneCentIff<K>(parts: seq<Line<K>>, requested: int, rank: K -> int)
    requires RequestFits(parts, requested)
    ensures var s := SplitOf(parts, requested, rank);
      && IsSplit(s) && WeightOrdered(Weights(parts, requested, rank), s.order)
      && s.leftover == requested - Sum(Floors(Capacities(parts), requested, Sum(Capacities(parts))))
      && (WithinOneCent(parts, requested, CentsFor(parts, requested, rank)) <==> SmallRowsFirst(parts, requested, s))
  {
    SplitIsSound(parts, requested, rank);
    ByRemainderOrdered(Weights(parts, requested, rank), |parts|);
    var s, cents := SplitOf(parts, requested, rank), CentsFor(parts, requested, rank);
    var total := Sum(Capacities(parts));
    CentsConserve(s);
    SmallRowsIff(parts, requested, rank);
    GivesOneIff(s);
    forall i | 0 <= i < |parts|
      ensures (-total <= cents[i] * total - requested * parts[i].capacity <= total) <==> cents[i] - s.floors[i] <= 1
    {
      GapToExact(cents[i], s.floors[i], total, requested * parts[i].capacity);
    }
  }

  lemma SumOfThree(a: int, b: int, c: int)
    ensures Sum([a, b, c]) == a + b + c
  {
    SumCons(a, [b, c]);
    SumCons(b, [c]);
    SumCons(c, []);
    assert [a] + [b, c] == [a, b, c] && [b] + [c] == [b, c] && [c] + [] == [c];
  }

  lemma EvenSplit(parts: seq<Line<int>>, rank: int -> int)
    requires parts == [Line(1, 100), Line(2, 100), Line(3, 100)]
    ensures RequestFits(parts, 200)
    ensures SplitOf(parts, 200, rank).capacities == [100, 100, 100]
    ensures SplitOf(parts, 200, rank).floors == [66, 66, 66] && SplitOf(parts, 200, rank).leftover == 2
  {
    SumOfThree(100, 100, 100);
    SumOfThree(66, 66, 66);
    assert Capacities(parts) == [100, 100, 100];
    assert Floors([100, 100, 100], 200, 300) == [66, 66, 66];
  }

  /** It does fail: 2.00 over three lines of 1.00 leaves two cents, both placed on the
      first line of the order. */
  lemma TwoCentsOnOneLine(parts: seq<Line<int>>, rank: int -> int)
    requires parts == [Line(1, 100), Line(2, 100), Line(3, 100)]
    ensures RequestFits(parts, 200) && !WithinOneCent(parts, 200, CentsFor(parts, 200, rank))
  {
    EvenSplit(parts, rank);
    WithinOneCentIff(parts, 200, rank);
    var s := SplitOf(parts, 200, rank);
    assert parts[s.order[0]].capacity * (300 - 200) > 300;
  }
}
