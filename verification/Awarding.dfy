/** What an allocation must be, told from the lines alone: largest remainders first, awards in
    key order, and nothing else fits the description
    (src/services/bookingDiscounts.js:91-141). */
module Awarding {
  import opened Discounts

  /** The whole cents and the fraction of a line's exact share, the fraction in parts of `total`. */
  function WholeShare(requested: int, capacity: int, total: int): int
    requires total > 0
  {
    requested * capacity / total
  }

  function Fraction(requested: int, capacity: int, total: int): int
    requires total > 0
  {
    requested * capacity % total
  }

  /** Line i is offered leftover cents before line j: a larger fraction, or an equal one and an
      earlier key. */
  predicate Sooner<K>(parts: seq<Line<K>>, requested: int, total: int, rank: K -> int, i: int, j: int)
    requires total > 0 && 0 <= i < |parts| && 0 <= j < |parts|
  {
    var a, b := Fraction(requested, parts[i].capacity, total), Fraction(requested, parts[j].capacity, total);
    a > b || (a == b && rank(parts[i].key) < rank(parts[j].key))
  }

  /** Every line gets its whole share and no more than it can absorb, the cents add up, and a
      line gets a leftover cent only when all lines offered one sooner are full. */
  ghost predicate LargestFirst<K>(parts: seq<Line<K>>, requested: int, rank: K -> int, cents: seq<int>) {
    var total := Sum(Capacities(parts));
    && total > 0 && |cents| == |parts| && Sum(cents) == requested
    && (forall i :: 0 <= i < |parts| ==> WholeShare(requested, parts[i].capacity, total) <= cents[i] <= parts[i].capacity)
    && forall i, j :: 0 <= i < |parts| && 0 <= j < |parts| && Sooner(parts, requested, total, rank, i, j) ==>
         cents[j] > WholeShare(requested, parts[j].capacity, total) ==> cents[i] == parts[i].capacity
  }

  // -------------------------------------------------- the filling is in order

  lemma {:induction false} FillInOrder(rooms: seq<int>, cents: int, p: nat, q: nat)
    requires AllNonNegative(rooms) && cents >= 0 && p < q < |rooms| && Fill(rooms, cents)[q] > 0
    ensures Fill(rooms, cents)[p] == rooms[p]
  {
    var take := Min(rooms[0], cents);
    FillCons(rooms, cents);
    if p > 0 {
      FillInOrder(rooms[1..], cents - take, p - 1, q - 1);
    } else if take == cents {
      FillNothing(rooms[1..]);
      assert false;
    }
  }

  /** A row sooner in the order is full before a later one gets more than its whole share. */
  lemma SoonerIsFull(s: Split, i: int, j: int)
    requires IsSplit(s) && 0 <= i < |s.capacities| && 0 <= j < |s.capacities|
    requires Position(s.order, |s.capacities|, i) < Position(s.order, |s.capacities|, j)
    requires Cents(s)[j] > s.floors[j]
    ensures Cents(s)[i] == s.capacities[i]
  {
    RoomsFacts(s);
    FillInOrder(Rooms(s), s.leftover, Position(s.order, |s.capacities|, i), Position(s.order, |s.capacities|, j));
  }

  /** The cents of the code go to the largest fractions first, ties by key. */
  lemma CentsLargestFirst<K>(parts: seq<Line<K>>, requested: int, rank: K -> int)
    requires RequestFits(parts, requested)
    ensures LargestFirst(parts, requested, rank, CentsFor(parts, requested, rank))
  {
    SplitIsSound(parts, requested, rank);
    CentsAreFair(parts, requested, rank);
    var s, weights, n := SplitOf(parts, requested, rank), Weights(parts, requested, rank), |parts|;
    var total := Sum(Capacities(parts));
    ByRemainderOrdered(weights, n);
    forall i, j | 0 <= i < n && 0 <= j < n && Sooner(parts, requested, total, rank, i, j) && Cents(s)[j] > s.floors[j]
      ensures Cents(s)[i] == parts[i].capacity
    {
      var p, q := Position(s.order, n, i), Position(s.order, n, j);
      assert p < q by {
        if q < p { assert false; }
      }
      SoonerIsFull(s, i, j);
    }
  }

  // -------------------------------------------------------------- uniqueness

  lemma {:induction false} SumMonotone(a: seq<int>, b: seq<int>, n: nat)
    requires n <= |a| == |b| && forall i :: 0 <= i < n ==> a[i] <= b[i]
    ensures SumTo(a, n) <= SumTo(b, n)
    ensures SumTo(a, n) == SumTo(b, n) ==> forall i :: 0 <= i < n ==> a[i] == b[i]
  {
    if n > 0 { SumMonotone(a, b, n - 1); }
  }

  /** Two different lists with one sum: somewhere the first is smaller, somewhere larger. */
  lemma SomeSmaller(a: seq<int>, b: seq<int>) returns (i: int)
    requires |a| == |b| && Sum(a) == Sum(b) && a != b
    ensures 0 <= i < |a| && a[i] < b[i]
  {
    if forall k :: 0 <= k < |a| ==> b[k] <= a[k] {
      SumMonotone(b, a, |a|);
    }
    i :| 0 <= i < |a| && a[i] < b[i];
  }

  /** With distinct keys only one list of cents goes to the largest fractions first. */
  lemma LargestFirstUnique<K>(parts: seq<Line<K>>, requested: int, rank: K -> int, a: seq<int>, b: seq<int>)
    requires DistinctKeys(parts, rank) && LargestFirst(parts, requested, rank, a) && LargestFirst(parts, requested, rank, b)
    ensures a == b
  {
    if a != b {
      var total := Sum(Capacities(parts));
      var i := SomeSmaller(a, b);
      var j := SomeSmaller(b, a);
      assert rank(parts[i].key) != rank(parts[j].key) by {
        if i < j { assert rank(parts[i].key) != rank(parts[j].key); } else { assert j < i; }
      }
      if Sooner(parts, requested, total, rank, i, j) {
        assert false;
      } else {
        assert false;
      }
    }
  }

  // ------------------------------------------------------------- participants

  /** What all lines together can absorb. */
  function PositiveTotal<K>(lines: seq<Line<K>>): int {
    if lines == [] then 0
    else
      PositiveTotal(lines[..|lines| - 1]) + if lines[|lines| - 1].capacity > 0 then lines[|lines| - 1].capacity else 0
  }

  lemma CapacitiesCons<K>(x: Line<K>, lines: seq<Line<K>>)
    ensures Sum(Capacities([x] + lines)) == x.capacity + Sum(Capacities(lines))
  {
    assert Capacities([x] + lines) == [x.capacity] + Capacities(lines);
    SumCons(x.capacity, Capacities(lines));
  }

  lemma CapacitiesSnoc<K>(lines: seq<Line<K>>, x: Line<K>)
    ensures Sum(Capacities(lines + [x])) == Sum(Capacities(lines)) + x.capacity
  {
    var all := Capacities(lines + [x]);
    SumSnoc(all);
    assert all[..|all| - 1] == Capacities(lines);
  }

  lemma {:induction false} InsertedTotal<K>(x: Line<K>, lines: seq<Line<K>>, rank: K -> int)
    ensures Sum(Capacities(InsertByKey(x, lines, rank))) == x.capacity + Sum(Capacities(lines))
  {
    if lines == [] || rank(x.key) < rank(lines[0].key) {
      CapacitiesCons(x, lines);
    } else {
      InsertedTotal(x, lines[1..], rank);
      CapacitiesCons(lines[0], InsertByKey(x, lines[1..], rank));
      CapacitiesCons(lines[0], lines[1..]);
      assert lines == [lines[0]] + lines[1..];
    }
  }

  lemma {:induction false} SortedTotal<K>(lines: seq<Line<K>>, rank: K -> int)
    ensures Sum(Capacities(SortByKey(lines, rank))) == Sum(Capacities(lines))
  {
    if lines != [] {
      var init, last := lines[..|lines| - 1], lines[|lines| - 1];
      SortedTotal(init, rank);
      InsertedTotal(last, SortByKey(init, rank), rank);
      CapacitiesSnoc(init, last);
      assert lines == init + [last];
    }
  }

  lemma {:induction false} EligibleTotal<K>(lines: seq<Line<K>>)
    ensures Sum(Capacities(Eligible(lines))) == PositiveTotal(lines)
  {
    if lines != [] {
      var init, last := lines[..|lines| - 1], lines[|lines| - 1];
      EligibleTotal(init);
      if last.capacity > 0 { CapacitiesSnoc(Eligible(init), last); } else { assert Eligible(lines) == Eligible(init); }
    }
  }

  /** The lines that take part: those with something to absorb, once each, in key order. */
  lemma ParticipantsExact<K>(lines: seq<Line<K>>, rank: K -> int)
    requires DistinctKeys(lines, rank)
    ensures var parts := Participants(lines, rank);
      && KeyOrdered(parts, rank) && Sum(Capacities(parts)) == PositiveTotal(lines)
      && forall x :: x in parts <==> x in lines && x.capacity > 0
  {
    EligibleDistinct(lines, rank);
    SortKeyOrdered(Eligible(lines), rank);
    SortedTotal(Eligible(lines), rank);
    EligibleTotal(lines);
    forall x ensures x in Participants(lines, rank) <==> x in lines && x.capacity > 0 {
      SortedMembers(Eligible(lines), rank, x);
      EligibleMembers(lines, x);
    }
  }

  // ------------------------------------------------------------------ awards

  /** Some line of that key is given that many cents, at least one. */
  predicate Given<K(==)>(parts: seq<Line<K>>, cents: seq<int>, award: Award<K>)
    requires |parts| == |cents|
  {
    exists i :: 0 <= i < |parts| && parts[i].key == award.key && cents[i] == award.cents > 0
  }

  lemma GivenSnoc<K>(parts: seq<Line<K>>, cents: seq<int>, award: Award<K>)
    requires |parts| == |cents| > 0
    ensures var n := |parts| - 1;
      Given(parts, cents, award) <==> Given(parts[..n], cents[..n], award) || (parts[n].key == award.key && cents[n] == award.cents > 0)
  {
    var n := |parts| - 1;
    assert forall i :: 0 <= i < n ==> parts[..n][i] == parts[i] && cents[..n][i] == cents[i];
  }

  lemma {:induction false} AwardsMember<K>(parts: seq<Line<K>>, cents: seq<int>, award: Award<K>)
    requires |parts| == |cents|
    ensures award in Awards(parts, cents) <==> Given(parts, cents, award)
  {
    if parts != [] {
      var n := |parts| - 1;
      AwardsMember(parts[..n], cents[..n], award);
      GivenSnoc(parts, cents, award);
    }
  }

  ghost predicate AwardsOrdered<K>(awards: seq<Award<K>>, rank: K -> int) {
    forall k, l :: 0 <= k < l < |awards| ==> rank(awards[k].key) < rank(awards[l].key)
  }

  lemma {:induction false} AwardsInOrder<K>(parts: seq<Line<K>>, cents: seq<int>, rank: K -> int)
    requires |parts| == |cents| && KeyOrdered(parts, rank)
    ensures AwardsOrdered(Awards(parts, cents), rank)
  {
    if parts != [] {
      var n := |parts| - 1;
      var before := Awards(parts[..n], cents[..n]);
      AwardsInOrder(parts[..n], cents[..n], rank);
      forall k | 0 <= k < |before| ensures rank(before[k].key) < rank(parts[n].key) {
        assert before[k] in before;
        AwardsMember(parts[..n], cents[..n], before[k]);
      }
    }
  }

  /** The awards are those of the lines given something, in key order. */
  lemma AwardsListed<K>(parts: seq<Line<K>>, cents: seq<int>, rank: K -> int)
    requires |parts| == |cents| && KeyOrdered(parts, rank)
    ensures AwardsOrdered(Awards(parts, cents), rank) && forall x :: x in Awards(parts, cents) <==> Given(parts, cents, x)
  {
    AwardsInOrder(parts, cents, rank);
    forall x ensures x in Awards(parts, cents) <==> Given(parts, cents, x) { AwardsMember(parts, cents, x); }
  }

  /** The allocation told from the lines. Nothing requested: no awards. More than the lines can
      absorb together: refused. Else the awards, in key order, of the only cents that go to the
      largest fractions first. */
  lemma AllocationExact<K>(lines: seq<Line<K>>, requested: int, rank: K -> int) returns (parts: seq<Line<K>>, cents: seq<int>)
    requires DistinctKeys(lines, rank)
    ensures requested <= 0 ==> AllocationOf(lines, requested, rank) == Allocated([])
    ensures requested > 0 ==> (AllocationOf(lines, requested, rank).AllocationIncomplete? <==> requested > PositiveTotal(lines))
    ensures 0 < requested <= PositiveTotal(lines) ==>
      && KeyOrdered(parts, rank) && (forall x :: x in parts <==> x in lines && x.capacity > 0)
      && LargestFirst(parts, requested, rank, cents)
      && (forall other :: LargestFirst(parts, requested, rank, other) ==> other == cents)
      && var awards := AllocationOf(lines, requested, rank).awards;
         AwardsOrdered(awards, rank) && forall x :: x in awards <==> Given(parts, cents, x)
  {
    parts, cents := Participants(lines, rank), [];
    ParticipantsExact(lines, rank);
    ParticipantsPositive(lines, rank);
    if 0 < requested <= PositiveTotal(lines) {
      cents := CentsFor(parts, requested, rank);
      CentsLargestFirst(parts, requested, rank);
      forall other | LargestFirst(parts, requested, rank, other) ensures other == cents {
        LargestFirstUnique(parts, requested, rank, other, cents);
      }
      AwardsListed(parts, cents, rank);
    }
  }
}
