/** Rows of the agenda outbox in id order and the windows the dispatcher reads
    (src/services/agendaEventDispatcher.js:224-236, 308-321). */
module Outbox {
  import opened Subscriber

  predicate Ascending(h: seq<Row>) {
    && (forall i :: 0 <= i < |h| ==> 1 <= h[i].id)
    && forall i, j :: 0 <= i < j < |h| ==> h[i].id < h[j].id
  }

  function LastRowId(h: seq<Row>): int { if h == [] then 0 else h[|h| - 1].id }

  predicate Wanted(r: Row, branch: Option<int>, lo: int, hi: int) {
    (branch.Some? ==> r.branch == branch.value) && lo < r.id <= hi
  }

  /** The rows of a branch, or of all branches, with lo < id <= hi, in id order. */
  function Select(h: seq<Row>, branch: Option<int>, lo: int, hi: int): (r: seq<Row>)
    ensures forall x :: x in r <==> x in h && Wanted(x, branch, lo, hi)
  {
    if h == [] then []
    else
      var init := Select(h[..|h| - 1], branch, lo, hi);
      if Wanted(h[|h| - 1], branch, lo, hi) then init + [h[|h| - 1]] else init
  }

  function FirstN<T>(s: seq<T>, n: nat): seq<T> { if n < |s| then s[..n] else s }

  /** The events among a list of frames. */
  function Events(items: seq<Item>): (r: seq<Row>)
    ensures |r| <= |items|
  {
    if items == [] then []
    else Events(items[..|items| - 1]) + if items[|items| - 1].Event? then [items[|items| - 1].row] else []
  }

  lemma {:induction false} EventsAppend(a: seq<Item>, b: seq<Item>)
    ensures Events(a + b) == Events(a) + Events(b)
  {
    if b == [] {
      assert a + b == a;
    } else {
      EventsAppend(a, b[..|b| - 1]);
      assert (a + b)[..|a + b| - 1] == a + b[..|b| - 1];
    }
  }

  lemma EventsSnoc(a: seq<Item>, item: Item)
    ensures Events(a + [item]) == Events(a) + if item.Event? then [item.row] else []
  {
    assert (a + [item])[..|a|] == a;
  }

  lemma {:induction false} SelectAscending(h: seq<Row>, branch: Option<int>, lo: int, hi: int)
    requires Ascending(h)
    ensures Ascending(Select(h, branch, lo, hi))
  {
    if h != [] {
      var n := |h| - 1;
      SelectAscending(h[..n], branch, lo, hi);
      var init := Select(h[..n], branch, lo, hi);
      forall i | 0 <= i < |init| ensures init[i].id < h[n].id {
        assert init[i] in h[..n];
      }
    }
  }

  lemma {:induction false} AscendingUnique(a: seq<Row>, b: seq<Row>)
    requires Ascending(a) && Ascending(b)
    requires forall x :: x in a <==> x in b
    ensures a == b
  {
    if a == [] {
      if b != [] { SameLast(b, a); }
    } else {
      var m, n := |a| - 1, |b| - 1;
      SameLast(a, b);
      forall x | x in a[..m] ensures x in b[..n] { SurvivesDrop(a, b, x); }
      forall x | x in b[..n] ensures x in a[..m] { SurvivesDrop(b, a, x); }
      AscendingUnique(a[..m], b[..n]);
      assert a == a[..m] + [a[m]] && b == b[..n] + [b[n]];
    }
  }

  lemma SameLast(a: seq<Row>, b: seq<Row>)
    requires Ascending(a) && Ascending(b) && a != []
    requires forall x :: x in a <==> x in b
    ensures b != [] && a[|a| - 1] == b[|b| - 1]
  {
    assert a[|a| - 1] in b;
    var j :| 0 <= j < |b| && b[j] == a[|a| - 1];
    assert b[|b| - 1] in a;
    var i :| 0 <= i < |a| && a[i] == b[|b| - 1];
  }

  lemma SurvivesDrop(a: seq<Row>, b: seq<Row>, x: Row)
    requires Ascending(a) && a != [] && b != [] && a[|a| - 1] == b[|b| - 1]
    requires x in a[..|a| - 1] && x in b
    ensures x in b[..|b| - 1]
  {
    var i :| 0 <= i < |b| && b[i] == x;
    assert b[..|b| - 1] + [b[|b| - 1]] == b;
    var j :| 0 <= j < |a| - 1 && a[j] == x;
  }

  lemma AppendAscending(a: seq<Row>, b: seq<Row>, cut: int)
    requires Ascending(a) && Ascending(b)
    requires forall x :: x in a ==> x.id <= cut
    requires forall x :: x in b ==> cut < x.id
    ensures Ascending(a + b)
  {
    forall i, j | 0 <= i < j < |a + b| ensures (a + b)[i].id < (a + b)[j].id {
      if i < |a| <= j {
        assert a[i] in a && b[j - |a|] in b;
      }
    }
  }

  lemma SelectSplit(h: seq<Row>, branch: Option<int>, lo: int, mid: int, hi: int)
    requires Ascending(h) && lo <= mid <= hi
    ensures Select(h, branch, lo, mid) + Select(h, branch, mid, hi) == Select(h, branch, lo, hi)
  {
    SelectAscending(h, branch, lo, mid);
    SelectAscending(h, branch, mid, hi);
    SelectAscending(h, branch, lo, hi);
    AppendAscending(Select(h, branch, lo, mid), Select(h, branch, mid, hi), mid);
    AscendingUnique(Select(h, branch, lo, mid) + Select(h, branch, mid, hi), Select(h, branch, lo, hi));
  }

  lemma {:induction false} SelectNone(h: seq<Row>, branch: Option<int>, lo: int, hi: int)
    requires forall x :: x in h ==> !Wanted(x, branch, lo, hi)
    ensures Select(h, branch, lo, hi) == []
  {
    if h != [] {
      SelectNone(h[..|h| - 1], branch, lo, hi);
      assert h[|h| - 1] in h;
    }
  }

  lemma SelectOne(h: seq<Row>, branch: Option<int>, lo: int, hi: int, r: Row)
    requires Ascending(h) && r in h && Wanted(r, branch, lo, hi)
    requires forall x :: x in h && Wanted(x, branch, lo, hi) ==> x == r
    ensures Select(h, branch, lo, hi) == [r]
  {
    SelectAscending(h, branch, lo, hi);
    AscendingUnique(Select(h, branch, lo, hi), [r]);
  }

  lemma OnlySpot(s: seq<Row>, k: nat, i: nat)
    requires Ascending(s) && k < |s| && i < |s|
    requires s[i].id <= s[k].id && (k > 0 ==> s[k - 1].id < s[i].id)
    ensures i == k
  {
  }

  /** Each selected row is the only one between its predecessor and itself. */
  lemma NextRow(h: seq<Row>, branch: Option<int>, lo: int, hi: int, k: nat)
    requires Ascending(h) && k < |Select(h, branch, lo, hi)|
    ensures var s := Select(h, branch, lo, hi);
      var from := if k == 0 then lo else s[k - 1].id;
      && lo <= from < s[k].id <= hi && s[k] in h
      && Select(h, branch, from, s[k].id) == [s[k]]
  {
    var s := Select(h, branch, lo, hi);
    var from := if k == 0 then lo else s[k - 1].id;
    SelectAscending(h, branch, lo, hi);
    assert s[k] in s;
    if k > 0 {
      assert s[k - 1] in s;
    }
    forall x | x in h && Wanted(x, branch, from, s[k].id) ensures x == s[k] {
      assert x in s;
      var i :| 0 <= i < |s| && s[i] == x;
      OnlySpot(s, k, i);
    }
    SelectOne(h, branch, from, s[k].id, s[k]);
  }

  /** The only row of a window, seen from one branch. */
  lemma WindowOfBranch(h: seq<Row>, lo: int, r: Row, branch: int)
    requires Ascending(h) && r in h && lo < r.id && Select(h, None, lo, r.id) == [r]
    ensures Select(h, Some(branch), lo, r.id) == if r.branch == branch then [r] else []
  {
    forall x | x in h && Wanted(x, Some(branch), lo, r.id) ensures x == r {
      assert x in Select(h, None, lo, r.id);
    }
    if r.branch == branch {
      SelectOne(h, Some(branch), lo, r.id, r);
    } else {
      SelectNone(h, Some(branch), lo, r.id);
    }
  }

  lemma SelectAfterCommit(h: seq<Row>, r: Row, branch: Option<int>, lo: int, hi: int)
    requires hi < r.id
    ensures Select(h + [r], branch, lo, hi) == Select(h, branch, lo, hi)
  {
    assert (h + [r])[..|h|] == h;
  }

  lemma CommitAscending(h: seq<Row>, r: Row)
    requires Ascending(h) && LastRowId(h) < r.id
    ensures Ascending(h + [r])
  {
    forall i | 0 <= i < |h| ensures h[i].id <= LastRowId(h) {}
  }

  lemma IdsUpToLast(h: seq<Row>)
    requires Ascending(h)
    ensures 0 <= LastRowId(h) && forall x :: x in h ==> 1 <= x.id <= LastRowId(h)
  {
  }
}
