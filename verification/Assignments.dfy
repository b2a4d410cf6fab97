/** Enumeration of barber assignments for a group booking
    (src/services/bookingCanonicalReservationService.js:160-225). */
module Assignments {

  /** One way of serving a member: order in the group, barber and start, as trimmed text,
      and `rest` for all other data of the option. */
  datatype Choice = Choice(order: int, barber: string, start: string, rest: int)

  /** What the signature of a combination keeps of one choice. */
  datatype Key = Key(order: int, barber: string, start: string)

  datatype Answer = Attempts(list: seq<seq<Choice>>) | TooManyCombinations

  /** A member with the sources its options are taken from. */
  datatype Member = Member(
    order: int, start: string, rest: int, computed: seq<Choice>, explicitBarber: string,
    candidates: seq<string>, fallback: string)

  // ---------------------------------------------------------------- options

  function FirstOccurrences(ids: seq<string>): (r: seq<string>)
    ensures forall x :: x in r <==> x in ids
    ensures forall i, j :: 0 <= i < j < |r| ==> r[i] != r[j]
  {
    if ids == [] then []
    else
      var init := FirstOccurrences(ids[..|ids| - 1]);
      if ids[|ids| - 1] in init then init else init + [ids[|ids| - 1]]
  }

  function Matching(ids: seq<string>, isUuid: string -> bool): (r: seq<string>)
    ensures forall x :: x in r <==> x in ids && isUuid(x)
  {
    if ids == [] then []
    else Matching(ids[..|ids| - 1], isUuid) + if isUuid(ids[|ids| - 1]) then [ids[|ids| - 1]] else []
  }

  function FirstSix(ids: seq<string>): seq<string> { if |ids| > 6 then ids[..6] else ids }

  /** Candidate barbers of a member without computed options or an explicit barber. */
  function CandidateIds(m: Member, isUuid: string -> bool): seq<string> {
    var ids := FirstSix(FirstOccurrences(Matching(m.candidates, isUuid)));
    if ids != [] then ids else if isUuid(m.fallback) then [m.fallback] else []
  }

  function Options(m: Member, isUuid: string -> bool): seq<Choice> {
    if m.computed != [] then m.computed
    else if m.explicitBarber != "" then [Choice(m.order, m.explicitBarber, m.start, m.rest)]
    else
      var ids := CandidateIds(m, isUuid);
      seq(|ids|, i requires 0 <= i < |ids| => Choice(m.order, ids[i], m.start, m.rest))
  }

  /** Position k holds an id that passes the test and did not appear before. */
  predicate NewcomerAt(ids: seq<string>, isUuid: string -> bool, k: int) {
    0 <= k < |ids| && isUuid(ids[k]) && forall j :: 0 <= j < k ==> ids[j] != ids[k]
  }

  /** `barbers` are the ids at the positions `at`, which are newcomers in order of appearance;
      none is missing before the last of them, and none at all unless there are six. */
  ghost predicate FirstDistinct(barbers: seq<string>, ids: seq<string>, isUuid: string -> bool, at: seq<int>) {
    && |at| == |barbers| <= 6
    && (forall i :: 0 <= i < |at| ==> NewcomerAt(ids, isUuid, at[i]) && barbers[i] == ids[at[i]])
    && Increasing(at)
    && (forall k :: NewcomerAt(ids, isUuid, k) ==> k in at || (|at| == 6 && at[5] < k))
  }

  predicate Increasing(at: seq<int>) { forall i, j :: 0 <= i < j < |at| ==> at[i] < at[j] }

  /** `at` are the positions of all newcomers, in order, and `found` the ids there. */
  ghost predicate Newcomers(ids: seq<string>, isUuid: string -> bool, at: seq<int>, found: seq<string>) {
    && |at| == |found| && Increasing(at)
    && (forall i :: 0 <= i < |at| ==> NewcomerAt(ids, isUuid, at[i]) && found[i] == ids[at[i]])
    && (forall k :: NewcomerAt(ids, isUuid, k) ==> k in at)
  }

  lemma PrefixNewcomers(ids: seq<string>, isUuid: string -> bool, n: nat, k: int)
    requires n <= |ids| && k < n
    ensures NewcomerAt(ids, isUuid, k) <==> NewcomerAt(ids[..n], isUuid, k)
  {
    assert forall j :: 0 <= j < n ==> ids[..n][j] == ids[j];
  }

  lemma NewcomersSnoc(ids: seq<string>, isUuid: string -> bool, at: seq<int>, found: seq<string>)
    requires |ids| > 0 && Newcomers(ids[..|ids| - 1], isUuid, at, found)
    ensures var n := |ids| - 1;
      if NewcomerAt(ids, isUuid, n) then Newcomers(ids, isUuid, at + [n], found + [ids[n]])
      else Newcomers(ids, isUuid, at, found)
  {
    var n := |ids| - 1;
    forall k | k < n ensures NewcomerAt(ids, isUuid, k) <==> NewcomerAt(ids[..n], isUuid, k) {
      PrefixNewcomers(ids, isUuid, n, k);
    }
    forall i | 0 <= i < |at| ensures at[i] < n && found[i] == ids[at[i]] {
      assert NewcomerAt(ids[..n], isUuid, at[i]);
    }
    assert n in at + [n];
  }

  lemma {:induction false} NewcomersOf(ids: seq<string>, isUuid: string -> bool) returns (at: seq<int>)
    ensures Newcomers(ids, isUuid, at, FirstOccurrences(Matching(ids, isUuid)))
  {
    at := [];
    if ids != [] {
      var n := |ids| - 1;
      at := NewcomersOf(ids[..n], isUuid);
      NewcomersSnoc(ids, isUuid, at, FirstOccurrences(Matching(ids[..n], isUuid)));
      LastMatch(ids, isUuid);
      if NewcomerAt(ids, isUuid, n) { at := at + [n]; }
    }
  }

  lemma OccurrencesSnoc(ids: seq<string>, id: string)
    ensures FirstOccurrences(ids + [id]) == FirstOccurrences(ids) + if id in ids then [] else [id]
  {
    assert (ids + [id])[..|ids|] == ids;
    assert FirstOccurrences(ids) + [] == FirstOccurrences(ids);
  }

  lemma SeenBefore(ids: seq<string>, isUuid: string -> bool, n: nat)
    requires n < |ids| && isUuid(ids[n])
    ensures ids[n] in Matching(ids[..n], isUuid) <==> !NewcomerAt(ids, isUuid, n)
  {
    assert ids[n] in Matching(ids[..n], isUuid) <==> ids[n] in ids[..n];
    if ids[n] in ids[..n] {
      var j :| 0 <= j < n && ids[..n][j] == ids[n];
      assert ids[j] == ids[n];
    }
    if j :| 0 <= j < n && ids[j] == ids[n] { assert ids[..n][j] == ids[n]; }
  }

  lemma LastMatch(ids: seq<string>, isUuid: string -> bool)
    requires |ids| > 0
    ensures var n := |ids| - 1;
      FirstOccurrences(Matching(ids, isUuid)) == FirstOccurrences(Matching(ids[..n], isUuid))
        + if NewcomerAt(ids, isUuid, n) then [ids[n]] else []
  {
    var n := |ids| - 1;
    var before := Matching(ids[..n], isUuid);
    if isUuid(ids[n]) {
      assert Matching(ids, isUuid) == before + [ids[n]];
      OccurrencesSnoc(before, ids[n]);
      SeenBefore(ids, isUuid, n);
    } else {
      assert Matching(ids, isUuid) == before + [];
      assert before + [] == before && FirstOccurrences(before) + [] == FirstOccurrences(before);
    }
  }

  predicate SomePasses(ids: seq<string>, isUuid: string -> bool) { exists k :: 0 <= k < |ids| && isUuid(ids[k]) }

  lemma SomeNewcomer(ids: seq<string>, isUuid: string -> bool)
    ensures SomePasses(ids, isUuid) <==> FirstOccurrences(Matching(ids, isUuid)) != []
  {
    var all := FirstOccurrences(Matching(ids, isUuid));
    if k :| 0 <= k < |ids| && isUuid(ids[k]) { assert ids[k] in all; }
    if all != [] {
      assert all[0] in all;
      var k :| 0 <= k < |ids| && ids[k] == all[0];
    }
  }

  lemma FirstSixDistinct(ids: seq<string>, isUuid: string -> bool) returns (at: seq<int>)
    ensures FirstDistinct(FirstSix(FirstOccurrences(Matching(ids, isUuid))), ids, isUuid, at)
  {
    at := NewcomersOf(ids, isUuid);
    if |at| > 6 {
      var all := at;
      at := all[..6];
      forall k | NewcomerAt(ids, isUuid, k) ensures k in at || at[5] < k {
        var i :| 0 <= i < |all| && all[i] == k;
        if i < 6 { assert at[i] == k; } else { assert all[5] < all[i]; }
      }
    }
  }

  /** Options the availability computed are taken as they are; else a chosen barber is the only
      option; else the first six distinct candidates that pass the id test, in order; and when
      none does, the fallback if it passes. Everything else of the member stays in the option. */
  lemma OptionsExact(m: Member, isUuid: string -> bool) returns (at: seq<int>)
    ensures m.computed != [] ==> Options(m, isUuid) == m.computed
    ensures m.computed == [] && m.explicitBarber != "" ==> Options(m, isUuid) == [Choice(m.order, m.explicitBarber, m.start, m.rest)]
    ensures m.computed == [] && m.explicitBarber == "" ==>
      var found := BarbersOf(Options(m, isUuid));
      && (forall i :: 0 <= i < |found| ==> Options(m, isUuid)[i] == Choice(m.order, found[i], m.start, m.rest))
      && (if SomePasses(m.candidates, isUuid) then FirstDistinct(found, m.candidates, isUuid, at)
          else found == if isUuid(m.fallback) then [m.fallback] else [])
  {
    at := FirstSixDistinct(m.candidates, isUuid);
    SomeNewcomer(m.candidates, isUuid);
    if m.computed == [] && m.explicitBarber == "" {
      assert BarbersOf(Options(m, isUuid)) == CandidateIds(m, isUuid);
    }
  }

  function BarbersOf(options: seq<Choice>): seq<string> { seq(|options|, i requires 0 <= i < |options| => options[i].barber) }

  // ------------------------------------------------------------- the claim

  /** Two members at the same barber and start, both stated. */
  predicate Clash(a: Choice, b: Choice) {
    a.barber != "" && a.start != "" && a.barber == b.barber && a.start == b.start
  }

  predicate ConflictFree(selected: seq<Choice>) {
    forall i, j :: 0 <= i < j < |selected| ==> !Clash(selected[i], selected[j])
  }

  function Signature(selected: seq<Choice>): seq<Key> {
    seq(|selected|, i requires 0 <= i < |selected| =>
      Key(selected[i].order, selected[i].barber, selected[i].start))
  }

  /** `v` names one option in each of the first |v| groups. */
  predicate Names(groups: seq<seq<Choice>>, v: seq<int>) {
    |v| <= |groups| && forall i :: 0 <= i < |v| ==> 0 <= v[i] < |groups[i]|
  }

  function Pick(groups: seq<seq<Choice>>, v: seq<int>): seq<Choice>
    requires Names(groups, v)
  {
    seq(|v|, i requires 0 <= i < |v| => groups[i][v[i]])
  }

  predicate AllName(groups: seq<seq<Choice>>, vs: seq<seq<int>>) {
    forall i :: 0 <= i < |vs| ==> Names(groups, vs[i])
  }

  function PickAll(groups: seq<seq<Choice>>, vs: seq<seq<int>>): seq<seq<Choice>>
    requires AllName(groups, vs)
  {
    seq(|vs|, i requires 0 <= i < |vs| => Pick(groups, vs[i]))
  }

  /** A conflict-free combination of one option per group. */
  predicate Combination(groups: seq<seq<Choice>>, v: seq<int>) {
    |v| == |groups| && Names(groups, v) && ConflictFree(Pick(groups, v))
  }

  ghost predicate SameSignature(groups: seq<seq<Choice>>, v: seq<int>, w: seq<int>) {
    Names(groups, v) && Names(groups, w) && Signature(Pick(groups, v)) == Signature(Pick(groups, w))
  }

  ghost predicate LexLess(a: seq<int>, b: seq<int>) {
    |a| == |b| && exists k :: 0 <= k < |a| && a[..k] == b[..k] && a[k] < b[k]
  }

  ghost predicate Ascending(vs: seq<seq<int>>) {
    forall i, j :: 0 <= i < j < |vs| ==> LexLess(vs[i], vs[j])
  }

  /** Some element of `w` has the signature of `v` and does not come after it. */
  ghost predicate Represented(groups: seq<seq<Choice>>, w: seq<seq<int>>, v: seq<int>) {
    exists i :: 0 <= i < |w| && SameSignature(groups, w[i], v) && (w[i] == v || LexLess(w[i], v))
  }

  ghost predicate OnePerSignature(groups: seq<seq<Choice>>, w: seq<seq<int>>) {
    forall i, j :: 0 <= i < j < |w| ==> !SameSignature(groups, w[i], w[j])
  }

  /** The conflict-free combinations, one per signature (the lexicographically least),
      in lexicographic order. */
  ghost predicate IsListing(groups: seq<seq<Choice>>, w: seq<seq<int>>) {
    && (forall i :: 0 <= i < |w| ==> Combination(groups, w[i]))
    && Ascending(w)
    && OnePerSignature(groups, w)
    && forall v :: Combination(groups, v) ==> Represented(groups, w, v)
  }

  // ------------------------------------------------- the order of the search

  lemma LexIrreflexive(a: seq<int>, b: seq<int>)
    requires LexLess(a, b)
    ensures a != b && !LexLess(b, a)
  {
    var k :| 0 <= k < |a| && a[..k] == b[..k] && a[k] < b[k];
    forall m | 0 <= m < |b| ensures b[..m] == a[..m] ==> !(b[m] < a[m]) {
      if m < k {
        assert a[m] == a[..k][m] && b[m] == b[..k][m];
      } else if k < m {
        assert a[..m][k] != b[..m][k];
      }
    }
  }

  /** All ways to complete `prefix` with one option from each group from |prefix| on,
      in the order the search meets them. */
  ghost function Completions(groups: seq<seq<Choice>>, prefix: seq<int>): (r: seq<seq<int>>)
    requires Names(groups, prefix)
    ensures AllName(groups, r)
    decreases |groups| - |prefix|, 1, 0
  {
    if |prefix| == |groups| then [prefix] else Branches(groups, prefix, 0)
  }

  ghost function Branches(groups: seq<seq<Choice>>, prefix: seq<int>, from: nat): (r: seq<seq<int>>)
    requires Names(groups, prefix) && |prefix| < |groups| && from <= |groups[|prefix|]|
    ensures AllName(groups, r)
    decreases |groups| - |prefix|, 0, |groups[|prefix|]| - from
  {
    if from == |groups[|prefix|]| then []
    else Completions(groups, prefix + [from]) + Branches(groups, prefix, from + 1)
  }

  predicate Extends(v: seq<int>, prefix: seq<int>) { |prefix| <= |v| && v[..|prefix|] == prefix }

  lemma {:induction false} CompletionsExtend(groups: seq<seq<Choice>>, prefix: seq<int>)
    requires Names(groups, prefix)
    ensures forall v :: v in Completions(groups, prefix) <==> |v| == |groups| && Names(groups, v) && Extends(v, prefix)
    decreases |groups| - |prefix|, 1, 0
  {
    if |prefix| == |groups| {
      forall v | |v| == |groups| && Extends(v, prefix) ensures v == prefix { assert v[..|prefix|] == v; }
      assert prefix[..|prefix|] == prefix;
    } else {
      BranchesExtend(groups, prefix, 0);
      forall v | |v| == |groups| && Names(groups, v) ensures 0 <= v[|prefix|] {}
    }
  }

  lemma {:induction false} BranchesExtend(groups: seq<seq<Choice>>, prefix: seq<int>, from: nat)
    requires Names(groups, prefix) && |prefix| < |groups| && from <= |groups[|prefix|]|
    ensures forall v :: v in Branches(groups, prefix, from) <==>
              |v| == |groups| && Names(groups, v) && Extends(v, prefix) && from <= v[|prefix|]
    decreases |groups| - |prefix|, 0, |groups[|prefix|]| - from
  {
    if from < |groups[|prefix|]| {
      CompletionsExtend(groups, prefix + [from]);
      BranchesExtend(groups, prefix, from + 1);
      forall v | |v| == |groups| ensures Extends(v, prefix + [from]) <==> Extends(v, prefix) && v[|prefix|] == from {
        assert v[..|prefix| + 1] == v[..|prefix|] + [v[|prefix|]];
      }
    }
  }

  lemma {:induction false} CompletionsAscend(groups: seq<seq<Choice>>, prefix: seq<int>)
    requires Names(groups, prefix)
    ensures Ascending(Completions(groups, prefix))
    decreases |groups| - |prefix|, 1, 0
  {
    if |prefix| < |groups| {
      BranchesAscend(groups, prefix, 0);
    }
  }

  lemma {:induction false} BranchesAscend(groups: seq<seq<Choice>>, prefix: seq<int>, from: nat)
    requires Names(groups, prefix) && |prefix| < |groups| && from <= |groups[|prefix|]|
    ensures Ascending(Branches(groups, prefix, from))
    decreases |groups| - |prefix|, 0, |groups[|prefix|]| - from
  {
    if from < |groups[|prefix|]| {
      CompletionsAscend(groups, prefix + [from]);
      BranchesAscend(groups, prefix, from + 1);
      HeadBeforeRest(groups, prefix, from);
      AscendingAppend(Completions(groups, prefix + [from]), Branches(groups, prefix, from + 1));
    }
  }

  ghost predicate AllBefore(a: seq<seq<int>>, b: seq<seq<int>>) {
    forall v, w :: v in a && w in b ==> LexLess(v, w)
  }

  lemma HeadBeforeRest(groups: seq<seq<Choice>>, prefix: seq<int>, from: nat)
    requires Names(groups, prefix) && |prefix| < |groups| && from < |groups[|prefix|]|
    ensures AllBefore(Completions(groups, prefix + [from]), Branches(groups, prefix, from + 1))
  {
    CompletionsExtend(groups, prefix + [from]);
    BranchesExtend(groups, prefix, from + 1);
    var a, b := Completions(groups, prefix + [from]), Branches(groups, prefix, from + 1);
    forall v, w | v in a && w in b ensures LexLess(v, w) {
      EarlierOption(v, w, prefix, from);
    }
  }

  lemma EarlierOption(v: seq<int>, w: seq<int>, prefix: seq<int>, from: nat)
    requires |v| == |w| > |prefix| && Extends(v, prefix + [from]) && Extends(w, prefix) && from < w[|prefix|]
    ensures LexLess(v, w)
  {
    assert v[..|prefix|] == v[..|prefix| + 1][..|prefix|] == prefix;
    assert v[|prefix|] == v[..|prefix| + 1][|prefix|] == from;
  }

  lemma AscendingAppend(a: seq<seq<int>>, b: seq<seq<int>>)
    requires Ascending(a) && Ascending(b)
    requires AllBefore(a, b)
    ensures Ascending(a + b)
  {
    forall i, j | 0 <= i < j < |a + b| ensures LexLess((a + b)[i], (a + b)[j]) {
      if j < |a| {
        assert LexLess(a[i], a[j]);
      } else if i < |a| {
        assert a[i] in a && b[j - |a|] in b;
      } else {
        assert LexLess(b[i - |a|], b[j - |a|]);
      }
    }
  }

  // ------------------------------------------- first of every signature kept

  ghost predicate Seen(groups: seq<seq<Choice>>, w: seq<seq<int>>, v: seq<int>) {
    exists i :: 0 <= i < |w| && SameSignature(groups, w[i], v)
  }

  ghost function KeptOf(groups: seq<seq<Choice>>, vs: seq<seq<int>>): (w: seq<seq<int>>)
    requires AllName(groups, vs)
    ensures AllName(groups, w)
    ensures forall v :: v in w ==> v in vs
  {
    if vs == [] then []
    else
      var init, v := KeptOf(groups, vs[..|vs| - 1]), vs[|vs| - 1];
      if ConflictFree(Pick(groups, v)) && !Seen(groups, init, v) then init + [v] else init
  }

  lemma {:induction false} KeptSound(groups: seq<seq<Choice>>, vs: seq<seq<int>>)
    requires AllName(groups, vs) && Ascending(vs)
    ensures var w := KeptOf(groups, vs);
      Ascending(w) && OnePerSignature(groups, w) && forall i :: 0 <= i < |w| ==> ConflictFree(Pick(groups, w[i]))
  {
    if vs != [] {
      var n := |vs| - 1;
      var init := KeptOf(groups, vs[..n]);
      KeptSound(groups, vs[..n]);
      forall i | 0 <= i < |init| ensures LexLess(init[i], vs[n]) {
        assert init[i] in vs[..n];
      }
      if KeptOf(groups, vs) != init {
        AscendingAppend(init, [vs[n]]);
        OnePerSignatureSnoc(groups, init, vs[n]);
      }
    }
  }

  lemma OnePerSignatureSnoc(groups: seq<seq<Choice>>, w: seq<seq<int>>, v: seq<int>)
    requires OnePerSignature(groups, w) && !Seen(groups, w, v)
    ensures OnePerSignature(groups, w + [v])
  {
    forall i, j | 0 <= i < j < |w + [v]| ensures !SameSignature(groups, (w + [v])[i], (w + [v])[j]) {
      assert j < |w| ==> !SameSignature(groups, w[i], w[j]);
    }
  }

  lemma {:induction false} KeptComplete(groups: seq<seq<Choice>>, vs: seq<seq<int>>, k: nat)
    requires AllName(groups, vs) && Ascending(vs)
    requires k < |vs| && ConflictFree(Pick(groups, vs[k]))
    ensures Represented(groups, KeptOf(groups, vs), vs[k])
  {
    var n := |vs| - 1;
    if k < n {
      KeptComplete(groups, vs[..n], k);
      RepresentedByMore(groups, KeptOf(groups, vs[..n]), KeptOf(groups, vs), vs[k]);
    } else {
      LastRepresented(groups, vs);
    }
  }

  lemma LastRepresented(groups: seq<seq<Choice>>, vs: seq<seq<int>>)
    requires AllName(groups, vs) && Ascending(vs)
    requires vs != [] && ConflictFree(Pick(groups, vs[|vs| - 1]))
    ensures Represented(groups, KeptOf(groups, vs), vs[|vs| - 1])
  {
    var n := |vs| - 1;
    var init, w := KeptOf(groups, vs[..n]), KeptOf(groups, vs);
    if Seen(groups, init, vs[n]) {
      var i :| 0 <= i < |init| && SameSignature(groups, init[i], vs[n]);
      assert init[i] in vs[..n];
      assert w[i] == init[i];
    } else {
      assert w[|init|] == vs[n];
    }
  }

  lemma RepresentedByMore(groups: seq<seq<Choice>>, init: seq<seq<int>>, w: seq<seq<int>>, v: seq<int>)
    requires init <= w && Represented(groups, init, v)
    ensures Represented(groups, w, v)
  {
    var i :| 0 <= i < |init| && SameSignature(groups, init[i], v) && (init[i] == v || LexLess(init[i], v));
    assert w[i] == init[i];
  }

  /** Keeping the first of every signature in search order gives the listing. */
  lemma KeptIsListing(groups: seq<seq<Choice>>)
    ensures IsListing(groups, KeptOf(groups, Completions(groups, [])))
  {
    var vs := Completions(groups, []);
    var w := KeptOf(groups, vs);
    CompletionsExtend(groups, []);
    CompletionsAscend(groups, []);
    KeptSound(groups, vs);
    forall i | 0 <= i < |w| ensures Combination(groups, w[i]) {
      assert w[i] in vs;
    }
    forall v | Combination(groups, v) ensures Represented(groups, w, v) {
      assert Extends(v, []);
      var k :| 0 <= k < |vs| && vs[k] == v;
      KeptComplete(groups, vs, k);
    }
  }

  lemma Representative(groups: seq<seq<Choice>>, w: seq<seq<int>>, v: seq<int>) returns (i: nat)
    requires Represented(groups, w, v)
    ensures i < |w| && SameSignature(groups, w[i], v) && (w[i] == v || LexLess(w[i], v))
  {
    i :| 0 <= i < |w| && SameSignature(groups, w[i], v) && (w[i] == v || LexLess(w[i], v));
  }

  lemma RepresentativeShared(groups: seq<seq<Choice>>, a: seq<seq<int>>, b: seq<seq<int>>, i: nat)
    requires IsListing(groups, a) && IsListing(groups, b) && i < |a|
    ensures a[i] in b
  {
    var j := Representative(groups, b, a[i]);
    var k := Representative(groups, a, b[j]);
    SameSpot(groups, a, b[j], i, k);
    if b[j] != a[i] {
      LexIrreflexive(b[j], a[i]);
    }
  }

  lemma SameSpot(groups: seq<seq<Choice>>, a: seq<seq<int>>, v: seq<int>, i: nat, k: nat)
    requires OnePerSignature(groups, a) && i < |a| && k < |a|
    requires SameSignature(groups, v, a[i]) && SameSignature(groups, a[k], v)
    ensures i == k
  {
    assert SameSignature(groups, a[k], a[i]) && SameSignature(groups, a[i], a[k]);
  }

  lemma {:induction false} AscendingUnique(a: seq<seq<int>>, b: seq<seq<int>>)
    requires Ascending(a) && Ascending(b) && Within(a, b) && Within(b, a)
    ensures a == b
  {
    assert b != [] ==> b[0] in a;
    assert a != [] ==> a[0] in b;
    if a != [] {
      var m, n := |a| - 1, |b| - 1;
      LastIsGreatest(a, b);
      DropLasts(a, b);
      DropLasts(b, a);
      AscendingUnique(a[..m], b[..n]);
      assert a == a[..m] + [a[m]] && b == b[..n] + [b[n]];
    }
  }

  ghost predicate Within(a: seq<seq<int>>, b: seq<seq<int>>) { forall i :: 0 <= i < |a| ==> a[i] in b }

  lemma DropLasts(a: seq<seq<int>>, b: seq<seq<int>>)
    requires Ascending(a) && a != [] && b != [] && a[|a| - 1] == b[|b| - 1] && Within(a, b)
    ensures Within(a[..|a| - 1], b[..|b| - 1])
  {
    var init, rest := a[..|a| - 1], b[..|b| - 1];
    forall i | 0 <= i < |init| ensures init[i] in rest { DropLastKeeps(a, b, i); }
  }

  lemma LastIsGreatest(a: seq<seq<int>>, b: seq<seq<int>>)
    requires Ascending(a) && Ascending(b) && a != [] && b != []
    requires a[|a| - 1] in b && b[|b| - 1] in a
    ensures a[|a| - 1] == b[|b| - 1]
  {
    var m, n := |a| - 1, |b| - 1;
    var i :| 0 <= i < |a| && a[i] == b[n];
    var j :| 0 <= j < |b| && b[j] == a[m];
    if i < m && j < n {
      LexIrreflexive(a[i], a[m]);
    }
  }

  lemma DropLastKeeps(a: seq<seq<int>>, b: seq<seq<int>>, i: nat)
    requires Ascending(a) && i < |a| - 1 && b != []
    requires a[|a| - 1] == b[|b| - 1] && a[i] in b
    ensures a[i] in b[..|b| - 1]
  {
    var j :| 0 <= j < |b| && b[j] == a[i];
    LexIrreflexive(a[i], a[|a| - 1]);
    assert b[..|b| - 1][j] == a[i];
  }

  /** There is exactly one listing. */
  lemma ListingUnique(groups: seq<seq<Choice>>, a: seq<seq<int>>, b: seq<seq<int>>)
    requires IsListing(groups, a) && IsListing(groups, b)
    ensures a == b
  {
    forall i | 0 <= i < |a| ensures a[i] in b { RepresentativeShared(groups, a, b, i); }
    forall i | 0 <= i < |b| ensures b[i] in a { RepresentativeShared(groups, b, a, i); }
    AscendingUnique(a, b);
  }

  // ------------------------------------------------ the search and its limit

  /** What the search has gathered: the attempts and the signatures met. */
  datatype Found = Found(attempts: seq<seq<Choice>>, seen: set<seq<Key>>)

  function Visit(f: Found, selected: seq<Choice>, max: int): Found {
    if |f.attempts| > max || !ConflictFree(selected) || Signature(selected) in f.seen then f
    else Found(f.attempts + [selected], f.seen + {Signature(selected)})
  }

  function VisitAll(f: Found, combinations: seq<seq<Choice>>, max: int): Found {
    if combinations == [] then f
    else Visit(VisitAll(f, combinations[..|combinations| - 1], max), combinations[|combinations| - 1], max)
  }

  lemma {:induction false} VisitAllAppend(f: Found, a: seq<seq<Choice>>, b: seq<seq<Choice>>, max: int)
    ensures VisitAll(f, a + b, max) == VisitAll(VisitAll(f, a, max), b, max)
  {
    if b == [] {
      assert a + b == a;
    } else {
      VisitAllAppend(f, a, b[..|b| - 1], max);
      assert (a + b)[..|a + b| - 1] == a + b[..|b| - 1];
    }
  }

  lemma {:induction false} FullStaysFull(f: Found, combinations: seq<seq<Choice>>, max: int)
    requires |f.attempts| > max
    ensures VisitAll(f, combinations, max) == f
  {
    if combinations != [] {
      FullStaysFull(f, combinations[..|combinations| - 1], max);
    }
  }

  function Cut<T>(s: seq<T>, n: int): seq<T> {
    if n <= 0 then [] else if n < |s| then s[..n] else s
  }

  ghost function SignaturesOf(list: seq<seq<Choice>>): set<seq<Key>> {
    set i | 0 <= i < |list| :: Signature(list[i])
  }

  /** Stopping early loses nothing: the attempts are the first max + 1 kept combinations. */
  lemma {:induction false} SearchKeeps(groups: seq<seq<Choice>>, vs: seq<seq<int>>, max: int)
    requires AllName(groups, vs)
    ensures var f := VisitAll(Found([], {}), PickAll(groups, vs), max);
      && f.attempts == Cut(PickAll(groups, KeptOf(groups, vs)), max + 1)
      && f.seen == SignaturesOf(f.attempts)
  {
    if vs != [] {
      var n := |vs| - 1;
      var init := KeptOf(groups, vs[..n]);
      var f := VisitAll(Found([], {}), PickAll(groups, vs[..n]), max);
      SearchKeeps(groups, vs[..n], max);
      assert PickAll(groups, vs)[..n] == PickAll(groups, vs[..n]);
      if |f.attempts| <= max {
        SeenIffSignature(groups, init, vs[n]);
        assert PickAll(groups, init + [vs[n]]) == PickAll(groups, init) + [Pick(groups, vs[n])];
        SignaturesSnoc(f.attempts, Pick(groups, vs[n]));
      } else if KeptOf(groups, vs) != init {
        assert PickAll(groups, init + [vs[n]])[..|init|] == PickAll(groups, init);
        assert Cut(PickAll(groups, init + [vs[n]]), max + 1) == Cut(PickAll(groups, init), max + 1);
      }
    }
  }

  lemma SeenIffSignature(groups: seq<seq<Choice>>, w: seq<seq<int>>, v: seq<int>)
    requires AllName(groups, w) && Names(groups, v)
    ensures Seen(groups, w, v) <==> Signature(Pick(groups, v)) in SignaturesOf(PickAll(groups, w))
  {
    var list := PickAll(groups, w);
    if Seen(groups, w, v) {
      var i :| 0 <= i < |w| && SameSignature(groups, w[i], v);
      assert Signature(list[i]) in SignaturesOf(list);
    }
    if Signature(Pick(groups, v)) in SignaturesOf(list) {
      var i :| 0 <= i < |list| && Signature(list[i]) == Signature(Pick(groups, v));
      assert SameSignature(groups, w[i], v);
    }
  }

  lemma SignaturesSnoc(list: seq<seq<Choice>>, c: seq<Choice>)
    ensures SignaturesOf(list + [c]) == SignaturesOf(list) + {Signature(c)}
  {
    forall s | s in SignaturesOf(list) ensures s in SignaturesOf(list + [c]) {
      var i :| 0 <= i < |list| && Signature(list[i]) == s;
      assert (list + [c])[i] == list[i];
    }
    assert (list + [c])[|list|] == c;
  }

  // -------------------------------------------------------------- the search

  /** The loop at a leaf: no stated barber and start is occupied twice. */
  method FreeOfConflicts(selected: seq<Choice>) returns (free: bool)
    ensures free <==> ConflictFree(selected)
  {
    var occupied: set<(string, string)> := {};
    for k := 0 to |selected|
      invariant ConflictFree(selected[..k])
      invariant forall b, s :: (b, s) in occupied <==> exists i :: 0 <= i < k && (selected[i].barber, selected[i].start) == (b, s)
    {
      var barber, start := selected[k].barber, selected[k].start;
      if barber != "" && start != "" && (barber, start) in occupied {
        assert exists i :: 0 <= i < k && Clash(selected[i], selected[k]);
        return false;
      }
      occupied := occupied + {(barber, start)};
    }
    assert selected[..|selected|] == selected;
    return true;
  }

  class AssignmentSearch {
    const groups: seq<seq<Choice>>
    const maxAttempts: int
    var attempts: seq<seq<Choice>>
    var seenAttempts: set<seq<Key>>

    constructor (groups: seq<seq<Choice>>, maxAttempts: int)
      ensures this.groups == groups && this.maxAttempts == maxAttempts
      ensures Gathered() == Found([], {})
    {
      this.groups, this.maxAttempts := groups, maxAttempts;
      attempts, seenAttempts := [], {};
    }

    function Gathered(): Found
      reads this
    {
      Found(attempts, seenAttempts)
    }

    method Walk(index: nat, selected: seq<Choice>, ghost chosen: seq<int>)
      requires Names(groups, chosen) && selected == Pick(groups, chosen) && index == |selected|
      modifies this
      ensures Gathered() == VisitAll(old(Gathered()), Ahead(groups, chosen), maxAttempts)
      decreases |groups| - index, 1
    {
      ghost var before := Gathered();
      if |attempts| > maxAttempts {
        FullStaysFull(before, Ahead(groups, chosen), maxAttempts);
        return;
      }
      if index >= |groups| {
        LeafIsOneVisit(groups, chosen, before, maxAttempts);
        Keep(selected);
        return;
      }
      AheadSplits(groups, chosen);
      TryOptions(index, selected, chosen);
    }

    method TryOptions(index: nat, selected: seq<Choice>, ghost chosen: seq<int>)
      requires Names(groups, chosen) && selected == Pick(groups, chosen) && index == |selected| < |groups|
      modifies this
      ensures Gathered() == VisitAll(old(Gathered()), AheadFrom(groups, chosen, 0), maxAttempts)
      decreases |groups| - index, 0, 1
    {
      AheadSplits(groups, chosen);
      ghost var goal := VisitAll(Gathered(), AheadFrom(groups, chosen, 0), maxAttempts);
      for k := 0 to |groups[index]|
        invariant VisitAll(Gathered(), AheadFrom(groups, chosen, k), maxAttempts) == goal
      {
        TryOption(index, selected, chosen, k);
      }
    }

    method TryOption(index: nat, selected: seq<Choice>, ghost chosen: seq<int>, k: nat)
      requires Names(groups, chosen) && selected == Pick(groups, chosen) && index == |selected| < |groups|
      requires k < |groups[index]|
      modifies this
      ensures VisitAll(Gathered(), AheadFrom(groups, chosen, k + 1), maxAttempts)
           == VisitAll(old(Gathered()), AheadFrom(groups, chosen, k), maxAttempts)
      decreases |groups| - index, 0, 0
    {
      BranchThenRest(groups, chosen, k, Gathered(), maxAttempts);
      PickSnoc(groups, chosen, k);
      Walk(index + 1, selected + [groups[index][k]], chosen + [k]);
    }

    method Keep(selected: seq<Choice>)
      requires |attempts| <= maxAttempts
      modifies this
      ensures Gathered() == Visit(old(Gathered()), selected, maxAttempts)
    {
      var free := FreeOfConflicts(selected);
      if !free || Signature(selected) in seenAttempts {
        return;
      }
      seenAttempts := seenAttempts + {Signature(selected)};
      attempts := attempts + [selected];
    }
  }

  lemma PickSnoc(groups: seq<seq<Choice>>, chosen: seq<int>, k: nat)
    requires Names(groups, chosen) && |chosen| < |groups| && k < |groups[|chosen|]|
    ensures Pick(groups, chosen + [k]) == Pick(groups, chosen) + [groups[|chosen|][k]]
  {
  }

  /** The combinations the search still has to visit, whole and from option `k` on. */
  ghost function Ahead(groups: seq<seq<Choice>>, chosen: seq<int>): seq<seq<Choice>>
    requires Names(groups, chosen)
  {
    PickAll(groups, Completions(groups, chosen))
  }

  ghost function AheadFrom(groups: seq<seq<Choice>>, chosen: seq<int>, k: nat): seq<seq<Choice>>
    requires Names(groups, chosen) && |chosen| < |groups| && k <= |groups[|chosen|]|
  {
    PickAll(groups, Branches(groups, chosen, k))
  }

  lemma AheadSplits(groups: seq<seq<Choice>>, chosen: seq<int>)
    requires Names(groups, chosen) && |chosen| < |groups|
    ensures Ahead(groups, chosen) == AheadFrom(groups, chosen, 0)
    ensures AheadFrom(groups, chosen, |groups[|chosen|]|) == []
  {
  }

  lemma LeafIsOneVisit(groups: seq<seq<Choice>>, chosen: seq<int>, f: Found, max: int)
    requires Names(groups, chosen) && |chosen| == |groups|
    ensures VisitAll(f, Ahead(groups, chosen), max) == Visit(f, Pick(groups, chosen), max)
  {
    var c := Ahead(groups, chosen);
    assert c == [Pick(groups, chosen)] && c[..0] == [];
  }

  lemma BranchThenRest(groups: seq<seq<Choice>>, chosen: seq<int>, k: nat, f: Found, max: int)
    requires Names(groups, chosen) && |chosen| < |groups| && k < |groups[|chosen|]|
    ensures VisitAll(f, AheadFrom(groups, chosen, k), max)
         == VisitAll(VisitAll(f, Ahead(groups, chosen + [k]), max),
                     AheadFrom(groups, chosen, k + 1), max)
  {
    var a, b := Completions(groups, chosen + [k]), Branches(groups, chosen, k + 1);
    assert PickAll(groups, a + b) == PickAll(groups, a) + PickAll(groups, b);
    VisitAllAppend(f, PickAll(groups, a), PickAll(groups, b), max);
  }

  function Groups(members: seq<Member>, isUuid: string -> bool): seq<seq<Choice>> {
    seq(|members|, i requires 0 <= i < |members| => Options(members[i], isUuid))
  }

  /** The answer is the whole listing, or the error exactly when it is longer than the limit. */
  ghost predicate ListsAll(groups: seq<seq<Choice>>, max: int, r: Answer) {
    exists w :: IsListing(groups, w) && r == if |w| <= max then Attempts(PickAll(groups, w)) else TooManyCombinations
  }

  method BuildAssignmentAttempts(members: seq<Member>, isUuid: string -> bool, maxAttempts: int) returns (r: Answer)
    ensures ListsAll(Groups(members, isUuid), maxAttempts, r)
  {
    var groups := Groups(members, isUuid);
    var search := new AssignmentSearch(groups, maxAttempts);
    search.Walk(0, [], []);
    KeptIsListing(groups);
    SearchKeeps(groups, Completions(groups, []), maxAttempts);
    if |search.attempts| > maxAttempts {
      r := TooManyCombinations;
    } else {
      r := Attempts(search.attempts);
    }
  }

  // --------------------------------------------- the answer, told from the options

  /** One option of every group, in order. */
  predicate OnePerGroup(groups: seq<seq<Choice>>, c: seq<Choice>) {
    |c| == |groups| && forall i :: 0 <= i < |c| ==> c[i] in groups[i]
  }

  /** No barber serves two members at one start. */
  predicate NoDoubleBooking(c: seq<Choice>) {
    forall i, j :: 0 <= i < j < |c| && c[i].barber == c[j].barber && c[i].start == c[j].start ==> c[i].barber == "" || c[i].start == ""
  }

  /** Every member has the same place, barber and start in both. */
  predicate SameServing(c: seq<Choice>, d: seq<Choice>) {
    |c| == |d| && forall i :: 0 <= i < |c| ==> c[i].order == d[i].order && c[i].barber == d[i].barber && c[i].start == d[i].start
  }

  lemma {:induction false} IndicesOf(groups: seq<seq<Choice>>, c: seq<Choice>) returns (v: seq<int>)
    requires |c| <= |groups| && forall i :: 0 <= i < |c| ==> c[i] in groups[i]
    ensures |v| == |c| && Names(groups, v) && Pick(groups, v) == c
  {
    v := [];
    if c != [] {
      var n := |c| - 1;
      v := IndicesOf(groups, c[..n]);
      var k :| 0 <= k < |groups[n]| && groups[n][k] == c[n];
      PickSnoc(groups, v, k);
      v := v + [k];
    }
  }

  lemma ConflictsAre(c: seq<Choice>)
    ensures ConflictFree(c) <==> NoDoubleBooking(c)
  {
    if ConflictFree(c) {
      forall i, j | 0 <= i < j < |c| && c[i].barber == c[j].barber && c[i].start == c[j].start
        ensures c[i].barber == "" || c[i].start == ""
      {
        assert !Clash(c[i], c[j]);
      }
    }
  }

  lemma SignaturesAre(c: seq<Choice>, d: seq<Choice>)
    ensures Signature(c) == Signature(d) <==> SameServing(c, d)
  {
    if Signature(c) == Signature(d) {
      assert |Signature(c)| == |c| && |Signature(d)| == |d|;
      forall i | 0 <= i < |c| ensures c[i].order == d[i].order && c[i].barber == d[i].barber && c[i].start == d[i].start {
        assert Signature(c)[i] == Signature(d)[i];
      }
    }
  }

  lemma PickedOnce(groups: seq<seq<Choice>>, v: seq<int>)
    requires Combination(groups, v)
    ensures OnePerGroup(groups, Pick(groups, v)) && NoDoubleBooking(Pick(groups, v))
  {
    ConflictsAre(Pick(groups, v));
  }

  /** The servings: one option per member without double booking, each serving once, none missing. */
  ghost predicate AllServings(groups: seq<seq<Choice>>, all: seq<seq<Choice>>) {
    && (forall k :: 0 <= k < |all| ==> OnePerGroup(groups, all[k]) && NoDoubleBooking(all[k]))
    && (forall k, l :: 0 <= k < l < |all| ==> !SameServing(all[k], all[l]))
    && forall c :: OnePerGroup(groups, c) && NoDoubleBooking(c) ==> exists k :: 0 <= k < |all| && SameServing(all[k], c)
  }

  lemma ListingServes(groups: seq<seq<Choice>>, w: seq<seq<int>>)
    requires IsListing(groups, w)
    ensures AllName(groups, w) && AllServings(groups, PickAll(groups, w))
  {
    var all := PickAll(groups, w);
    forall k | 0 <= k < |all| ensures OnePerGroup(groups, all[k]) && NoDoubleBooking(all[k]) { PickedOnce(groups, w[k]); }
    forall k, l | 0 <= k < l < |all| ensures !SameServing(all[k], all[l]) {
      assert !SameSignature(groups, w[k], w[l]);
      SignaturesAre(all[k], all[l]);
    }
    forall c | OnePerGroup(groups, c) && NoDoubleBooking(c) ensures exists k :: 0 <= k < |all| && SameServing(all[k], c) {
      var v := IndicesOf(groups, c);
      ConflictsAre(c);
      var k := Representative(groups, w, v);
      SignaturesAre(all[k], c);
    }
  }

  /** The answer is all servings, or the error exactly when they are more than the limit. */
  lemma AnswerExact(groups: seq<seq<Choice>>, max: int, r: Answer) returns (all: seq<seq<Choice>>)
    requires ListsAll(groups, max, r)
    ensures AllServings(groups, all) && r == if |all| <= max then Attempts(all) else TooManyCombinations
  {
    var w :| IsListing(groups, w) && r == if |w| <= max then Attempts(PickAll(groups, w)) else TooManyCombinations;
    ListingServes(groups, w);
    all := PickAll(groups, w);
  }

  /** The answer is determined by the option groups and the limit. */
  lemma AnswerUnique(groups: seq<seq<Choice>>, max: int, r: Answer, s: Answer)
    requires ListsAll(groups, max, r) && ListsAll(groups, max, s)
    ensures r == s
  {
    var w :| IsListing(groups, w) && r == if |w| <= max then Attempts(PickAll(groups, w)) else TooManyCombinations;
    var x :| IsListing(groups, x) && s == if |x| <= max then Attempts(PickAll(groups, x)) else TooManyCombinations;
    ListingUnique(groups, w, x);
  }
}
