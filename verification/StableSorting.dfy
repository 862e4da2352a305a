/**
  Python's `list.sort` and JavaScript's `Array.prototype.sort` are both stable.
  Every component that orders a list relies on that, so stable sorting is defined
  here once, by insertion, and then characterised: `StableSortUnique` says that no
  other sequence is sorted and keeps tied elements in their original order.
*/
module StableSorting {

  ghost predicate TotalPreorder<T(!new)>(le: (T, T) -> bool) {
    && (forall a, b :: le(a, b) || le(b, a))
    && (forall a, b, c :: le(a, b) && le(b, c) ==> le(a, c))
  }

  ghost predicate Sorted<T>(s: seq<T>, le: (T, T) -> bool) {
    forall i, j :: 0 <= i < j < |s| ==> le(s[i], s[j])
  }

  function Insert<T>(x: T, s: seq<T>, le: (T, T) -> bool): seq<T> {
    if s == [] then [x]
    else if le(x, s[0]) then [x] + s
    else [s[0]] + Insert(x, s[1..], le)
  }

  function StableSort<T>(s: seq<T>, le: (T, T) -> bool): seq<T> {
    if s == [] then [] else Insert(s[0], StableSort(s[1..], le), le)
  }

  /** The elements tied with `x`, in the order in which they occur. */
  function Ties<T>(s: seq<T>, x: T, le: (T, T) -> bool): seq<T> {
    if s == [] then []
    else (if le(x, s[0]) && le(s[0], x) then [s[0]] else []) + Ties(s[1..], x, le)
  }

  lemma {:induction false} InsertPermutes<T>(x: T, s: seq<T>, le: (T, T) -> bool)
    ensures multiset(Insert(x, s, le)) == multiset(s) + multiset{x}
    ensures |Insert(x, s, le)| == |s| + 1
  {
    if s == [] || le(x, s[0]) {
    } else {
      InsertPermutes(x, s[1..], le);
      assert s == [s[0]] + s[1..];
    }
  }

  lemma {:induction false} SortPermutes<T>(s: seq<T>, le: (T, T) -> bool)
    ensures multiset(StableSort(s, le)) == multiset(s)
    ensures |StableSort(s, le)| == |s|
  {
    if s == [] {
    } else {
      SortPermutes(s[1..], le);
      InsertPermutes(s[0], StableSort(s[1..], le), le);
      assert s == [s[0]] + s[1..];
    }
  }

  lemma SameElements<T(!new)>(s: seq<T>, t: seq<T>)
    requires multiset(s) == multiset(t)
    ensures forall x :: x in s <==> x in t
  {
    forall x ensures x in s <==> x in t {
      assert x in s <==> x in multiset(s);
      assert x in t <==> x in multiset(t);
    }
  }

  lemma {:induction false} InsertSorts<T(!new)>(x: T, s: seq<T>, le: (T, T) -> bool)
    requires TotalPreorder(le) && Sorted(s, le)
    ensures Sorted(Insert(x, s, le), le)
  {
    if s == [] {
    } else if le(x, s[0]) {
      forall k | 0 <= k < |s| ensures le(x, s[k]) {
        assert le(s[0], s[k]) || k == 0;
      }
    } else {
      InsertSorts(x, s[1..], le);
      var rest := Insert(x, s[1..], le);
      InsertPermutes(x, s[1..], le);
      forall k | 0 <= k < |rest| ensures le(s[0], rest[k]) {
        assert rest[k] in multiset(rest);
        assert rest[k] == x || rest[k] in s[1..];
      }
    }
  }

  lemma {:induction false} SortSorts<T(!new)>(s: seq<T>, le: (T, T) -> bool)
    requires TotalPreorder(le)
    ensures Sorted(StableSort(s, le), le)
  {
    if s == [] {
    } else {
      SortSorts(s[1..], le);
      InsertSorts(s[0], StableSort(s[1..], le), le);
    }
  }

  lemma TiesCons<T>(x: T, s: seq<T>, y: T, le: (T, T) -> bool)
    ensures Ties([x] + s, y, le) == (if le(y, x) && le(x, y) then [x] else []) + Ties(s, y, le)
  {
    assert ([x] + s)[1..] == s;
  }

  lemma {:induction false} InsertTies<T(!new)>(x: T, s: seq<T>, y: T, le: (T, T) -> bool)
    requires TotalPreorder(le)
    ensures Ties(Insert(x, s, le), y, le) == Ties([x] + s, y, le)
  {
    TiesCons(x, s, y, le);
    if s == [] || le(x, s[0]) {
    } else {
      InsertTies(x, s[1..], y, le);
      TiesCons(x, s[1..], y, le);
      TiesCons(s[0], Insert(x, s[1..], le), y, le);
      assert !(le(x, y) && le(y, s[0]));
    }
  }

  /** Stability: tied elements keep their order. */
  lemma {:induction false} SortIsStable<T(!new)>(s: seq<T>, y: T, le: (T, T) -> bool)
    requires TotalPreorder(le)
    ensures Ties(StableSort(s, le), y, le) == Ties(s, y, le)
  {
    if s == [] {
    } else {
      SortIsStable(s[1..], y, le);
      InsertTies(s[0], StableSort(s[1..], le), y, le);
      TiesCons(s[0], StableSort(s[1..], le), y, le);
    }
  }

  lemma {:induction false} TiesMember<T>(s: seq<T>, x: T, le: (T, T) -> bool)
    ensures Ties(s, x, le) != [] ==> Ties(s, x, le)[0] in s && le(x, Ties(s, x, le)[0]) && le(Ties(s, x, le)[0], x)
    ensures Ties(s, x, le) == [] ==> forall y :: y in s ==> !(le(x, y) && le(y, x))
  {
    if s == [] {
    } else {
      TiesMember(s[1..], x, le);
    }
  }

  lemma OwnTie<T(!new)>(s: seq<T>, le: (T, T) -> bool)
    requires TotalPreorder(le) && s != []
    ensures Ties(s, s[0], le) == [s[0]] + Ties(s[1..], s[0], le)
  {
    assert le(s[0], s[0]);
  }

  /** A sorted sequence is determined by its tie groups. */
  lemma {:induction false} SortedDetermined<T(!new)>(r: seq<T>, t: seq<T>, le: (T, T) -> bool)
    requires TotalPreorder(le) && Sorted(r, le) && Sorted(t, le)
    requires forall x :: Ties(r, x, le) == Ties(t, x, le)
    ensures r == t
  {
    if r == [] {
      if t != [] { OwnTie(t, le); }
    } else {
      var x := r[0];
      OwnTie(r, le);
      TiesMember(t, x, le);
      var y := t[0];
      OwnTie(t, le);
      TiesMember(r, y, le);
      assert le(y, x) && le(x, y);
      assert Ties(t, x, le)[0] == y;
      forall z ensures Ties(r[1..], z, le) == Ties(t[1..], z, le) {
        assert Ties(r, z, le) == Ties(t, z, le);
        var one := if le(z, x) && le(x, z) then [x] else [];
        assert Ties(r, z, le)[|one|..] == Ties(r[1..], z, le);
        assert Ties(t, z, le)[|one|..] == Ties(t[1..], z, le);
      }
      SortedDetermined(r[1..], t[1..], le);
      assert r == [x] + r[1..] && t == [y] + t[1..];
    }
  }

  ghost predicate SameTies<T(!new)>(r: seq<T>, s: seq<T>, le: (T, T) -> bool) {
    forall x :: Ties(r, x, le) == Ties(s, x, le)
  }

  /** Sorted and order-preserving on ties: only one sequence is both. */
  lemma StableSortUnique<T(!new)>(s: seq<T>, r: seq<T>, le: (T, T) -> bool)
    requires TotalPreorder(le)
    ensures r == StableSort(s, le) <==> Sorted(r, le) && SameTies(r, s, le)
  {
    SortSorts(s, le);
    var t := StableSort(s, le);
    forall x ensures Ties(t, x, le) == Ties(s, x, le) { SortIsStable(s, x, le); }
    assert SameTies(t, s, le);
    if Sorted(r, le) && SameTies(r, s, le) {
      SortedDetermined(r, t, le);
    }
  }

  ghost predicate AllBelow<T(!new)>(a: seq<T>, b: seq<T>, le: (T, T) -> bool) {
    forall i, j :: 0 <= i < |a| && 0 <= j < |b| ==> le(a[i], b[j])
  }

  lemma BelowSorted<T(!new)>(a: seq<T>, b: seq<T>, le: (T, T) -> bool)
    requires AllBelow(a, b, le)
    ensures AllBelow(a, StableSort(b, le), le)
  {
    var sb := StableSort(b, le);
    SortPermutes(b, le);
    SameElements(b, sb);
    forall i, j | 0 <= i < |a| && 0 <= j < |sb| ensures le(a[i], sb[j]) {
      assert sb[j] in b;
      var k :| 0 <= k < |b| && b[k] == sb[j];
    }
  }

  /** Sorting what follows a sorted prefix that is already below it leaves the prefix alone. */
  lemma {:induction false} SortAfterPrefix<T(!new)>(a: seq<T>, b: seq<T>, le: (T, T) -> bool)
    requires Sorted(a, le) && AllBelow(a, b, le)
    ensures StableSort(a + b, le) == a + StableSort(b, le)
  {
    var sb := StableSort(b, le);
    if a == [] {
      assert a + b == b && a + sb == sb;
    } else {
      var rest := a[1..] + sb;
      assert StableSort((a + b)[1..], le) == rest by {
        assert (a + b)[1..] == a[1..] + b;
        SortAfterPrefix(a[1..], b, le);
      }
      assert rest != [] ==> le(a[0], rest[0]) by {
        BelowSorted(a, b, le);
        if |a| > 1 { assert rest[0] == a[1]; }
      }
      assert [a[0]] + rest == a + sb;
    }
  }

  /** Re-sorting a sorted list whose tail was replaced gives the list back exactly when the
      replacement sorts to the old tail. */
  lemma ResortIff<T(!new)>(a: seq<T>, tail: seq<T>, extra: seq<T>, le: (T, T) -> bool)
    requires Sorted(a + tail, le)
    ensures StableSort(a + extra, le) == a + tail <==> StableSort(extra, le) == tail
  {
    SortPermutes(extra, le);
    SortPermutes(a + extra, le);
    if StableSort(a + extra, le) == a + tail || StableSort(extra, le) == tail {
      assert multiset(extra) == multiset(tail) by {
        if StableSort(a + extra, le) == a + tail {
          assert multiset(a) + multiset(extra) == multiset(a) + multiset(tail);
          assert multiset(extra) == (multiset(a) + multiset(extra)) - multiset(a);
          assert multiset(tail) == (multiset(a) + multiset(tail)) - multiset(a);
        }
      }
      BelowTail(a, tail, extra, le);
      assert Sorted(a, le) by { assert forall i :: 0 <= i < |a| ==> a[i] == (a + tail)[i]; }
      SortAfterPrefix(a, extra, le);
      assert (a + StableSort(extra, le))[|a|..] == StableSort(extra, le) && (a + tail)[|a|..] == tail;
    }
  }

  lemma BelowTail<T(!new)>(a: seq<T>, tail: seq<T>, extra: seq<T>, le: (T, T) -> bool)
    requires Sorted(a + tail, le) && multiset(extra) == multiset(tail)
    ensures AllBelow(a, extra, le)
  {
    SameElements(extra, tail);
    forall i, j | 0 <= i < |a| && 0 <= j < |extra| ensures le(a[i], extra[j]) {
      assert extra[j] in tail;
      var k :| 0 <= k < |tail| && tail[k] == extra[j];
      assert (a + tail)[i] == a[i] && (a + tail)[|a| + k] == extra[j];
    }
  }

  // ---------------------------------------------------------------------------
  // Whether a stable sort meets another order
  // ---------------------------------------------------------------------------

  /** Elements that `le` distinguishes are already where `r` wants them. */
  ghost predicate Agrees<T(!new)>(s: seq<T>, le: (T, T) -> bool, r: (T, T) -> bool) {
    forall x, y :: x in s && y in s && le(x, y) && !le(y, x) ==> r(x, y)
  }

  /** Elements that `le` does not distinguish stand in the order of `r` to begin with. */
  ghost predicate TiesMeet<T(!new)>(s: seq<T>, le: (T, T) -> bool, r: (T, T) -> bool) {
    forall t :: Sorted(Ties(s, t, le), r)
  }

  lemma {:induction false} TiesAreMembers<T(!new)>(s: seq<T>, t: T, le: (T, T) -> bool)
    ensures forall x :: x in Ties(s, t, le) <==> x in s && le(t, x) && le(x, t)
  {
    if s == [] {
    } else {
      TiesAreMembers(s[1..], t, le);
      assert s == [s[0]] + s[1..];
    }
  }

  lemma {:induction false} TiesOfSorted<T(!new)>(s: seq<T>, t: T, le: (T, T) -> bool, r: (T, T) -> bool)
    requires Sorted(s, r)
    ensures Sorted(Ties(s, t, le), r)
  {
    if s == [] {
    } else {
      TiesOfSorted(s[1..], t, le, r);
      TiesAreMembers(s[1..], t, le);
      var rest := Ties(s[1..], t, le);
      forall k | 0 <= k < |rest| ensures r(s[0], rest[k]) {
        assert rest[k] in s[1..];
        var i :| 0 <= i < |s[1..]| && s[1..][i] == rest[k];
        assert s[i + 1] == rest[k];
      }
    }
  }

  /** Two tied elements meet in their tie group in the order in which they occur. */
  lemma {:induction false} TiedPairMeets<T(!new)>(s: seq<T>, i: nat, j: nat, t: T, le: (T, T) -> bool, r: (T, T) -> bool)
    requires i < j < |s| && Sorted(Ties(s, t, le), r)
    requires le(t, s[i]) && le(s[i], t) && le(t, s[j]) && le(s[j], t)
    ensures r(s[i], s[j])
  {
    var rest := Ties(s[1..], t, le);
    if i == 0 {
      TiesAreMembers(s[1..], t, le);
      assert s[j] == s[1..][j - 1] && s[j] in rest;
      var k :| 0 <= k < |rest| && rest[k] == s[j];
      assert Ties(s, t, le)[0] == s[0] && Ties(s, t, le)[k + 1] == s[j];
    } else {
      var one := |Ties(s, t, le)| - |rest|;
      assert forall k :: 0 <= k < |rest| ==> rest[k] == Ties(s, t, le)[one + k];
      TiedPairMeets(s[1..], i - 1, j - 1, t, le, r);
    }
  }

  /** Sorting by `le` yields an order that `r` accepts exactly when `r` agrees with every
      distinction that `le` makes and accepts the given order of the elements it ties. */
  lemma SortMeetsIff<T(!new)>(s: seq<T>, le: (T, T) -> bool, r: (T, T) -> bool)
    requires TotalPreorder(le)
    ensures Sorted(StableSort(s, le), r) <==> Agrees(s, le, r) && TiesMeet(s, le, r)
  {
    var m := StableSort(s, le);
    SortSorts(s, le);
    SortPermutes(s, le);
    SameElements(s, m);
    forall t ensures Ties(m, t, le) == Ties(s, t, le) { SortIsStable(s, t, le); }
    if Sorted(m, r) {
      SortedAgrees(s, m, le, r);
      forall t ensures Sorted(Ties(s, t, le), r) {
        TiesOfSorted(m, t, le, r);
        assert Ties(m, t, le) == Ties(s, t, le);
      }
    }
    if Agrees(s, le, r) && TiesMeet(s, le, r) {
      forall i, j | 0 <= i < j < |m| ensures r(m[i], m[j]) {
        assert m[i] in s && m[j] in s && le(m[i], m[j]) && le(m[i], m[i]);
        if le(m[j], m[i]) {
          assert Sorted(Ties(s, m[i], le), r) && Ties(m, m[i], le) == Ties(s, m[i], le);
          TiedPairMeets(m, i, j, m[i], le, r);
        }
      }
    }
  }

  lemma SortedAgrees<T(!new)>(s: seq<T>, m: seq<T>, le: (T, T) -> bool, r: (T, T) -> bool)
    requires Sorted(m, le) && Sorted(m, r) && forall x :: x in s ==> x in m
    ensures Agrees(s, le, r)
  {
    forall x, y | x in s && y in s && le(x, y) && !le(y, x) ensures r(x, y) {
      var i :| 0 <= i < |m| && m[i] == x;
      var j :| 0 <= j < |m| && m[j] == y;
      if j < i { assert le(m[j], m[i]); }
    }
  }

  // ---------------------------------------------------------------------------
  // Where each element goes
  // ---------------------------------------------------------------------------

  /** How many elements of `s` are at most `x`. */
  function AtMost<T>(s: seq<T>, x: T, le: (T, T) -> bool): nat {
    if s == [] then 0 else (if le(s[0], x) then 1 else 0) + AtMost(s[1..], x, le)
  }

  /** How many elements of `s` are below `x`. */
  function Below<T>(s: seq<T>, x: T, le: (T, T) -> bool): nat {
    if s == [] then 0 else (if le(x, s[0]) then 0 else 1) + Below(s[1..], x, le)
  }

  /** The place of `s[i]` after sorting: whatever is below it goes before it, and so does whatever is
      tied with it and was before it. */
  function Place<T>(s: seq<T>, i: nat, le: (T, T) -> bool): nat
    requires i < |s|
  {
    AtMost(s[..i], s[i], le) + Below(s[i + 1..], s[i], le)
  }

  lemma {:induction false} NoneBelow<T(!new)>(s: seq<T>, x: T, le: (T, T) -> bool)
    requires forall y :: y in s ==> le(x, y)
    ensures Below(s, x, le) == 0
  {
    if s == [] {
    } else {
      NoneBelow(s[1..], x, le);
    }
  }

  /** Insertion puts `x` after everything below it. */
  lemma {:induction false} InsertPlace<T(!new)>(x: T, s: seq<T>, le: (T, T) -> bool)
    requires TotalPreorder(le) && Sorted(s, le)
    ensures var p := Below(s, x, le);
      && p <= |s| && Insert(x, s, le) == s[..p] + [x] + s[p..]
      && forall k :: 0 <= k < |s| ==> (le(x, s[k]) <==> k >= p)
  {
    if s == [] {
    } else if le(x, s[0]) {
      forall y | y in s ensures le(x, y) {
        var k :| 0 <= k < |s| && s[k] == y;
        assert le(s[0], s[k]) || k == 0;
      }
      NoneBelow(s, x, le);
      assert Insert(x, s, le) == s[..0] + [x] + s[0..];
    } else {
      InsertPlace(x, s[1..], le);
      var q := Below(s[1..], x, le);
      assert [s[0]] + (s[1..][..q] + [x] + s[1..][q..]) == s[..q + 1] + [x] + s[q + 1..];
    }
  }

  lemma {:induction false} InsertCounts<T>(y: T, s: seq<T>, x: T, le: (T, T) -> bool)
    ensures Below(Insert(y, s, le), x, le) == Below(s, x, le) + if le(x, y) then 0 else 1
  {
    if s == [] || le(y, s[0]) {
      assert s != [] ==> ([y] + s)[1..] == s;
    } else {
      InsertCounts(y, s[1..], x, le);
    }
  }

  lemma {:induction false} SortCounts<T>(s: seq<T>, x: T, le: (T, T) -> bool)
    ensures Below(StableSort(s, le), x, le) == Below(s, x, le)
  {
    if s == [] {
    } else {
      SortCounts(s[1..], x, le);
      InsertCounts(s[0], StableSort(s[1..], le), x, le);
    }
  }

  /** The head is one more before every element that it is at most. */
  lemma PlaceInTail<T>(s: seq<T>, i: nat, le: (T, T) -> bool)
    requires 0 < i < |s|
    ensures Place(s, i, le) == Place(s[1..], i - 1, le) + if le(s[0], s[i]) then 1 else 0
  {
    assert s[..i][1..] == s[1..][..i - 1];
    assert s[1..][i..] == s[i + 1..];
  }

  /** Sorting after the tail is sorted: everything from the place of the head on moves up by one. */
  lemma SortedTail<T(!new)>(s: seq<T>, le: (T, T) -> bool)
    requires TotalPreorder(le) && s != []
    ensures var t, p := StableSort(s[1..], le), Place(s, 0, le);
      && p <= |t| == |s| - 1 && StableSort(s, le) == t[..p] + [s[0]] + t[p..]
      && forall k :: 0 <= k < |t| ==> (le(s[0], t[k]) <==> k >= p)
  {
    SortSorts(s[1..], le);
    SortPermutes(s[1..], le);
    InsertPlace(s[0], StableSort(s[1..], le), le);
    SortCounts(s[1..], s[0], le);
    assert s[..0] == [];
  }

  /** Every element is found at its place. */
  lemma {:induction false} SortPlaces<T(!new)>(s: seq<T>, i: nat, le: (T, T) -> bool)
    requires TotalPreorder(le) && i < |s|
    ensures |StableSort(s, le)| == |s| && Place(s, i, le) < |s| && StableSort(s, le)[Place(s, i, le)] == s[i]
  {
    SortedTail(s, le);
    if i == 0 {
    } else {
      SortPlaces(s[1..], i - 1, le);
      PlaceInTail(s, i, le);
    }
  }

  /** And every place is that of some element. */
  lemma {:induction false} PlaceIsTaken<T(!new)>(s: seq<T>, k: nat, le: (T, T) -> bool) returns (i: nat)
    requires TotalPreorder(le) && k < |s|
    ensures i < |s| && Place(s, i, le) == k
  {
    SortedTail(s, le);
    var p := Place(s, 0, le);
    if k == p {
      i := 0;
    } else {
      var j := PlaceIsTaken(s[1..], if k < p then k else k - 1, le);
      SortPlaces(s[1..], j, le);
      PlaceInTail(s, j + 1, le);
      i := j + 1;
    }
  }
}
