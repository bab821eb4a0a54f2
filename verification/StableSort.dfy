/** A stable sort: the order `ge` decides, and equals stay in the order they came. */
module StableSort {
  import opened Common

  ghost predicate Ordering<T(!new)>(ge: (T, T) -> bool) {
    (forall a, b :: ge(a, b) || ge(b, a)) && (forall a, b, c :: ge(a, b) && ge(b, c) ==> ge(a, c))
  }

  /** Puts one more element behind all that come before it or are its equals. */
  function Place<T>(x: T, s: seq<T>, ge: (T, T) -> bool): seq<T> {
    if s == [] then [x]
    else if ge(s[0], x) then [s[0]] + Place(x, s[1..], ge)
    else [x] + s
  }

  function Sort<T>(s: seq<T>, ge: (T, T) -> bool): seq<T> {
    if s == [] then [] else Place(s[|s| - 1], Sort(s[..|s| - 1], ge), ge)
  }

  ghost predicate Falls<T>(s: seq<T>, ge: (T, T) -> bool) {
    forall i :: 0 < i < |s| ==> ge(s[i - 1], s[i])
  }

  lemma {:induction false} FallsAll<T(!new)>(s: seq<T>, ge: (T, T) -> bool, i: nat, j: nat)
    requires Ordering(ge) && Falls(s, ge) && i < j < |s|
    ensures ge(s[i], s[j])
    decreases j
  {
    if i < j - 1 {
      FallsAll(s, ge, i, j - 1);
      assert ge(s[j - 1], s[j]);
    }
  }

  function Insert<T>(s: seq<T>, p: nat, x: T): seq<T>
    requires p <= |s|
  {
    s[..p] + [x] + s[p..]
  }

  lemma InsertAt<T>(s: seq<T>, p: nat, x: T, i: nat)
    requires p <= |s| && i <= |s|
    ensures |Insert(s, p, x)| == |s| + 1
    ensures Insert(s, p, x)[i] == if i < p then s[i] else if i == p then x else s[i - 1]
  {
  }

  /** The element goes behind everything it does not come before. */
  lemma {:induction false} PlaceAt<T(!new)>(x: T, s: seq<T>, ge: (T, T) -> bool) returns (p: nat)
    requires Ordering(ge) && Falls(s, ge)
    ensures p <= |s| && Place(x, s, ge) == Insert(s, p, x)
    ensures (forall i :: 0 <= i < p ==> ge(s[i], x)) && forall i :: p <= i < |s| ==> !ge(s[i], x)
    decreases s
  {
    if s == [] {
      p := 0;
    } else if ge(s[0], x) {
      HeadAndTail(s);
      var q := PlaceAt(x, s[1..], ge);
      p := q + 1;
      assert s[..p] == [s[0]] + s[1..][..q] && s[p..] == s[1..][q..];
      forall i | 0 <= i < p ensures ge(s[i], x) { if i > 0 { assert s[i] == s[1..][i - 1]; } }
      forall i | p <= i < |s| ensures !ge(s[i], x) { assert s[i] == s[1..][i - 1]; }
    } else {
      p := 0;
      forall i | 0 <= i < |s| ensures !ge(s[i], x) { if i > 0 { FallsAll(s, ge, 0, i); } }
    }
  }

  lemma {:induction false} PlaceFalls<T(!new)>(x: T, s: seq<T>, ge: (T, T) -> bool)
    requires Ordering(ge) && Falls(s, ge)
    ensures Falls(Place(x, s, ge), ge) && multiset(Place(x, s, ge)) == multiset(s) + multiset{x}
  {
    var p := PlaceAt(x, s, ge);
    var r := Insert(s, p, x);
    assert s == s[..p] + s[p..];
    forall i | 0 < i < |r| ensures ge(r[i - 1], r[i]) {
      InsertAt(s, p, x, i - 1);
      InsertAt(s, p, x, i);
    }
  }

  /** In order, and the same elements. */
  lemma {:induction false} SortSorts<T(!new)>(s: seq<T>, ge: (T, T) -> bool)
    requires Ordering(ge)
    ensures Falls(Sort(s, ge), ge) && multiset(Sort(s, ge)) == multiset(s)
    decreases s
  {
    if s != [] {
      var k := |s| - 1;
      SortSorts(s[..k], ge);
      PlaceFalls(s[k], Sort(s[..k], ge), ge);
      InitAndLast(s);
    }
  }

  lemma {:induction false} PlaceAtEnd<T>(x: T, s: seq<T>, ge: (T, T) -> bool)
    requires forall i :: 0 <= i < |s| ==> ge(s[i], x)
    ensures Place(x, s, ge) == s + [x]
    decreases s
  {
    if s != [] {
      PlaceAtEnd(x, s[1..], ge);
      HeadAndTail(s);
    }
  }

  /** Sorting what is in order changes nothing. */
  lemma {:induction false} SortKeeps<T(!new)>(s: seq<T>, ge: (T, T) -> bool)
    requires Ordering(ge) && Falls(s, ge)
    ensures Sort(s, ge) == s
    decreases s
  {
    if s != [] {
      var k := |s| - 1;
      var init := s[..k];
      SortKeeps(init, ge);
      forall i | 0 <= i < |init| ensures ge(init[i], s[k]) { FallsAll(s, ge, i, k); }
      PlaceAtEnd(s[k], init, ge);
      assert s == init + [s[k]];
    }
  }

  /** Every element against every later one, and which elements there are. */
  lemma {:induction false} SortInOrder<T(!new)>(s: seq<T>, ge: (T, T) -> bool)
    requires Ordering(ge)
    ensures forall i, j :: 0 <= i < j < |s| ==> |Sort(s, ge)| == |s| && ge(Sort(s, ge)[i], Sort(s, ge)[j])
    ensures |Sort(s, ge)| == |s| && forall x :: x in Sort(s, ge) <==> x in s
  {
    SortSorts(s, ge);
    var r := Sort(s, ge);
    assert |multiset(r)| == |r| && |multiset(s)| == |s|;
    forall x ensures x in r <==> x in s { assert x in multiset(r) <==> x in multiset(s); }
    forall i, j | 0 <= i < j < |s| ensures ge(r[i], r[j]) { FallsAll(r, ge, i, j); }
  }

  // ---------- Where each element comes from ----------

  /** `at[i]` is the place in `s` of what stands at `i` in `r`; equals keep their order. */
  ghost predicate FromPlaces<T>(at: seq<nat>, s: seq<T>, r: seq<T>, ge: (T, T) -> bool) {
    && |at| == |r| == |s|
    && (forall i :: 0 <= i < |at| ==> at[i] < |s| && r[i] == s[at[i]])
    && (forall i, j :: 0 <= i < j < |at| ==> at[i] != at[j])
    && (forall i, j :: 0 <= i < j < |at| && ge(r[j], r[i]) ==> at[i] < at[j])
  }

  lemma PlacesMore<T(!new)>(at: seq<nat>, s: seq<T>, r: seq<T>, x: T, p: nat, ge: (T, T) -> bool)
    requires FromPlaces(at, s, r, ge) && p <= |r|
    requires forall i :: p <= i < |r| ==> !ge(r[i], x)
    ensures FromPlaces(Insert(at, p, |s|), s + [x], Insert(r, p, x), ge)
  {
    var more, q := Insert(at, p, |s|), Insert(r, p, x);
    forall i: nat | i <= |s|
      ensures more[i] <= |s| && q[i] == (s + [x])[more[i]] && (more[i] == |s| <==> i == p)
    {
      InsertAt(at, p, |s|, i);
      InsertAt(r, p, x, i);
    }
    forall i: nat, j: nat | i < j <= |s|
      ensures more[i] != more[j] && (ge(q[j], q[i]) ==> more[i] < more[j])
    { PlacesMoreTwo(at, s, r, x, p, ge, i, j); }
  }

  lemma PlacesMoreTwo<T(!new)>(at: seq<nat>, s: seq<T>, r: seq<T>, x: T, p: nat, ge: (T, T) -> bool, i: nat, j: nat)
    requires FromPlaces(at, s, r, ge) && p <= |r| && i < j <= |s|
    requires forall i :: p <= i < |r| ==> !ge(r[i], x)
    ensures var more, q := Insert(at, p, |s|), Insert(r, p, x);
            more[i] != more[j] && (ge(q[j], q[i]) ==> more[i] < more[j])
  {
    InsertAt(at, p, |s|, i);
    InsertAt(r, p, x, i);
    InsertAt(at, p, |s|, j);
    InsertAt(r, p, x, j);
  }

  /** Sorting rearranges, and equals keep their order. */
  lemma {:induction false} SortPlaces<T(!new)>(s: seq<T>, ge: (T, T) -> bool) returns (at: seq<nat>)
    requires Ordering(ge)
    ensures FromPlaces(at, s, Sort(s, ge), ge)
    decreases s
  {
    if s == [] {
      at := [];
    } else {
      var k := |s| - 1;
      var before := SortPlaces(s[..k], ge);
      SortSorts(s[..k], ge);
      var p := PlaceAt(s[k], Sort(s[..k], ge), ge);
      InitAndLast(s);
      PlacesMore(before, s[..k], Sort(s[..k], ge), s[k], p, ge);
      at := Insert(before, p, k);
    }
  }
}
