/** The stable sort of Go's sort.SliceStable and of JavaScript's Array.prototype.sort, as a
    function of the contents, with the facts its callers rely on. */
module Sorting {

  /** What a comparison must satisfy for sorting to be meaningful. */
  ghost predicate StrictWeak<T(!new)>(less: (T, T) -> bool) {
    && (forall a, b :: less(a, b) ==> !less(b, a))
    && (forall a, b, c :: less(a, c) ==> less(a, b) || less(b, c))
  }

  ghost predicate Sorted<T>(less: (T, T) -> bool, s: seq<T>) {
    forall i, j :: 0 <= i < j < |s| ==> !less(s[j], s[i])
  }

  ghost predicate StrictlySorted<T>(less: (T, T) -> bool, s: seq<T>) {
    forall i, j :: 0 <= i < j < |s| ==> less(s[i], s[j])
  }

  /** Puts x in front of the first element that is not smaller. */
  function Insert<T>(less: (T, T) -> bool, x: T, s: seq<T>): (r: seq<T>)
    ensures |r| == |s| + 1
    ensures multiset(r) == multiset{x} + multiset(s)
  {
    if s == [] || !less(s[0], x) then [x] + s
    else
      assert s == [s[0]] + s[1..];
      [s[0]] + Insert(less, x, s[1..])
  }

  function Sort<T>(less: (T, T) -> bool, s: seq<T>): (r: seq<T>)
    ensures |r| == |s|
    ensures multiset(r) == multiset(s)
  {
    if s == [] then [] else
      assert s == [s[0]] + s[1..];
      Insert(less, s[0], Sort(less, s[1..]))
  }

  lemma {:induction false} InsertSorted<T(!new)>(less: (T, T) -> bool, x: T, s: seq<T>)
    requires StrictWeak(less) && Sorted(less, s)
    ensures Sorted(less, Insert(less, x, s))
  {
    if s == [] || !less(s[0], x) {
      var r := [x] + s;
      forall i, j | 0 <= i < j < |r| ensures !less(r[j], r[i]) {
        if i == 0 && j > 1 {
          assert !less(s[j - 1], s[0]);
        }
      }
    } else {
      var t := Insert(less, x, s[1..]);
      InsertSorted(less, x, s[1..]);
      forall j | 0 <= j < |t| ensures !less(t[j], s[0]) {
        assert t[j] in multiset(t);
        if t[j] != x {
          assert t[j] in multiset(s[1..]);
        }
      }
    }
  }

  lemma {:induction false} SortSorted<T(!new)>(less: (T, T) -> bool, s: seq<T>)
    requires StrictWeak(less)
    ensures Sorted(less, Sort(less, s))
  {
    if s != [] {
      SortSorted(less, s[1..]);
      InsertSorted(less, s[0], Sort(less, s[1..]));
    }
  }

  /** A sequence that is already in order comes back as it is, ties included. */
  lemma {:induction false} SortOfSorted<T>(less: (T, T) -> bool, s: seq<T>)
    requires Sorted(less, s)
    ensures Sort(less, s) == s
  {
    if s != [] {
      SortOfSorted(less, s[1..]);
      assert s == [s[0]] + s[1..];
      if |s| > 1 {
        assert !less(s[1], s[0]);
      }
    }
  }

  lemma {:induction false} SameElements<T>(s: seq<T>, t: seq<T>, x: T)
    requires multiset(s) == multiset(t)
    ensures x in s <==> x in t
  {
    assert x in s <==> x in multiset(s);
    assert x in t <==> x in multiset(t);
  }

  /** Strictly ordered sequences with the same elements are equal. */
  lemma {:induction false} StrictlySortedUnique<T(!new)>(less: (T, T) -> bool, s: seq<T>, t: seq<T>)
    requires StrictWeak(less) && multiset(s) == multiset(t)
    requires StrictlySorted(less, s) && StrictlySorted(less, t)
    ensures s == t
  {
    forall x ensures x in s <==> x in t {
      SameElements(s, t, x);
    }
    SameSetSameOrder(less, s, t);
  }

  /** Neither of the two comes before the other. */
  predicate Tied<T>(less: (T, T) -> bool, a: T, b: T) {
    !less(a, b) && !less(b, a)
  }

  function TiesOf<T>(less: (T, T) -> bool, x: T, s: seq<T>): seq<T> {
    if s == [] then [] else (if Tied(less, s[0], x) then [s[0]] else []) + TiesOf(less, x, s[1..])
  }

  lemma {:induction false} InsertStable<T(!new)>(less: (T, T) -> bool, x: T, y: T, s: seq<T>)
    requires StrictWeak(less)
    ensures TiesOf(less, x, Insert(less, y, s)) == TiesOf(less, x, [y] + s)
  {
    assert ([y] + s)[1..] == s;
    if s != [] && less(s[0], y) {
      InsertStable(less, x, y, s[1..]);
      var rest := Insert(less, y, s[1..]);
      assert Insert(less, y, s) == [s[0]] + rest;
      assert ([s[0]] + rest)[1..] == rest && ([y] + s[1..])[1..] == s[1..];
      assert !(Tied(less, s[0], x) && Tied(less, y, x));
    }
  }

  /** Sorting is stable: elements that tie keep their order. */
  lemma {:induction false} SortStable<T(!new)>(less: (T, T) -> bool, x: T, s: seq<T>)
    requires StrictWeak(less)
    ensures TiesOf(less, x, Sort(less, s)) == TiesOf(less, x, s)
  {
    if s != [] {
      SortStable(less, x, s[1..]);
      InsertStable(less, x, s[0], Sort(less, s[1..]));
      assert ([s[0]] + Sort(less, s[1..]))[1..] == Sort(less, s[1..]);
    }
  }

  lemma {:induction false} TiesIn<T(!new)>(less: (T, T) -> bool, x: T, s: seq<T>) returns (i: nat)
    requires TiesOf(less, x, s) != []
    ensures i < |s| && Tied(less, s[i], x)
  {
    if Tied(less, s[0], x) {
      i := 0;
    } else {
      var j := TiesIn(less, x, s[1..]);
      i := j + 1;
    }
  }

  lemma {:induction false} FirstTies<T(!new)>(less: (T, T) -> bool, s: seq<T>)
    requires StrictWeak(less) && s != []
    ensures TiesOf(less, s[0], s) != [] && TiesOf(less, s[0], s)[0] == s[0]
  {
  }

  /** In sorted sequences with the same elements that tie with x, the first of one ties with that of the other. */
  lemma {:induction false} FirstsTie<T(!new)>(less: (T, T) -> bool, s: seq<T>, t: seq<T>)
    requires StrictWeak(less) && Sorted(less, s) && Sorted(less, t) && s != [] && t != []
    requires TiesOf(less, s[0], t) != [] && TiesOf(less, t[0], s) != []
    ensures Tied(less, t[0], s[0])
  {
    var i := TiesIn(less, s[0], t);
    var j := TiesIn(less, t[0], s);
    assert i > 0 ==> !less(t[i], t[0]);
    assert j > 0 ==> !less(s[j], s[0]);
  }

  /** Elements that tie with one another come in the same order in both. */
  ghost predicate SameTies<T(!new)>(less: (T, T) -> bool, s: seq<T>, t: seq<T>) {
    forall x :: TiesOf(less, x, s) == TiesOf(less, x, t)
  }

  lemma {:induction false} TiesOfTail<T(!new)>(less: (T, T) -> bool, x: T, s: seq<T>)
    requires s != []
    ensures TiesOf(less, x, s[1..]) == if Tied(less, s[0], x) then TiesOf(less, x, s)[1..] else TiesOf(less, x, s)
    ensures Tied(less, s[0], x) ==> TiesOf(less, x, s) != []
  {
  }

  /** There is only one stable way to sort: sequences in order that agree on ties are equal. */
  lemma {:induction false} StableSortUnique<T(!new)>(less: (T, T) -> bool, s: seq<T>, t: seq<T>)
    requires StrictWeak(less) && Sorted(less, s) && Sorted(less, t) && SameTies(less, s, t)
    ensures s == t
    decreases |s|
  {
    if s == [] {
      if t != [] {
        FirstTies(less, t);
      }
    } else {
      FirstTies(less, s);
      if t != [] {
        FirstTies(less, t);
        FirstsTie(less, s, t);
        assert TiesOf(less, s[0], t)[0] == t[0];
        forall x ensures TiesOf(less, x, s[1..]) == TiesOf(less, x, t[1..]) {
          TiesOfTail(less, x, s);
          TiesOfTail(less, x, t);
        }
        StableSortUnique(less, s[1..], t[1..]);
        assert s == [s[0]] + s[1..] && t == [t[0]] + t[1..];
      }
    }
  }

  /** Sort is the stable sort: a sequence is what Sort gives exactly when it is in order and keeps
      elements that tie as they were. */
  lemma {:induction false} SortIsTheStableSort<T(!new)>(less: (T, T) -> bool, s: seq<T>, sorted: seq<T>)
    requires StrictWeak(less)
    ensures sorted == Sort(less, s) <==> Sorted(less, sorted) && SameTies(less, sorted, s)
  {
    SortSorted(less, s);
    forall x ensures TiesOf(less, x, Sort(less, s)) == TiesOf(less, x, s) {
      SortStable(less, x, s);
    }
    if Sorted(less, sorted) && SameTies(less, sorted, s) {
      forall x ensures TiesOf(less, x, sorted) == TiesOf(less, x, Sort(less, s)) {
        assert TiesOf(less, x, sorted) == TiesOf(less, x, s);
      }
      StableSortUnique(less, sorted, Sort(less, s));
    }
  }

  /** Strictly ordered sequences that list the same elements are equal. */
  lemma {:induction false} SameSetSameOrder<T(!new)>(less: (T, T) -> bool, s: seq<T>, t: seq<T>)
    requires StrictWeak(less) && StrictlySorted(less, s) && StrictlySorted(less, t)
    requires forall x :: x in s <==> x in t
    ensures s == t
  {
    if s == [] {
      if t != [] {
        HasFirst(t);
      }
    } else {
      assert s[0] in t && t[0] in s;
      var i :| 0 <= i < |t| && t[i] == s[0];
      var j :| 0 <= j < |s| && s[j] == t[0];
      assert s[0] == t[0];
      var a, b := s[1..], t[1..];
      forall x ensures x in a <==> x in b {
        RestOf(less, s, x);
        RestOf(less, t, x);
      }
      SameSetSameOrder(less, a, b);
      assert s == [s[0]] + a && t == [t[0]] + b;
    }
  }

  lemma {:induction false} HasFirst<T>(s: seq<T>)
    requires s != []
    ensures s[0] in s
  {
  }

  lemma {:induction false} RestOf<T(!new)>(less: (T, T) -> bool, s: seq<T>, x: T)
    requires StrictWeak(less) && StrictlySorted(less, s) && s != []
    ensures x in s[1..] <==> x in s && x != s[0]
  {
    if x in s && x != s[0] {
      var i :| 0 <= i < |s| && s[i] == x;
      assert s[1..][i - 1] == x;
    }
    if x in s[1..] {
      var i :| 0 <= i < |s[1..]| && s[1..][i] == x;
      assert s[i + 1] == x && less(s[0], x);
    }
  }

  ghost predicate Distinct<T>(s: seq<T>) {
    forall i, j :: 0 <= i < j < |s| ==> s[i] != s[j]
  }

  lemma {:induction false} OnceOnly<T>(s: seq<T>, x: T)
    requires Distinct(s)
    ensures multiset(s)[x] <= 1
  {
    if s != [] {
      OnceOnly(s[1..], x);
      assert s == [s[0]] + s[1..];
      if s[0] == x {
        assert x !in s[1..];
      }
    }
  }

  lemma {:induction false} DistinctPermuted<T>(s: seq<T>, t: seq<T>)
    requires Distinct(s) && multiset(s) == multiset(t)
    ensures Distinct(t)
  {
    forall i, j | 0 <= i < j < |t| ensures t[i] != t[j] {
      if t[i] == t[j] {
        assert t == t[..j] + [t[j]] + t[j + 1..] && t[i] in t[..j];
        assert multiset(t)[t[i]] >= 2;
        OnceOnly(s, t[i]);
      }
    }
  }

  /** Without ties and duplicates the sorted list is strictly ordered. */
  lemma {:induction false} SortStrict<T(!new)>(less: (T, T) -> bool, s: seq<T>)
    requires StrictWeak(less) && Distinct(s)
    requires forall a, b :: a in s && b in s && a != b ==> less(a, b) || less(b, a)
    ensures StrictlySorted(less, Sort(less, s))
  {
    var t := Sort(less, s);
    SortSorted(less, s);
    DistinctPermuted(s, t);
    forall i, j | 0 <= i < j < |t| ensures less(t[i], t[j]) {
      SameElements(s, t, t[i]);
      SameElements(s, t, t[j]);
      assert !less(t[j], t[i]) && t[i] != t[j];
    }
  }
}
