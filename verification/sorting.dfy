/** Stable sorting by a strict weak order. */
module StableSorting {
  /** `before` is a strict order in which "neither before the other" is an equivalence. */
  ghost predicate StrictWeak<T(!new)>(before: (T, T) -> bool) {
    && (forall a, b :: before(a, b) ==> !before(b, a))
    && (forall a, b, c :: !before(a, b) && !before(b, c) ==> !before(a, c))
  }

  ghost predicate SortedBy<T>(s: seq<T>, before: (T, T) -> bool) {
    forall i, j :: 0 <= i < j < |s| ==> !before(s[j], s[i])
  }

  /** Puts `x` behind everything it does not come before. */
  function InsertBy<T>(x: T, s: seq<T>, before: (T, T) -> bool): seq<T> {
    if s == [] || !before(x, s[|s| - 1]) then s + [x]
    else InsertBy(x, s[..|s| - 1], before) + [s[|s| - 1]]
  }

  function SortBy<T>(s: seq<T>, before: (T, T) -> bool): seq<T> {
    if s == [] then [] else InsertBy(s[|s| - 1], SortBy(s[..|s| - 1], before), before)
  }

  predicate Alike<T>(a: T, b: T, before: (T, T) -> bool) {
    !before(a, b) && !before(b, a)
  }

  /** The elements neither before nor after `key`, in order. */
  function SameKey<T>(s: seq<T>, key: T, before: (T, T) -> bool): seq<T> {
    if s == [] then []
    else
      var last := s[|s| - 1];
      SameKey(s[..|s| - 1], key, before) + if Alike(last, key, before) then [last] else []
  }

  lemma {:induction false} InsertKeeps<T>(x: T, s: seq<T>, before: (T, T) -> bool)
    ensures |InsertBy(x, s, before)| == |s| + 1
    ensures multiset(InsertBy(x, s, before)) == multiset(s) + multiset{x}
    decreases |s|
  {
    if s != [] {
      var n := |s| - 1;
      InsertKeeps(x, s[..n], before);
      assert s == s[..n] + [s[n]];
    }
  }

  lemma {:induction false} InsertSorts<T(!new)>(x: T, s: seq<T>, before: (T, T) -> bool)
    requires SortedBy(s, before) && StrictWeak(before)
    ensures SortedBy(InsertBy(x, s, before), before)
    decreases |s|
  {
    if s == [] {
    } else if before(x, s[|s| - 1]) {
      var n := |s| - 1;
      var inserted := InsertBy(x, s[..n], before);
      InsertSorts(x, s[..n], before);
      InsertKeeps(x, s[..n], before);
      forall i | 0 <= i < |inserted| ensures !before(s[n], inserted[i]) {
        assert inserted[i] in multiset(inserted);
        assert inserted[i] in s[..n] || inserted[i] == x;
      }
    } else {
      var n := |s| - 1;
      forall i | 0 <= i < |s| ensures !before(x, s[i]) {
        if i < n { assert !before(s[n], s[i]); }
      }
    }
  }

  lemma SameKeySnoc<T>(s: seq<T>, last: T, key: T, before: (T, T) -> bool)
    ensures SameKey(s + [last], key, before)
            == SameKey(s, key, before) + if Alike(last, key, before) then [last] else []
  {
    assert (s + [last])[..|s|] == s;
  }

  lemma {:induction false} InsertIsStable<T(!new)>(x: T, s: seq<T>, key: T, before: (T, T) -> bool)
    requires StrictWeak(before)
    ensures SameKey(InsertBy(x, s, before), key, before) == SameKey(s + [x], key, before)
    decreases |s|
  {
    if s != [] && before(x, s[|s| - 1]) {
      var n := |s| - 1;
      var front, last := s[..n], s[n];
      InsertIsStable(x, front, key, before);
      assert s == front + [last];
      SameKeySnoc(InsertBy(x, front, before), last, key, before);
      SameKeySnoc(front, x, key, before);
      SameKeySnoc(front, last, key, before);
      SameKeySnoc(s, x, key, before);
      assert !(Alike(x, key, before) && Alike(last, key, before));
    }
  }

  /** The sort orders, keeps every element, and never reorders elements of one key. */
  lemma {:induction false} SortBySorts<T(!new)>(s: seq<T>, before: (T, T) -> bool)
    requires StrictWeak(before)
    ensures SortedBy(SortBy(s, before), before) && multiset(SortBy(s, before)) == multiset(s)
    ensures forall key :: SameKey(SortBy(s, before), key, before) == SameKey(s, key, before)
    decreases |s|
  {
    if s != [] {
      var n := |s| - 1;
      var sorted := SortBy(s[..n], before);
      SortBySorts(s[..n], before);
      assert s == s[..n] + [s[n]];
      InsertSorts(s[n], sorted, before);
      InsertKeeps(s[n], sorted, before);
      forall key ensures SameKey(SortBy(s, before), key, before) == SameKey(s, key, before) {
        InsertIsStable(s[n], sorted, key, before);
        SameKeySnoc(sorted, s[n], key, before);
        SameKeySnoc(s[..n], s[n], key, before);
      }
    }
  }

  lemma {:induction false} SortedIsFixed<T>(s: seq<T>, before: (T, T) -> bool)
    requires SortedBy(s, before)
    ensures SortBy(s, before) == s
    decreases |s|
  {
    if s != [] {
      var n := |s| - 1;
      SortedIsFixed(s[..n], before);
      if n > 0 { assert !before(s[n], s[n - 1]); }
      assert s == s[..n] + [s[n]];
    }
  }
}
