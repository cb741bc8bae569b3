/**
 * A stable sort in descending order of a numeric key.
 *
 * The balancer sorts copies of the player list with
 * `Array.prototype.sort` and a comparator `(a, b) => key(b) - key(a)`.
 * That sort is stable (section 23.1.3.30 of ECMA-262, edition 2019 on), so
 * elements with equal keys keep their input order. It is modelled here as
 * an insertion sort that runs in place on an array, specified by the
 * functional insertion sort `SortDesc`; the lemmas below prove that
 * `SortDesc` is sorted, a permutation of its input and stable.
 */
module StableSort {

  /** Non-increasing order of `key`. */
  ghost predicate SortedDesc<T>(s: seq<T>, key: T -> real) {
    forall i, j :: 0 <= i < j < |s| ==> key(s[i]) >= key(s[j])
  }

  /**
   * Insert `x` into `t` after every element whose key is at least `key(x)`,
   * scanning from the right: the step an insertion sort makes with a new
   * element, which never moves it in front of an equal key.
   */
  function InsertDesc<T>(t: seq<T>, x: T, key: T -> real): (r: seq<T>)
    ensures |r| == |t| + 1
  {
    if t == [] then [x]
    else if key(t[|t| - 1]) < key(x) then
      InsertDesc(t[..|t| - 1], x, key) + [t[|t| - 1]]
    else t + [x]
  }

  /** Insertion sort of `s`, descending by `key`, taking the elements left to right. */
  function SortDesc<T>(s: seq<T>, key: T -> real): (r: seq<T>)
    ensures |r| == |s|
  {
    if s == [] then []
    else InsertDesc(SortDesc(s[..|s| - 1], key), s[|s| - 1], key)
  }

  /** The elements of `s` whose key is exactly `k`, in their order in `s`. */
  function WithKey<T>(s: seq<T>, key: T -> real, k: real): seq<T> {
    if s == [] then []
    else WithKey(s[..|s| - 1], key, k) + (if key(s[|s| - 1]) == k then [s[|s| - 1]] else [])
  }

  lemma {:induction false} InsertDescPermutation<T>(t: seq<T>, x: T, key: T -> real)
    ensures multiset(InsertDesc(t, x, key)) == multiset(t) + multiset{x}
  {
    if t != [] && key(t[|t| - 1]) < key(x) {
      InsertDescPermutation(t[..|t| - 1], x, key);
      assert t == t[..|t| - 1] + [t[|t| - 1]];
    }
  }

  /** The insertion sort only rearranges its input. */
  lemma {:induction false} SortDescPermutation<T>(s: seq<T>, key: T -> real)
    ensures multiset(SortDesc(s, key)) == multiset(s)
  {
    if s != [] {
      SortDescPermutation(s[..|s| - 1], key);
      InsertDescPermutation(SortDesc(s[..|s| - 1], key), s[|s| - 1], key);
      assert s == s[..|s| - 1] + [s[|s| - 1]];
    }
  }

  /** Inserting keeps every key at or above a common lower bound. */
  lemma {:induction false} InsertDescBounded<T>(t: seq<T>, x: T, key: T -> real, b: real)
    requires forall i :: 0 <= i < |t| ==> key(t[i]) >= b
    requires key(x) >= b
    ensures forall i :: 0 <= i < |InsertDesc(t, x, key)| ==> key(InsertDesc(t, x, key)[i]) >= b
  {
    if t != [] && key(t[|t| - 1]) < key(x) {
      InsertDescBounded(t[..|t| - 1], x, key, b);
    }
  }

  lemma {:induction false} InsertDescSorted<T>(t: seq<T>, x: T, key: T -> real)
    requires SortedDesc(t, key)
    ensures SortedDesc(InsertDesc(t, x, key), key)
  {
    if t != [] && key(t[|t| - 1]) < key(x) {
      var init, last := t[..|t| - 1], t[|t| - 1];
      InsertDescSorted(init, x, key);
      InsertDescBounded(init, x, key, key(last));
    }
  }

  /** The insertion sort produces a non-increasing sequence. */
  lemma {:induction false} SortDescSorted<T>(s: seq<T>, key: T -> real)
    ensures SortedDesc(SortDesc(s, key), key)
  {
    if s != [] {
      SortDescSorted(s[..|s| - 1], key);
      InsertDescSorted(SortDesc(s[..|s| - 1], key), s[|s| - 1], key);
    }
  }

  lemma {:induction false} WithKeyAppend<T>(a: seq<T>, b: seq<T>, key: T -> real, k: real)
    ensures WithKey(a + b, key, k) == WithKey(a, key, k) + WithKey(b, key, k)
  {
    if b != [] {
      var b' := b[..|b| - 1];
      assert (a + b)[..|a + b| - 1] == a + b';
      WithKeyAppend(a, b', key, k);
    } else {
      assert a + b == a;
    }
  }

  lemma {:induction false} InsertDescWithKey<T>(t: seq<T>, x: T, key: T -> real, k: real)
    ensures WithKey(InsertDesc(t, x, key), key, k)
         == WithKey(t, key, k) + (if key(x) == k then [x] else [])
  {
    if t != [] && key(t[|t| - 1]) < key(x) {
      var init, last := t[..|t| - 1], t[|t| - 1];
      var ins := InsertDesc(init, x, key);
      var r := ins + [last];
      var xs := if key(x) == k then [x] else [];
      var ls := if key(last) == k then [last] else [];
      assert InsertDesc(t, x, key) == r;
      assert r[..|r| - 1] == ins;
      assert WithKey(r, key, k) == WithKey(ins, key, k) + ls;
      InsertDescWithKey(init, x, key, k);
      assert WithKey(ins, key, k) == WithKey(init, key, k) + xs;
      // `x` and `last` have different keys, so at most one of them is kept
      assert xs + ls == ls + xs;
      assert WithKey(t, key, k) == WithKey(init, key, k) + ls;
    } else if t != [] {
      assert (t + [x])[..|t + [x]| - 1] == t;
    }
  }

  /**
   * Stability: for every key value, the elements carrying it appear in the
   * sorted output in exactly their input order.
   */
  lemma {:induction false} SortDescStable<T>(s: seq<T>, key: T -> real, k: real)
    ensures WithKey(SortDesc(s, key), key, k) == WithKey(s, key, k)
  {
    if s != [] {
      SortDescStable(s[..|s| - 1], key, k);
      InsertDescWithKey(SortDesc(s[..|s| - 1], key), s[|s| - 1], key, k);
    }
  }

  /** The first element of a sorted, non-empty `t` after inserting `x`. */
  lemma {:induction false} InsertDescHead<T>(t: seq<T>, x: T, key: T -> real)
    requires SortedDesc(t, key)
    ensures InsertDesc(t, x, key)[0] == if t == [] || key(t[0]) < key(x) then x else t[0]
  {
    if t != [] && key(t[|t| - 1]) < key(x) {
      var init := t[..|t| - 1];
      InsertDescHead(init, x, key);
      if init != [] { assert init[0] == t[0]; }
    } else if t != [] {
      assert key(t[0]) >= key(t[|t| - 1]);
    }
  }

  /**
   * The head of the sorted output is the EARLIEST input element with the
   * largest key.
   */
  lemma {:induction false} SortDescHead<T>(s: seq<T>, key: T -> real) returns (i: nat)
    requires s != []
    ensures i < |s| && SortDesc(s, key)[0] == s[i]
    ensures forall j :: 0 <= j < |s| ==> key(s[j]) <= key(s[i])
    ensures forall j :: 0 <= j < i ==> key(s[j]) < key(s[i])
  {
    var init, last := s[..|s| - 1], s[|s| - 1];
    var sorted := SortDesc(init, key);
    SortDescSorted(init, key);
    InsertDescHead(sorted, last, key);
    if init == [] {
      i := 0;
    } else {
      var h := SortDescHead(init, key);
      if key(sorted[0]) < key(last) {
        i := |s| - 1;
      } else {
        i := h;
        assert s[i] == init[h];
      }
      forall j | 0 <= j < |s|
        ensures key(s[j]) <= key(s[i])
      {
        if j < |s| - 1 { assert s[j] == init[j]; }
      }
      forall j | 0 <= j < i
        ensures key(s[j]) < key(s[i])
      {
        assert s[j] == init[j];
      }
    }
  }

  /**
   * Inserting `x` lands it right after the last element whose key is at
   * least `key(x)`: every element from `j` on has a smaller key.
   */
  lemma {:induction false} InsertDescAt<T>(t: seq<T>, j: nat, x: T, key: T -> real)
    requires j <= |t| && (j == 0 || key(t[j - 1]) >= key(x))
    requires forall k :: j <= k < |t| ==> key(t[k]) < key(x)
    ensures InsertDesc(t, x, key) == t[..j] + [x] + t[j..]
    decreases |t|
  {
    if |t| > j {
      var init := t[..|t| - 1];
      InsertDescAt(init, j, x, key);
      assert init[..j] == t[..j];
      assert init[j..] + [t[|t| - 1]] == t[j..];
    }
  }

  /**
   * One step of the insertion sort: the element at `i` is moved left past
   * every element of the sorted prefix with a smaller key.
   */
  method InsertAt<T>(a: array<T>, i: nat, key: T -> real)
    requires i < a.Length
    modifies a
    ensures a[..i + 1] == InsertDesc(old(a[..i]), old(a[i]), key)
    ensures a[i + 1..] == old(a[i + 1..])
  {
    var x := a[i];
    ghost var t := a[..i];
    var j := i;
    while j > 0 && key(a[j - 1]) < key(x)
      invariant 0 <= j <= i
      invariant forall k :: 0 <= k < j ==> a[k] == t[k]
      invariant forall k :: j < k <= i ==> a[k] == t[k - 1]
      invariant forall k :: i < k < a.Length ==> a[k] == old(a[k])
      invariant forall k :: j <= k < i ==> key(t[k]) < key(x)
    {
      a[j] := a[j - 1];
      j := j - 1;
    }
    a[j] := x;
    InsertDescAt(t, j, x, key);
    assert a[..i + 1] == t[..j] + [x] + t[j..];
  }

  /**
   * The in-place insertion sort: afterwards the array holds exactly
   * `SortDesc` of what it held before.
   */
  method SortDescending<T>(a: array<T>, key: T -> real)
    modifies a
    ensures a[..] == SortDesc(old(a[..]), key)
  {
    ghost var input := a[..];
    var i := 0;
    while i < a.Length
      invariant 0 <= i <= a.Length
      invariant a[..i] == SortDesc(input[..i], key)
      invariant a[i..] == input[i..]
    {
      InsertAt(a, i, key);
      assert input[..i + 1][..i] == input[..i];
      assert SortDesc(input[..i + 1], key) == InsertDesc(SortDesc(input[..i], key), input[i], key);
      i := i + 1;
    }
    assert input[..a.Length] == input;
  }
}
