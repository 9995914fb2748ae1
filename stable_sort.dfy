/**
 * A stable sort by an integer key, ascending.
 *
 * The pipeline sorts scored catalog records with JavaScript's
 * `Array.prototype.sort`, which is stable; the batch listing sorts by creation
 * time. A stable sort's output is determined by its input and the key, so the
 * insertion sort below gives the same order as any other stable sort.
 * `SortBy` is the specification; `SortInPlace` sorts an array in place and is
 * proved to produce exactly `SortBy` of the old contents.
 */
module StableSort {

  ghost predicate SortedBy<T>(s: seq<T>, key: T -> int) {
    forall i, j :: 0 <= i < j < |s| ==> key(s[i]) <= key(s[j])
  }

  /** Inserts `x` after every element whose key is at most `x`'s, scanning from the right. */
  function InsertBy<T>(t: seq<T>, x: T, key: T -> int): (r: seq<T>)
    ensures |r| == |t| + 1
  {
    if t == [] || key(t[|t| - 1]) <= key(x) then t + [x]
    else InsertBy(t[..|t| - 1], x, key) + [t[|t| - 1]]
  }

  lemma {:induction false} InsertPermutes<T>(t: seq<T>, x: T, key: T -> int)
    ensures multiset(InsertBy(t, x, key)) == multiset(t) + multiset{x}
  {
    if t != [] && key(t[|t| - 1]) > key(x) {
      assert t == t[..|t| - 1] + [t[|t| - 1]];
      InsertPermutes(t[..|t| - 1], x, key);
    }
  }

  /** Insertion sort: the elements of `s` ordered by `key`, equal keys kept in input order. */
  function SortBy<T>(s: seq<T>, key: T -> int): (r: seq<T>)
    ensures |r| == |s|
  {
    if s == [] then []
    else InsertBy(SortBy(s[..|s| - 1], key), s[|s| - 1], key)
  }

  /** The sort's output is a permutation of its input. */
  lemma {:induction false} SortPermutes<T>(s: seq<T>, key: T -> int)
    ensures multiset(SortBy(s, key)) == multiset(s)
  {
    if s != [] {
      assert s == s[..|s| - 1] + [s[|s| - 1]];
      SortPermutes(s[..|s| - 1], key);
      InsertPermutes(SortBy(s[..|s| - 1], key), s[|s| - 1], key);
    }
  }

  lemma {:induction false} InsertSorted<T>(t: seq<T>, x: T, key: T -> int)
    requires SortedBy(t, key)
    ensures SortedBy(InsertBy(t, x, key), key)
  {
    if t == [] || key(t[|t| - 1]) <= key(x) {
      forall k | 0 <= k < |t| ensures key(t[k]) <= key(x) {
        if k < |t| - 1 {
          assert key(t[k]) <= key(t[|t| - 1]);
        }
      }
      SortedSnoc(t, x, key);
    } else {
      var init, last := t[..|t| - 1], t[|t| - 1];
      assert SortedBy(init, key) by {
        forall i, j | 0 <= i < j < |init| ensures key(init[i]) <= key(init[j]) {
          assert init[i] == t[i] && init[j] == t[j];
        }
      }
      InsertSorted(init, x, key);
      var u := InsertBy(init, x, key);
      InsertPermutes(init, x, key);
      forall k | 0 <= k < |u| ensures key(u[k]) <= key(last) {
        var y := u[k];
        assert y in multiset(u);
        if y != x {
          assert y in init;
          var m :| 0 <= m < |init| && init[m] == y;
          assert t[m] == y;
        }
      }
      SortedSnoc(u, last, key);
    }
  }

  /** An element whose key bounds every key of a sorted sequence can go at its end. */
  lemma SortedSnoc<T>(u: seq<T>, y: T, key: T -> int)
    requires SortedBy(u, key)
    requires forall k :: 0 <= k < |u| ==> key(u[k]) <= key(y)
    ensures SortedBy(u + [y], key)
  {
    var v := u + [y];
    forall i, j | 0 <= i < j < |v| ensures key(v[i]) <= key(v[j]) {
      assert v[i] == u[i];
      if j < |u| {
        assert v[j] == u[j];
      }
    }
  }

  /** The sort's output is ordered by the key. */
  lemma {:induction false} SortSorted<T>(s: seq<T>, key: T -> int)
    ensures SortedBy(SortBy(s, key), key)
  {
    if s != [] {
      SortSorted(s[..|s| - 1], key);
      InsertSorted(SortBy(s[..|s| - 1], key), s[|s| - 1], key);
    }
  }

  /** The index of the first element with the least key (reference definition of "the winner"). */
  function FirstMinIndex<T>(s: seq<T>, key: T -> int): (k: nat)
    requires s != []
    ensures k < |s|
    ensures forall j :: 0 <= j < |s| ==> key(s[k]) <= key(s[j])
    ensures forall j :: 0 <= j < k ==> key(s[k]) < key(s[j])
  {
    if |s| == 1 then 0
    else
      var k := FirstMinIndex(s[..|s| - 1], key);
      if key(s[|s| - 1]) < key(s[k]) then |s| - 1 else k
  }

  lemma {:induction false} InsertHead<T>(t: seq<T>, x: T, key: T -> int)
    requires t != [] && SortedBy(t, key)
    ensures InsertBy(t, x, key)[0] == if key(x) < key(t[0]) then x else t[0]
  {
    if key(t[|t| - 1]) > key(x) && |t| > 1 {
      InsertHead(t[..|t| - 1], x, key);
    }
  }

  /** The first element of the sorted sequence is the first element of the input with the least key. */
  lemma {:induction false} SortHead<T>(s: seq<T>, key: T -> int)
    requires s != []
    ensures SortBy(s, key)[0] == s[FirstMinIndex(s, key)]
  {
    if |s| > 1 {
      var init, x := s[..|s| - 1], s[|s| - 1];
      assert s == init + [x];
      var sortedInit := SortBy(init, key);
      assert SortBy(s, key) == InsertBy(sortedInit, x, key);
      SortHead(init, key);
      SortSorted(init, key);
      InsertHead(sortedInit, x, key);
      var k := FirstMinIndex(init, key);
      assert sortedInit[0] == init[k] == s[k];
    }
  }

  lemma ShiftLeft<T>(sorted: seq<T>, j: nat, x: T, key: T -> int)
    requires 0 < j <= |sorted| && key(sorted[j - 1]) > key(x)
    ensures InsertBy(sorted[..j], x, key) + sorted[j..] == InsertBy(sorted[..j - 1], x, key) + sorted[j - 1..]
  {
    assert sorted[..j][..j - 1] == sorted[..j - 1];
    assert sorted[j - 1..] == [sorted[j - 1]] + sorted[j..];
  }

  /**
   * Moves `a[i]` left past every element of the sorted prefix `a[..i]` with a
   * larger key: afterwards `a[..i + 1]` is the old prefix with `a[i]` inserted.
   */
  method InsertInPlace<T>(a: array<T>, i: nat, key: T -> int)
    requires i < a.Length
    modifies a
    ensures a[..i + 1] == InsertBy(old(a[..i]), old(a[i]), key)
    ensures forall k :: i < k < a.Length ==> a[k] == old(a[k])
  {
    ghost var sorted := a[..i];
    var x := a[i];
    var j := ShiftRight(a, i, key);
    a[j] := x;
    InsertStops(sorted, j, x, key);
    Assemble(a[..i + 1], sorted, j, x);
  }

  /**
   * Shifts the elements of `a[..i]` with a key larger than `a[i]`'s one place
   * right, from the end of the prefix, and returns the gap left for `a[i]`.
   */
  method ShiftRight<T>(a: array<T>, i: nat, key: T -> int) returns (j: nat)
    requires i < a.Length
    modifies a
    ensures ShiftedBy(a[..], old(a[..]), j, i)
    ensures j == 0 || key(old(a[j - 1])) <= key(old(a[i]))
    ensures InsertBy(old(a[..i])[..j], old(a[i]), key) + old(a[..i])[j..] == InsertBy(old(a[..i]), old(a[i]), key)
  {
    ghost var orig := a[..];
    ghost var sorted := a[..i];
    var x := a[i];
    j := i;
    assert sorted[..j] == sorted && sorted[j..] == [];
    while j > 0 && key(a[j - 1]) > key(x)
      invariant ShiftedBy(a[..], orig, j, i)
      invariant InsertBy(sorted[..j], x, key) + sorted[j..] == InsertBy(sorted, x, key)
    {
      ShiftLeft(sorted, j, x, key);
      ShiftStep(a[..], orig, j, i);
      a[j] := a[j - 1];
      j := j - 1;
    }
  }

  /**
   * `cur` is `orig` with `orig[j..i]` moved one place right: it agrees with
   * `orig` before `j` and after `i`, and holds `orig[k - 1]` at each `k` in `j + 1..i`.
   */
  ghost predicate ShiftedBy<T>(cur: seq<T>, orig: seq<T>, j: nat, i: nat) {
    |cur| == |orig| && j <= i < |orig|
    && (forall k :: 0 <= k < j ==> cur[k] == orig[k])
    && (forall k :: j < k <= i ==> cur[k] == orig[k - 1])
    && (forall k :: i < k < |cur| ==> cur[k] == orig[k])
  }

  /** Copying `cur[j - 1]` into the gap at `j` moves the gap one place left. */
  lemma ShiftStep<T>(cur: seq<T>, orig: seq<T>, j: nat, i: nat)
    requires ShiftedBy(cur, orig, j, i) && j > 0
    ensures ShiftedBy(cur[j := cur[j - 1]], orig, j - 1, i)
  {
  }

  lemma InsertStops<T>(sorted: seq<T>, j: nat, x: T, key: T -> int)
    requires j <= |sorted| && (j == 0 || key(sorted[j - 1]) <= key(x))
    ensures InsertBy(sorted[..j], x, key) == sorted[..j] + [x]
  {
  }

  /** A sequence that agrees with `sorted` before `j`, holds `x` at `j` and `sorted` shifted by one after it. */
  lemma Assemble<T>(cur: seq<T>, sorted: seq<T>, j: nat, x: T)
    requires |cur| == |sorted| + 1 && j <= |sorted|
    requires forall k :: 0 <= k < j ==> cur[k] == sorted[k]
    requires cur[j] == x
    requires forall k :: j < k < |cur| ==> cur[k] == sorted[k - 1]
    ensures cur == sorted[..j] + [x] + sorted[j..]
  {
    var inserted := sorted[..j] + [x] + sorted[j..];
    forall k | 0 <= k < |cur| ensures cur[k] == inserted[k] {
      if k > j {
        assert inserted[k] == sorted[j..][k - j - 1];
      }
    }
  }

  lemma SortByStep<T>(s: seq<T>, i: nat, key: T -> int)
    requires i < |s|
    ensures SortBy(s[..i + 1], key) == InsertBy(SortBy(s[..i], key), s[i], key)
  {
    assert s[..i + 1][..i] == s[..i];
  }

  /** Sorts `a` in place by `key` (insertion sort shifting larger keys right). */
  method SortInPlace<T>(a: array<T>, key: T -> int)
    modifies a
    ensures a[..] == SortBy(old(a[..]), key)
  {
    ghost var a0 := a[..];
    var i := 0;
    while i < a.Length
      invariant 0 <= i <= a.Length
      invariant a[..i] == SortBy(a0[..i], key)
      invariant forall k :: i <= k < a.Length ==> a[k] == a0[k]
    {
      ghost var prefix := a[..i];
      InsertInPlace(a, i, key);
      assert a[..i + 1] == InsertBy(prefix, a0[i], key);
      SortByStep(a0, i, key);
      i := i + 1;
    }
    assert a[..] == a[..a.Length];
    assert a0[..a.Length] == a0;
  }
}
