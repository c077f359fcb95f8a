/**
 * Sequence operations the application borrows from Python and pandas:
 * the guarded `list.remove` (first occurrence), keeping the first copy of
 * each element, which is how a Python dict collapses repeated keys, and
 * keeping the first element of each class of elements with equal keys,
 * which is what `DataFrame.drop_duplicates()` does to rows that compare
 * equal under Python's `==`.
 */
module Lists {

  ghost predicate NoDuplicates<T>(s: seq<T>) {
    forall i, j :: 0 <= i < j < |s| ==> s[i] != s[j]
  }

  lemma AppendFresh<T>(s: seq<T>, x: T)
    requires NoDuplicates(s) && x !in s
    ensures NoDuplicates(s + [x])
  {
  }

  lemma AppendAssociative<T>(x: seq<T>, y: seq<T>, z: seq<T>)
    ensures x + (y + z) == (x + y) + z
  {
  }

  /** Position of the first occurrence of `x` in `s`. */
  function IndexOf<T(==)>(s: seq<T>, x: T): (i: nat)
    requires x in s
    ensures i < |s| && s[i] == x && x !in s[..i]
  {
    if s[0] == x then 0 else 1 + IndexOf(s[1..], x)
  }

  /** The first-occurrence index is the only index holding `x` with no earlier `x`. */
  lemma IndexOfUnique<T>(s: seq<T>, x: T, i: nat)
    requires i < |s| && s[i] == x && x !in s[..i]
    ensures IndexOf(s, x) == i
  {
  }

  lemma IndexOfPrefix<T>(s: seq<T>, t: seq<T>, x: T)
    requires x in s
    ensures x in s + t && IndexOf(s + t, x) == IndexOf(s, x)
  {
    var i := IndexOf(s, x);
    assert (s + t)[..i] == s[..i];
    IndexOfUnique(s + t, x, i);
  }

  /**
   * `if x in s: s.remove(x)`: Python's `list.remove`, which raises when `x`
   * is absent, behind the guard that skips it then.
   */
  function RemoveFirst<T(==)>(s: seq<T>, x: T): (r: seq<T>)
    ensures x !in s ==> r == s
    ensures x in s ==> r == s[..IndexOf(s, x)] + s[IndexOf(s, x) + 1..]
  {
    if s == [] then []
    else if s[0] == x then s[1..]
    else
      var rest := RemoveFirst(s[1..], x);
      if x in s then
        var j := IndexOf(s[1..], x);
        assert IndexOf(s, x) == 1 + j;
        assert s[..1 + j] == [s[0]] + s[1..][..j] && s[j + 2..] == s[1..][j + 1..];
        [s[0]] + rest
      else [s[0]] + rest
  }

  /** On a list without repeats, removing `x` leaves exactly the other elements, still without repeats. */
  lemma RemoveFirstOfDistinct<T>(s: seq<T>, x: T)
    requires NoDuplicates(s)
    ensures NoDuplicates(RemoveFirst(s, x))
    ensures forall y :: y in RemoveFirst(s, x) <==> y in s && y != x
    ensures x in s ==> |RemoveFirst(s, x)| == |s| - 1
  {
    if x in s {
      var i := IndexOf(s, x);
      SpliceOfDistinct(s, i);
    }
  }

  /** Dropping the element at position `i` of a list without repeats. */
  lemma SpliceOfDistinct<T>(s: seq<T>, i: nat)
    requires NoDuplicates(s) && i < |s|
    ensures NoDuplicates(s[..i] + s[i + 1..])
    ensures forall y :: y in s[..i] + s[i + 1..] <==> y in s && y != s[i]
  {
    var r := s[..i] + s[i + 1..];
    assert forall k :: 0 <= k < |r| ==> r[k] == s[if k < i then k else k + 1];
    forall y
      ensures y in r <==> y in s && y != s[i]
    {
      if y in s && y != s[i] {
        var k :| 0 <= k < |s| && s[k] == y;
        assert r[if k < i then k else k - 1] == y;
      }
    }
  }

  /**
   * The elements of `s` with every repeat dropped, each element kept where
   * it first occurs: scanning left to right, an element is kept exactly
   * when it has not been seen before.
   */
  function Distinct<T(==)>(s: seq<T>): (d: seq<T>)
    ensures forall i :: 0 <= i < |d| ==> d[i] in s
    ensures forall i :: 0 <= i < |s| ==> s[i] in d
    ensures NoDuplicates(d)
    ensures |d| <= |s|
    decreases |s|
  {
    if s == [] then []
    else
      var init, last := s[..|s| - 1], s[|s| - 1];
      assert s == init + [last];
      var d := Distinct(init);
      if last in init then d
      else
        d + [last]
  }

  /** A list without repeats is left as it is. */
  lemma {:induction false} DistinctOfDistinct<T>(s: seq<T>)
    requires NoDuplicates(s)
    ensures Distinct(s) == s
    decreases |s|
  {
    if s != [] {
      var init, last := s[..|s| - 1], s[|s| - 1];
      assert s == init + [last];
      assert NoDuplicates(init);
      DistinctOfDistinct(init);
    }
  }

  /**
   * Order is kept by first occurrence: `x` comes before `y` in `Distinct(s)`
   * exactly when the first `x` of `s` comes before its first `y`.
   */
  lemma {:induction false} DistinctKeepsFirstOccurrenceOrder<T>(s: seq<T>, x: T, y: T)
    requires x in s && y in s
    ensures x in Distinct(s) && y in Distinct(s)
    ensures IndexOf(Distinct(s), x) < IndexOf(Distinct(s), y) <==> IndexOf(s, x) < IndexOf(s, y)
    decreases |s|
  {
    var init, last := s[..|s| - 1], s[|s| - 1];
    assert s == init + [last];
    var d := Distinct(init);
    if last in init {
      assert x in init && y in init;
      IndexOfPrefix(init, [last], x);
      IndexOfPrefix(init, [last], y);
      DistinctKeepsFirstOccurrenceOrder(init, x, y);
    } else {
      assert Distinct(s) == d + [last];
      if x in init && y in init {
        IndexOfPrefix(init, [last], x);
        IndexOfPrefix(init, [last], y);
        IndexOfPrefix(d, [last], x);
        IndexOfPrefix(d, [last], y);
        DistinctKeepsFirstOccurrenceOrder(init, x, y);
      } else if x in init {
        assert y == last;
        IndexOfPrefix(init, [last], x);
        IndexOfPrefix(d, [last], x);
        IndexOfUnique(s, y, |init|);
        assert (d + [last])[..|d|] == d;
        IndexOfUnique(d + [last], y, |d|);
      } else if y in init {
        assert x == last;
        IndexOfPrefix(init, [last], y);
        IndexOfPrefix(d, [last], y);
        IndexOfUnique(s, x, |init|);
        assert (d + [last])[..|d|] == d;
        IndexOfUnique(d + [last], x, |d|);
      } else {
        assert x == last && y == last;
      }
    }
  }

  /** Appending elements already present changes nothing. */
  lemma {:induction false} DistinctAbsorbsRepeats<T>(s: seq<T>, t: seq<T>)
    requires forall x :: x in t ==> x in s
    ensures Distinct(s + t) == Distinct(s)
    decreases |t|
  {
    if t != [] {
      var u := s + t;
      assert u[..|u| - 1] == s + t[..|t| - 1];
      assert u[|u| - 1] == t[|t| - 1];
      assert t[|t| - 1] in t;
      assert u[|u| - 1] in u[..|u| - 1];
      assert Distinct(u) == Distinct(u[..|u| - 1]);
      DistinctAbsorbsRepeats(s, t[..|t| - 1]);
    } else {
      assert s + t == s;
    }
  }

  /** A key written twice in a row at the front collapses to one. */
  lemma {:induction false} DistinctDoubledHead<T>(s: seq<T>)
    requires |s| >= 2 && s[0] == s[1]
    requires NoDuplicates(s[1..])
    ensures Distinct(s) == s[1..]
    decreases |s|
  {
    var init, last := s[..|s| - 1], s[|s| - 1];
    assert s == init + [last];
    if |s| == 2 {
      assert init == [s[0]];
      assert Distinct(init) == [s[0]];
    } else {
      assert init[1..] == s[1..][..|s| - 2];
      assert NoDuplicates(init[1..]);
      DistinctDoubledHead(init);
      assert last !in init by {
        forall k | 0 <= k < |init|
          ensures init[k] != last
        {
          if k == 0 { assert s[1..][0] != s[1..][|s| - 2]; }
          else { assert s[1..][k - 1] != s[1..][|s| - 2]; }
        }
      }
      assert s[1..] == init[1..] + [last];
    }
  }

  /** `key` applied to every element. */
  function MapSeq<T, K>(s: seq<T>, key: T -> K): (r: seq<K>)
    ensures |r| == |s| && forall i :: 0 <= i < |s| ==> r[i] == key(s[i])
  {
    seq(|s|, i requires 0 <= i < |s| => key(s[i]))
  }

  /**
   * The elements of `s`, scanning left to right, each kept exactly when no
   * earlier element has the same key.
   */
  function DistinctBy<T(==), K(==)>(s: seq<T>, key: T -> K): (d: seq<T>)
    ensures forall i :: 0 <= i < |d| ==> d[i] in s
    ensures |d| <= |s|
    decreases |s|
  {
    if s == [] then []
    else
      var init, last := s[..|s| - 1], s[|s| - 1];
      assert s == init + [last];
      var d := DistinctBy(init, key);
      if key(last) in MapSeq(init, key) then d
      else
        d + [last]
  }

  /** The keys of what is kept are the keys of `s` with repeats dropped. */
  lemma {:induction false} DistinctByKeys<T, K>(s: seq<T>, key: T -> K)
    ensures MapSeq(DistinctBy(s, key), key) == Distinct(MapSeq(s, key))
    decreases |s|
  {
    if s != [] {
      var init, last := s[..|s| - 1], s[|s| - 1];
      var ks := MapSeq(s, key);
      assert ks[..|ks| - 1] == MapSeq(init, key);
      assert ks[|ks| - 1] == key(last);
      DistinctByKeys(init, key);
      var d := DistinctBy(init, key);
      assert MapSeq(d + [last], key) == MapSeq(d, key) + [key(last)];
    }
  }

  /** Every element kept is the first element of `s` carrying its key. */
  lemma {:induction false} DistinctByKeepsFirst<T, K>(s: seq<T>, key: T -> K)
    ensures forall i :: 0 <= i < |DistinctBy(s, key)| ==>
      key(DistinctBy(s, key)[i]) in MapSeq(s, key)
      && DistinctBy(s, key)[i] == s[IndexOf(MapSeq(s, key), key(DistinctBy(s, key)[i]))]
    decreases |s|
  {
    if s != [] {
      var init, last := s[..|s| - 1], s[|s| - 1];
      var ks, kinit := MapSeq(s, key), MapSeq(init, key);
      assert ks == kinit + [key(last)];
      DistinctByKeepsFirst(init, key);
      var d := DistinctBy(init, key);
      forall i | 0 <= i < |d|
        ensures key(d[i]) in ks && d[i] == s[IndexOf(ks, key(d[i]))]
      {
        IndexOfPrefix(kinit, [key(last)], key(d[i]));
      }
      if key(last) !in kinit {
        assert ks[..|init|] == kinit;
        IndexOfUnique(ks, key(last), |init|);
        assert (d + [last])[|d|] == last;
      }
    }
  }

  /** Two elements with equal keys: the second is dropped. */
  lemma DistinctByOfEqualPair<T, K>(x: T, y: T, key: T -> K)
    requires key(x) == key(y)
    ensures DistinctBy([x, y], key) == [x]
  {
    assert [x, y][..1] == [x];
    assert [x][..0] == [];
    assert MapSeq([x], key) == [key(x)];
  }

  /** The first element is always kept. */
  lemma {:induction false} DistinctByHead<T, K>(s: seq<T>, key: T -> K)
    requires s != []
    ensures s[0] in DistinctBy(s, key)
    decreases |s|
  {
    if |s| > 1 {
      var init := s[..|s| - 1];
      assert init[0] == s[0];
      DistinctByHead(init, key);
    }
  }

  /** An element is kept exactly when it occurs. */
  lemma DistinctMembers<T>(s: seq<T>)
    ensures forall x :: x in Distinct(s) <==> x in s
  {
    var d := Distinct(s);
    forall x | x in s
      ensures x in d
    {
      var i :| 0 <= i < |s| && s[i] == x;
    }
  }

  /**
   * What keeping one element per key promises of `kept` against `s`: no
   * two kept elements share a key, every key of `s` is kept, each kept
   * element is the first of `s` with its key, and keys keep their order of
   * first occurrence.
   */
  ghost predicate KeepsFirstPerKey<T, K>(s: seq<T>, kept: seq<T>, key: T -> K) {
    var keys, keptKeys := MapSeq(s, key), MapSeq(kept, key);
    && NoDuplicates(keptKeys)
    && (forall i :: 0 <= i < |keys| ==> keys[i] in keptKeys)
    && (forall i :: 0 <= i < |kept| ==> keptKeys[i] in keys && kept[i] == s[IndexOf(keys, keptKeys[i])])
    && forall x, y :: x in keys && y in keys ==>
         (IndexOf(keptKeys, x) < IndexOf(keptKeys, y) <==> IndexOf(keys, x) < IndexOf(keys, y))
  }

  /** `DistinctBy` keeps the first element per key. */
  lemma DistinctByProperties<T, K>(s: seq<T>, key: T -> K)
    ensures KeepsFirstPerKey(s, DistinctBy(s, key), key)
  {
    var keys := MapSeq(s, key);
    DistinctByKeys(s, key);
    DistinctByKeepsFirst(s, key);
    forall x, y | x in keys && y in keys
      ensures x in Distinct(keys) && y in Distinct(keys)
      ensures IndexOf(Distinct(keys), x) < IndexOf(Distinct(keys), y) <==> IndexOf(keys, x) < IndexOf(keys, y)
    {
      DistinctKeepsFirstOccurrenceOrder(keys, x, y);
    }
  }
}
