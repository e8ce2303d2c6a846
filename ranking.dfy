/**
 * The two list operations behind format selection in src/utils.rs:
 * `Vec::retain` (keep the elements a predicate accepts, in order) and the
 * stable `slice::sort_by` driven by the multi-key comparator
 * `sort_formats_by`.
 */
module Ranking {

  /** `std::cmp::Ordering` */
  datatype Ordering = Less | Equal | Greater

  /** `i32::cmp` */
  function IntCmp(a: int, b: int): (o: Ordering)
    ensures o == Less <==> a < b
    ensures o == Greater <==> a > b
  {
    if a < b then Less else if a > b then Greater else Equal
  }

  // ---------------------------------------------------------------------
  // The multi-key comparator
  // ---------------------------------------------------------------------

  /**
   * `sort_formats_by(a, b, keys)`: every key compares `b`'s value with
   * `a`'s, so the element with the larger key sorts first, and the first
   * key on which the two differ decides.
   */
  function CmpBy<T>(a: T, b: T, keys: seq<T -> int>): (o: Ordering)
    ensures keys != [] && keys[0](a) > keys[0](b) ==> o == Less
    ensures keys != [] && keys[0](a) < keys[0](b) ==> o == Greater
  {
    if keys == [] then Equal
    else
      var o := IntCmp(keys[0](b), keys[0](a));
      if o != Equal then o else CmpBy(a, b, keys[1..])
  }

  /**
   * The comparator's verdict: `Equal` when every key agrees, otherwise
   * decided by the first key that differs, the larger value first.
   */
  lemma CmpBySpec<T>(a: T, b: T, keys: seq<T -> int>)
    ensures CmpBy(a, b, keys) == Equal <==> forall i :: 0 <= i < |keys| ==> keys[i](a) == keys[i](b)
    ensures CmpBy(a, b, keys) == Less <==>
      exists i :: 0 <= i < |keys| && keys[i](a) > keys[i](b) &&
        forall j :: 0 <= j < i ==> keys[j](a) == keys[j](b)
    ensures CmpBy(a, b, keys) == Greater <==>
      exists i :: 0 <= i < |keys| && keys[i](a) < keys[i](b) &&
        forall j :: 0 <= j < i ==> keys[j](a) == keys[j](b)
  {
    CmpByEqualSpec(a, b, keys);
    CmpByLessSpec(a, b, keys);
    CmpByLessSpec(b, a, keys);
    CmpByFlip(a, b, keys);
    CmpByFlip(b, a, keys);
  }

  lemma {:induction false} CmpByEqualSpec<T>(a: T, b: T, keys: seq<T -> int>)
    ensures CmpBy(a, b, keys) == Equal <==> forall i :: 0 <= i < |keys| ==> keys[i](a) == keys[i](b)
    decreases |keys|
  {
    if keys != [] && keys[0](a) == keys[0](b) {
      CmpByEqualSpec(a, b, keys[1..]);
      assert forall i :: 1 <= i < |keys| ==> keys[i] == keys[1..][i - 1];
    }
  }

  lemma {:induction false} CmpByLessSpec<T>(a: T, b: T, keys: seq<T -> int>)
    ensures CmpBy(a, b, keys) == Less <==>
      exists i :: 0 <= i < |keys| && keys[i](a) > keys[i](b) &&
        forall j :: 0 <= j < i ==> keys[j](a) == keys[j](b)
    decreases |keys|
  {
    if keys != [] && keys[0](a) == keys[0](b) {
      CmpByLessSpec(a, b, keys[1..]);
      assert forall i :: 1 <= i < |keys| ==> keys[i] == keys[1..][i - 1];
      if CmpBy(a, b, keys) == Less {
        var i :| 0 <= i < |keys| - 1 && keys[1..][i](a) > keys[1..][i](b) &&
          forall j :: 0 <= j < i ==> keys[1..][j](a) == keys[1..][j](b);
        assert keys[i + 1](a) > keys[i + 1](b) && forall j :: 0 <= j < i + 1 ==> keys[j](a) == keys[j](b);
      }
    }
  }

  /** `a` may stay in front of `b` in a sorted list. */
  predicate NotAfter<T>(a: T, b: T, keys: seq<T -> int>) {
    CmpBy(a, b, keys) != Greater
  }

  /** Swapping the arguments reverses the verdict. */
  lemma {:induction false} CmpByFlip<T>(a: T, b: T, keys: seq<T -> int>)
    ensures CmpBy(a, b, keys) == Greater <==> CmpBy(b, a, keys) == Less
    ensures CmpBy(a, b, keys) == Equal <==> CmpBy(b, a, keys) == Equal
    decreases |keys|
  {
    if keys != [] {
      CmpByFlip(a, b, keys[1..]);
    }
  }

  /** Every element ties with itself. */
  lemma {:induction false} CmpByReflexive<T>(a: T, keys: seq<T -> int>)
    ensures CmpBy(a, a, keys) == Equal
    decreases |keys|
  {
    if keys != [] {
      CmpByReflexive(a, keys[1..]);
    }
  }

  /** The comparator is a total preorder: `NotAfter` is transitive. */
  lemma {:induction false} NotAfterTransitive<T>(a: T, b: T, c: T, keys: seq<T -> int>)
    requires NotAfter(a, b, keys) && NotAfter(b, c, keys)
    ensures NotAfter(a, c, keys)
    decreases |keys|
  {
    if keys != [] && keys[0](a) == keys[0](b) && keys[0](b) == keys[0](c) {
      NotAfterTransitive(a, b, c, keys[1..]);
    }
  }

  // ---------------------------------------------------------------------
  // Retaining
  // ---------------------------------------------------------------------

  /** The elements of `s` that `p` accepts, in their original order. */
  function Filter<T>(s: seq<T>, p: T -> bool): (r: seq<T>)
    ensures |r| <= |s|
    ensures forall i :: 0 <= i < |r| ==> r[i] in s && p(r[i])
    ensures forall i :: 0 <= i < |s| && p(s[i]) ==> s[i] in r
  {
    if s == [] then []
    else if p(s[0]) then [s[0]] + Filter(s[1..], p)
    else Filter(s[1..], p)
  }

  /** Filtering a concatenation filters each half: the order is kept. */
  lemma {:induction false} FilterAppend<T>(a: seq<T>, b: seq<T>, p: T -> bool)
    ensures Filter(a + b, p) == Filter(a, p) + Filter(b, p)
  {
    if a == [] {
      assert a + b == b;
    } else {
      assert (a + b)[0] == a[0];
      assert (a + b)[1..] == a[1..] + b;
      FilterAppend(a[1..], b, p);
    }
  }

  /** A list whose every element passes is kept whole. */
  lemma {:induction false} FilterKeepsAll<T>(s: seq<T>, p: T -> bool)
    requires forall x :: x in s ==> p(x)
    ensures Filter(s, p) == s
  {
    if s != [] {
      FilterKeepsAll(s[1..], p);
    }
  }

  /** Filtering twice with the same predicate is filtering once. */
  lemma FilterIdempotent<T>(s: seq<T>, p: T -> bool)
    ensures Filter(Filter(s, p), p) == Filter(s, p)
  {
    FilterKeepsAll(Filter(s, p), p);
  }

  /** `Vec::retain`: walks the list once, keeping what `p` accepts. */
  method Retain<T>(s: seq<T>, p: T -> bool) returns (r: seq<T>)
    ensures r == Filter(s, p)
  {
    r := [];
    var i := 0;
    while i < |s|
      invariant i <= |s|
      invariant r == Filter(s[..i], p)
    {
      FilterAppend(s[..i], [s[i]], p);
      assert s[..i + 1] == s[..i] + [s[i]];
      if p(s[i]) {
        r := r + [s[i]];
      }
      i := i + 1;
    }
    assert s[..i] == s;
  }

  // ---------------------------------------------------------------------
  // Stable sorting
  // ---------------------------------------------------------------------

  /** Puts `x` in front of the first element it may precede. */
  function Insert<T>(x: T, r: seq<T>, keys: seq<T -> int>): (q: seq<T>)
    ensures multiset(q) == multiset(r) + multiset{x}
    ensures |q| == |r| + 1
  {
    if r == [] || NotAfter(x, r[0], keys) then [x] + r
    else
      assert r == [r[0]] + r[1..];
      [r[0]] + Insert(x, r[1..], keys)
  }

  /**
   * The stable sort: the tail is sorted first and the head goes in front
   * of everything it ties with, so equal elements keep their input order.
   */
  function Sort<T>(s: seq<T>, keys: seq<T -> int>): (r: seq<T>)
    ensures multiset(r) == multiset(s)
    ensures |r| == |s|
  {
    if s == [] then []
    else
      assert s == [s[0]] + s[1..];
      Insert(s[0], Sort(s[1..], keys), keys)
  }

  /** No element is followed by one that should come before it. */
  predicate Sorted<T>(r: seq<T>, keys: seq<T -> int>) {
    forall i :: 0 < i < |r| ==> NotAfter(r[i - 1], r[i], keys)
  }

  /** `slice::sort_by`: inserts the elements one by one, from the back. */
  method SortBy<T>(s: seq<T>, keys: seq<T -> int>) returns (r: seq<T>)
    ensures r == Sort(s, keys)
  {
    r := [];
    var i := |s|;
    while i > 0
      invariant 0 <= i <= |s|
      invariant r == Sort(s[i..], keys)
    {
      i := i - 1;
      assert s[i..][1..] == s[i + 1..];
      r := Insert(s[i], r, keys);
    }
    assert s[0..] == s;
  }

  lemma {:induction false} InsertHead<T>(x: T, r: seq<T>, keys: seq<T -> int>)
    ensures Insert(x, r, keys)[0] == x || (r != [] && Insert(x, r, keys)[0] == r[0])
  {
  }

  lemma {:induction false} InsertSorted<T>(x: T, r: seq<T>, keys: seq<T -> int>)
    requires Sorted(r, keys)
    ensures Sorted(Insert(x, r, keys), keys)
  {
    if r != [] && !NotAfter(x, r[0], keys) {
      var tail := Insert(x, r[1..], keys);
      InsertSorted(x, r[1..], keys);
      InsertHead(x, r[1..], keys);
      CmpByFlip(x, r[0], keys);
      assert NotAfter(r[0], tail[0], keys);
    }
  }

  /** The result of `Sort` is sorted. */
  lemma {:induction false} SortSorted<T>(s: seq<T>, keys: seq<T -> int>)
    ensures Sorted(Sort(s, keys), keys)
  {
    if s != [] {
      SortSorted(s[1..], keys);
      InsertSorted(s[0], Sort(s[1..], keys), keys);
    }
  }

  // ---------------------------------------------------------------------
  // The two ends of a sorted list
  // ---------------------------------------------------------------------

  /** The position of the earliest element of `s` that no other element beats. */
  function FirstBest<T>(s: seq<T>, keys: seq<T -> int>): (k: nat)
    requires |s| > 0
    ensures k < |s|
  {
    if |s| == 1 then 0
    else
      var b := FirstBest(s[1..], keys) + 1;
      if NotAfter(s[0], s[b], keys) then 0 else b
  }

  /** The position of the latest element of `s` that beats no other element. */
  function LastWorst<T>(s: seq<T>, keys: seq<T -> int>): (k: nat)
    requires |s| > 0
    ensures k < |s|
  {
    if |s| == 1 then 0
    else
      var w := LastWorst(s[1..], keys) + 1;
      if CmpBy(s[w], s[0], keys) == Less then 0 else w
  }

  /**
   * `FirstBest` is a maximum that comes first among the maxima: it may
   * precede every element, and every element before it is strictly worse.
   */
  lemma {:induction false} FirstBestSpec<T>(s: seq<T>, keys: seq<T -> int>)
    requires |s| > 0
    ensures forall i :: 0 <= i < FirstBest(s, keys) ==> CmpBy(s[i], s[FirstBest(s, keys)], keys) == Greater
    ensures forall j :: 0 <= j < |s| ==> NotAfter(s[FirstBest(s, keys)], s[j], keys)
  {
    CmpByReflexive(s[FirstBest(s, keys)], keys);
    if |s| > 1 {
      var t := s[1..];
      var b := FirstBest(t, keys) + 1;
      FirstBestSpec(t, keys);
      assert s[b] == t[b - 1];
      if NotAfter(s[0], s[b], keys) {
        forall j | 0 < j < |s| ensures NotAfter(s[0], s[j], keys) {
          assert s[j] == t[j - 1];
          NotAfterTransitive(s[0], s[b], s[j], keys);
        }
      } else {
        forall i | 0 < i < b ensures CmpBy(s[i], s[b], keys) == Greater {
          assert s[i] == t[i - 1];
        }
        forall j | 0 < j < |s| ensures NotAfter(s[b], s[j], keys) {
          assert s[j] == t[j - 1];
        }
        CmpByFlip(s[0], s[b], keys);
      }
    }
  }

  /**
   * `LastWorst` is a minimum that comes last among the minima: every
   * element may precede it, and every element after it is strictly better.
   */
  lemma {:induction false} LastWorstSpec<T>(s: seq<T>, keys: seq<T -> int>)
    requires |s| > 0
    ensures forall i :: LastWorst(s, keys) < i < |s| ==> CmpBy(s[i], s[LastWorst(s, keys)], keys) == Less
    ensures forall j :: 0 <= j < |s| ==> NotAfter(s[j], s[LastWorst(s, keys)], keys)
  {
    CmpByReflexive(s[LastWorst(s, keys)], keys);
    if |s| > 1 {
      var t := s[1..];
      var w := LastWorst(t, keys) + 1;
      LastWorstSpec(t, keys);
      assert s[w] == t[w - 1];
      if CmpBy(s[w], s[0], keys) == Less {
        forall i | 0 < i < |s| ensures CmpBy(s[i], s[0], keys) == Less {
          assert s[i] == t[i - 1];
          CmpByFlip(s[i], s[0], keys);
          if CmpBy(s[i], s[0], keys) != Less {
            NotAfterTransitive(s[0], s[i], s[w], keys);
            CmpByFlip(s[0], s[w], keys);
          }
        }
        forall j | 0 <= j < |s| ensures NotAfter(s[j], s[0], keys) {
        }
      } else {
        forall i | w < i < |s| ensures CmpBy(s[i], s[w], keys) == Less {
          assert s[i] == t[i - 1];
        }
        forall j | 0 < j < |s| ensures NotAfter(s[j], s[w], keys) {
          assert s[j] == t[j - 1];
        }
        CmpByFlip(s[w], s[0], keys);
      }
    }
  }

  /** The head of the sorted list is the first best element. */
  lemma {:induction false} SortHead<T>(s: seq<T>, keys: seq<T -> int>)
    requires |s| > 0
    ensures Sort(s, keys)[0] == s[FirstBest(s, keys)]
  {
    if |s| > 1 {
      SortHead(s[1..], keys);
    }
  }

  /** Inserting in front of an element one may precede leaves the last element alone. */
  lemma {:induction false} InsertKeepsLast<T>(x: T, r: seq<T>, j: nat, keys: seq<T -> int>)
    requires j < |r| && NotAfter(x, r[j], keys)
    ensures Insert(x, r, keys)[|r|] == r[|r| - 1]
  {
    if !NotAfter(x, r[0], keys) {
      InsertKeepsLast(x, r[1..], j - 1, keys);
    }
  }

  /** Inserting an element that every element beats puts it at the end. */
  lemma {:induction false} InsertAtEnd<T>(x: T, r: seq<T>, keys: seq<T -> int>)
    requires forall j :: 0 <= j < |r| ==> !NotAfter(x, r[j], keys)
    ensures Insert(x, r, keys) == r + [x]
  {
    if r != [] {
      InsertAtEnd(x, r[1..], keys);
    }
  }

  /** The last element of the sorted list is the last worst element. */
  lemma {:induction false} SortLast<T>(s: seq<T>, keys: seq<T -> int>)
    requires |s| > 0
    ensures Sort(s, keys)[|s| - 1] == s[LastWorst(s, keys)]
  {
    if |s| > 1 {
      var t := s[1..];
      var w := LastWorst(t, keys);
      SortLast(t, keys);
      InsertLast(s[0], t, Sort(t, keys), w, keys);
      assert s[w + 1] == t[w];
    }
  }

  /** Inserting `x` in front of the sorted `t`: the last element is `x` if it is strictly worse than `t`'s last worst, which stays last otherwise. */
  lemma InsertLast<T>(x: T, t: seq<T>, r: seq<T>, w: nat, keys: seq<T -> int>)
    requires |t| > 0 && w == LastWorst(t, keys)
    requires r == Sort(t, keys) && r[|r| - 1] == t[w]
    ensures Insert(x, r, keys)[|t|] == if CmpBy(t[w], x, keys) == Less then x else t[w]
  {
    if CmpBy(t[w], x, keys) == Less {
      StrictlyWorstGoesLast(x, t, r, w, keys);
      InsertAtEnd(x, r, keys);
    } else {
      CmpByFlip(t[w], x, keys);
      InsertKeepsLast(x, r, |r| - 1, keys);
    }
  }

  /** An element strictly worse than the last worst element of `t` is beaten by all of `t`'s sorted order. */
  lemma StrictlyWorstGoesLast<T>(x: T, t: seq<T>, r: seq<T>, w: nat, keys: seq<T -> int>)
    requires |t| > 0 && w == LastWorst(t, keys)
    requires r == Sort(t, keys)
    requires CmpBy(t[w], x, keys) == Less
    ensures forall j :: 0 <= j < |r| ==> !NotAfter(x, r[j], keys)
  {
    LastWorstSpec(t, keys);
    forall j | 0 <= j < |r| ensures !NotAfter(x, r[j], keys) {
      assert r[j] in multiset(t);
      var i :| 0 <= i < |t| && t[i] == r[j];
      CmpByFlip(t[w], x, keys);
      if NotAfter(x, t[i], keys) {
        NotAfterTransitive(x, t[i], t[w], keys);
      }
    }
  }
}
