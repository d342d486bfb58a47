// Small helpers shared by both variants: an optional value (Java's null),
// a result for constructors that throw, and facts about sequences of piles.

module Util {

  /** A value or nothing: stands for a Java reference that may be null. */
  datatype Option<+T> = None | Some(value: T)

  /** The outcome of a Java constructor that throws IllegalArgumentException. */
  datatype Result<+T> = Ok(value: T) | Err(message: string)

  function Last<T>(s: seq<T>): T
    requires s != []
  {
    s[|s| - 1]
  }

  function DropLast<T>(s: seq<T>): seq<T>
    requires s != []
  {
    s[..|s| - 1]
  }

  function Max(a: int, b: int): int { if a < b then b else a }

  function Min(a: int, b: int): int { if a < b then a else b }

  /** The number of elements over all the sequences in `ss`. */
  function TotalSize<T>(ss: seq<seq<T>>): nat
  {
    if ss == [] then 0 else TotalSize(DropLast(ss)) + |Last(ss)|
  }

  /** The multiset of keys of the elements of `s`. */
  function Bag<T, K(==)>(s: seq<T>, key: T -> K): multiset<K>
  {
    if s == [] then multiset{} else Bag(DropLast(s), key) + multiset{key(Last(s))}
  }

  /** The multiset of keys over all the sequences in `ss`. */
  function FlatBag<T, K(==)>(ss: seq<seq<T>>, key: T -> K): multiset<K>
  {
    if ss == [] then multiset{} else FlatBag(DropLast(ss), key) + Bag(Last(ss), key)
  }

  lemma {:induction false} BagSize<T, K>(s: seq<T>, key: T -> K)
    ensures |Bag(s, key)| == |s|
  {
    if s != [] {
      BagSize(DropLast(s), key);
    }
  }

  lemma {:induction false} BagAppend<T, K>(a: seq<T>, b: seq<T>, key: T -> K)
    ensures Bag(a + b, key) == Bag(a, key) + Bag(b, key)
  {
    if b != [] {
      assert DropLast(a + b) == a + DropLast(b);
      BagAppend(a, DropLast(b), key);
    } else {
      assert a + b == a;
    }
  }

  /** Replacing one element by another with the same key keeps the bag. */
  lemma {:induction false} BagUpdateSameKey<T, K>(s: seq<T>, i: nat, x: T, key: T -> K)
    requires i < |s| && key(x) == key(s[i])
    ensures Bag(s[i := x], key) == Bag(s, key)
  {
    if i < |s| - 1 {
      assert DropLast(s[i := x]) == DropLast(s)[i := x];
      BagUpdateSameKey(DropLast(s), i, x, key);
    } else {
      assert DropLast(s[i := x]) == DropLast(s);
    }
  }

  lemma {:induction false} BagSplit<T, K>(s: seq<T>, n: nat, key: T -> K)
    requires n <= |s|
    ensures Bag(s, key) == Bag(s[..n], key) + Bag(s[n..], key)
  {
    assert s == s[..n] + s[n..];
    BagAppend(s[..n], s[n..], key);
  }

  lemma BagSlices<T, K>(s: seq<T>, lo: nat, hi: nat, key: T -> K)
    requires lo <= hi <= |s|
    ensures Bag(s[lo..], key) == Bag(s[lo..hi], key) + Bag(s[hi..], key)
  {
    assert s[lo..] == s[lo..hi] + s[hi..];
    BagAppend(s[lo..hi], s[hi..], key);
  }

  lemma FlatBagPrefix<T, K>(ss: seq<seq<T>>, n: nat, key: T -> K)
    requires 0 < n <= |ss|
    ensures FlatBag(ss[..n], key) == FlatBag(ss[..n - 1], key) + Bag(ss[n - 1], key)
  {
    assert DropLast(ss[..n]) == ss[..n - 1];
  }

  lemma {:induction false} FlatBagSize<T, K>(ss: seq<seq<T>>, key: T -> K)
    ensures |FlatBag(ss, key)| == TotalSize(ss)
  {
    if ss != [] {
      FlatBagSize(DropLast(ss), key);
      BagSize(Last(ss), key);
    }
  }

  /** Changing one sequence of `ss` changes the flat bag by the difference. */
  lemma {:induction false} FlatBagUpdate<T, K>(ss: seq<seq<T>>, i: nat, x: seq<T>, key: T -> K)
    requires i < |ss|
    ensures FlatBag(ss[i := x], key) + Bag(ss[i], key) == FlatBag(ss, key) + Bag(x, key)
  {
    var d, l := DropLast(ss), Last(ss);
    if i < |ss| - 1 {
      assert DropLast(ss[i := x]) == d[i := x];
      assert Last(ss[i := x]) == l && d[i] == ss[i];
      FlatBagUpdate(d, i, x, key);
      SwapAdded(FlatBag(d[i := x], key), Bag(ss[i], key), FlatBag(d, key), Bag(x, key), Bag(l, key));
    } else {
      assert DropLast(ss[i := x]) == d && Last(ss[i := x]) == x;
      assert forall e :: (FlatBag(d, key) + Bag(x, key) + Bag(l, key))[e] == (FlatBag(d, key) + Bag(l, key) + Bag(x, key))[e];
    }
  }

  lemma SwapAdded<K>(a: multiset<K>, c: multiset<K>, b: multiset<K>, d: multiset<K>, l: multiset<K>)
    requires a + c == b + d
    ensures (a + l) + c == (b + l) + d
  {
    assert forall e :: ((a + l) + c)[e] == (a + c)[e] + l[e] == (b + d)[e] + l[e] == ((b + l) + d)[e];
  }

  /** Moving `m` out of a part: cancelling the part that stays on both sides. */
  lemma Transfer<K>(a: multiset<K>, c: multiset<K>, b: multiset<K>, x: multiset<K>, m: multiset<K>)
    requires a + c == b + x && c == x + m
    ensures a + m == b
  {
    assert forall e :: (a + m)[e] == (a + c)[e] - x[e] == (b + x)[e] - x[e] == b[e];
  }

  /** Moving `m` into a part: cancelling the part that was there before. */
  lemma Absorb<K>(a: multiset<K>, c: multiset<K>, b: multiset<K>, m: multiset<K>)
    requires a + c == b + (c + m)
    ensures a == b + m
  {
    assert forall e :: a[e] == (a + c)[e] - c[e] == (b + (c + m))[e] - c[e] == (b + m)[e];
  }

  /** Changing one sequence of `ss` changes the total size by the difference. */
  lemma {:induction false} TotalSizeUpdate<T>(ss: seq<seq<T>>, i: nat, x: seq<T>)
    requires i < |ss|
    ensures TotalSize(ss[i := x]) + |ss[i]| == TotalSize(ss) + |x|
  {
    if i < |ss| - 1 {
      assert DropLast(ss[i := x]) == DropLast(ss)[i := x];
      TotalSizeUpdate(DropLast(ss), i, x);
    } else {
      assert DropLast(ss[i := x]) == DropLast(ss);
    }
  }

  lemma {:induction false} TotalSizeAllEmpty<T>(ss: seq<seq<T>>)
    requires forall i :: 0 <= i < |ss| ==> ss[i] == []
    ensures TotalSize(ss) == 0
  {
    if ss != [] {
      TotalSizeAllEmpty(DropLast(ss));
    }
  }

  lemma {:induction false} FlatBagAllEmpty<T, K>(ss: seq<seq<T>>, key: T -> K)
    requires forall i :: 0 <= i < |ss| ==> ss[i] == []
    ensures FlatBag(ss, key) == multiset{}
  {
    if ss != [] {
      FlatBagAllEmpty(DropLast(ss), key);
    }
  }

  /** A sequence element belongs to the total size: each part is at most the total. */
  lemma {:induction false} TotalSizeAtLeastPart<T>(ss: seq<seq<T>>, i: nat)
    requires i < |ss|
    ensures |ss[i]| <= TotalSize(ss)
  {
    if i < |ss| - 1 {
      TotalSizeAtLeastPart(DropLast(ss), i);
    }
  }

  /** The elements of `s` in the opposite order. */
  function Reverse<T>(s: seq<T>): (r: seq<T>)
    ensures |r| == |s| && forall k :: 0 <= k < |s| ==> r[k] == s[|s| - 1 - k]
  {
    if s == [] then [] else [Last(s)] + Reverse(DropLast(s))
  }

  /** Reversing keeps the bag. */
  lemma {:induction false} ReverseBag<T, K>(s: seq<T>, key: T -> K)
    ensures Bag(Reverse(s), key) == Bag(s, key)
  {
    if s != [] {
      ReverseBag(DropLast(s), key);
      BagAppend([Last(s)], Reverse(DropLast(s)), key);
      assert Bag([Last(s)], key) == multiset{key(Last(s))};
    }
  }

  /** Two sequences whose elements have the same keys, place by place, have the same bag. */
  lemma {:induction false} BagSameKeys<T, K>(a: seq<T>, b: seq<T>, key: T -> K)
    requires |a| == |b| && forall k :: 0 <= k < |a| ==> key(a[k]) == key(b[k])
    ensures Bag(a, key) == Bag(b, key)
  {
    if a != [] {
      BagSameKeys(DropLast(a), DropLast(b), key);
    }
  }

  /** Permuting a sequence keeps its bag of keys. */
  lemma {:induction false} BagPermutation<T, K>(a: seq<T>, b: seq<T>, key: T -> K)
    requires multiset(a) == multiset(b)
    ensures Bag(a, key) == Bag(b, key)
    decreases |a|
  {
    if a == [] {
      assert |multiset(b)| == 0;
    } else {
      var x := Last(a);
      assert x in multiset(b);
      var i :| 0 <= i < |b| && b[i] == x;
      var lo, hi := b[..i], b[i + 1..];
      OneTakenOut(a, b, i);
      BagPermutation(DropLast(a), lo + hi, key);
      BagAround(lo, x, hi, key);
      assert b == lo + [x] + hi;
    }
  }

  /** Taking the last element of `a` out, and the same element at `i` out of `b`, keeps the multisets equal. */
  lemma OneTakenOut<T>(a: seq<T>, b: seq<T>, i: nat)
    requires a != [] && i < |b| && b[i] == Last(a) && multiset(a) == multiset(b)
    ensures multiset(DropLast(a)) == multiset(b[..i] + b[i + 1..])
  {
    var x, lo, hi := Last(a), b[..i], b[i + 1..];
    assert a == DropLast(a) + [x];
    assert b == lo + [x] + hi;
    assert multiset(a) == multiset(DropLast(a)) + multiset{x};
    assert multiset(b) == multiset(lo + hi) + multiset{x};
    forall e
      ensures multiset(DropLast(a))[e] == multiset(lo + hi)[e]
    {
      assert (multiset(DropLast(a)) + multiset{x})[e] == (multiset(lo + hi) + multiset{x})[e];
    }
  }

  /** The bag of `lo + [x] + hi`: the bag without `x`, plus x's key. */
  lemma BagAround<T, K>(lo: seq<T>, x: T, hi: seq<T>, key: T -> K)
    ensures Bag(lo + [x] + hi, key) == Bag(lo + hi, key) + multiset{key(x)}
  {
    BagAppend(lo, hi, key);
    BagAppend(lo + [x], hi, key);
    BagAppend(lo, [x], key);
    assert Bag([x], key) == multiset{key(x)};
  }
}
