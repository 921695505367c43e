/** Python's `list.sort(key=...)` over pairs keyed by their first component: a stable sort,
    written as insertion sort. */
module Sorting {

  predicate SortedByKey<T>(s: seq<(real, T)>) {
    forall i, j :: 0 <= i < j < |s| ==> s[i].0 <= s[j].0
  }

  /** Puts `x` before the first element whose key is not smaller. */
  function Insert<T>(x: (real, T), s: seq<(real, T)>): (r: seq<(real, T)>)
    ensures |r| == |s| + 1
    decreases |s|
  {
    if s == [] || x.0 <= s[0].0 then [x] + s else [s[0]] + Insert(x, s[1..])
  }

  /** `s.sort(key=lambda x: x[0])`. */
  function SortByKey<T>(s: seq<(real, T)>): (r: seq<(real, T)>)
    ensures |r| == |s|
    decreases |s|
  {
    if s == [] then [] else Insert(s[0], SortByKey(s[1..]))
  }

  /** The elements with key `k`, in order. */
  function WithKey<T>(s: seq<(real, T)>, k: real): seq<(real, T)>
    decreases |s|
  {
    if s == [] then [] else (if s[0].0 == k then [s[0]] else []) + WithKey(s[1..], k)
  }

  /** The tail of a sorted sequence is sorted. */
  lemma SortedTail<T>(s: seq<(real, T)>)
    requires s != [] && SortedByKey(s)
    ensures SortedByKey(s[1..])
  {
    assert forall i :: 0 <= i < |s| - 1 ==> s[1..][i] == s[i + 1];
  }

  /** A key no larger than every key of a sorted sequence can go in front of it. */
  lemma SortedCons<T>(a: (real, T), r: seq<(real, T)>)
    requires SortedByKey(r) && forall i :: 0 <= i < |r| ==> a.0 <= r[i].0
    ensures SortedByKey([a] + r)
  {
    assert forall i :: 0 < i <= |r| ==> ([a] + r)[i] == r[i - 1];
  }

  /** Every element of `Insert(x, s)` is `x` or an element of `s`. */
  lemma {:induction false} InsertMembers<T>(x: (real, T), s: seq<(real, T)>)
    ensures forall i :: 0 <= i < |Insert(x, s)| ==> Insert(x, s)[i] == x || Insert(x, s)[i] in s
    decreases |s|
  {
    if s != [] && !(x.0 <= s[0].0) {
      InsertMembers(x, s[1..]);
      var r := Insert(x, s[1..]);
      assert Insert(x, s) == [s[0]] + r;
      forall i | 0 < i < |Insert(x, s)| ensures Insert(x, s)[i] == x || Insert(x, s)[i] in s {
        assert Insert(x, s)[i] == r[i - 1];
        assert r[i - 1] in s[1..] ==> r[i - 1] in s;
      }
    }
  }

  lemma {:induction false} InsertProperties<T>(x: (real, T), s: seq<(real, T)>)
    requires SortedByKey(s)
    ensures SortedByKey(Insert(x, s))
    ensures multiset(Insert(x, s)) == multiset{x} + multiset(s)
    decreases |s|
  {
    if s == [] || x.0 <= s[0].0 {
      assert Insert(x, s) == [x] + s;
      SortedCons(x, s);
    } else {
      SortedTail(s);
      InsertProperties(x, s[1..]);
      var r := Insert(x, s[1..]);
      assert Insert(x, s) == [s[0]] + r;
      assert s == [s[0]] + s[1..];
      InsertMembers(x, s[1..]);
      forall i | 0 <= i < |r| ensures s[0].0 <= r[i].0 {
        if r[i] != x {
          var j :| 0 <= j < |s[1..]| && s[1..][j] == r[i];
          assert s[j + 1] == r[i];
        }
      }
      SortedCons(s[0], r);
    }
  }

  /** Inserting into a sorted sequence adds `x` to the elements of its key just in front of
      them and leaves the elements of every other key alone. */
  lemma {:induction false} InsertWithKey<T>(x: (real, T), s: seq<(real, T)>, k: real)
    requires SortedByKey(s)
    ensures WithKey(Insert(x, s), k) == (if x.0 == k then [x] else []) + WithKey(s, k)
    decreases |s|
  {
    if s == [] || x.0 <= s[0].0 {
      var r := [x] + s;
      assert Insert(x, s) == r;
      assert r[0] == x && r[1..] == s;
    } else {
      var rest := s[1..];
      SortedTail(s);
      InsertWithKey(x, rest, k);
      var r := [s[0]] + Insert(x, rest);
      assert Insert(x, s) == r;
      assert r[0] == s[0] && r[1..] == Insert(x, rest);
      assert WithKey(r, k) == (if s[0].0 == k then [s[0]] else []) + WithKey(Insert(x, rest), k);
      assert WithKey(s, k) == (if s[0].0 == k then [s[0]] else []) + WithKey(rest, k);
    }
  }

  /** `SortByKey` orders by key and rearranges its input. */
  lemma {:induction false} SortProperties<T>(s: seq<(real, T)>)
    ensures SortedByKey(SortByKey(s))
    ensures multiset(SortByKey(s)) == multiset(s)
    decreases |s|
  {
    if s != [] {
      SortProperties(s[1..]);
      InsertProperties(s[0], SortByKey(s[1..]));
      assert s == [s[0]] + s[1..];
    }
  }

  /** The sort is stable: the elements of each key keep their input order. */
  lemma {:induction false} SortStable<T>(s: seq<(real, T)>, k: real)
    ensures WithKey(SortByKey(s), k) == WithKey(s, k)
    decreases |s|
  {
    if s != [] {
      SortStable(s[1..], k);
      SortProperties(s[1..]);
      InsertWithKey(s[0], SortByKey(s[1..]), k);
    }
  }

  /** An element of the sorted sequence is an element of the input. */
  lemma SortMember<T>(s: seq<(real, T)>, i: int)
    requires 0 <= i < |SortByKey(s)|
    ensures SortByKey(s)[i] in s
  {
    SortProperties(s);
    assert SortByKey(s)[i] in multiset(SortByKey(s));
  }

  /** Every element of the input is an element of the sorted sequence. */
  lemma SortHolds<T>(s: seq<(real, T)>, q: int)
    requires 0 <= q < |s|
    ensures s[q] in SortByKey(s)
  {
    SortProperties(s);
    assert s[q] in multiset(s);
  }

  /** An element whose value was left out of a prefix of the sorted sequence has a key no
      smaller than that of any element kept. */
  lemma TakeClosest<T>(s: seq<(real, T)>, k: int, x: (real, T))
    requires x in s && x.1 !in Values(Take(SortByKey(s), k))
    ensures forall i :: 0 <= i < |Take(SortByKey(s), k)| ==> Take(SortByKey(s), k)[i].0 <= x.0
  {
    var srt := SortByKey(s);
    var pre := Take(srt, k);
    TakePrefix(srt, k);
    SortProperties(s);
    assert x in multiset(s);
    var p :| 0 <= p < |srt| && srt[p] == x;
    var vs := Values(pre);
    assert forall j :: 0 <= j < |pre| ==> vs[j] == pre[j].1;
    assert p >= |pre| by {
      assert forall j :: 0 <= j < |pre| ==> pre[j].1 in vs;
    }
    forall i | 0 <= i < |pre| ensures pre[i].0 <= x.0 {
      assert pre[i] == srt[i];
    }
  }

  /** `s[:k]` is a prefix of `s`. */
  lemma TakePrefix<T>(s: seq<T>, k: int)
    ensures |Take(s, k)| <= |s| && forall j :: 0 <= j < |Take(s, k)| ==> Take(s, k)[j] == s[j]
  {
  }

  /** Where `Insert` puts `x`. */
  function InsertPos<T>(x: (real, T), s: seq<(real, T)>): (p: nat)
    ensures p <= |s|
    decreases |s|
  {
    if s == [] || x.0 <= s[0].0 then 0 else 1 + InsertPos(x, s[1..])
  }

  /** `Insert` puts `x` at a position in front of which every key is smaller. */
  lemma {:induction false} InsertShape<T>(x: (real, T), s: seq<(real, T)>)
    ensures Insert(x, s) == s[..InsertPos(x, s)] + [x] + s[InsertPos(x, s)..]
    ensures forall q :: 0 <= q < InsertPos(x, s) ==> s[q].0 < x.0
    decreases |s|
  {
    if s == [] || x.0 <= s[0].0 {
      assert s[..0] == [] && s[0..] == s;
    } else {
      var p := InsertPos(x, s[1..]);
      InsertShape(x, s[1..]);
      assert s[..p + 1] == [s[0]] + s[1..][..p];
      assert s[p + 1..] == s[1..][p..];
      forall q | 0 <= q < p + 1 ensures s[q].0 < x.0 {
        if q > 0 {
          assert s[q] == s[1..][q - 1];
        }
      }
    }
  }

  /** The elements of `r[..p] + [x] + r[p..]`, by position. */
  lemma SpliceAt<T>(r: seq<T>, p: int, x: T, q: int)
    requires 0 <= p <= |r| && 0 <= q <= |r|
    ensures (r[..p] + [x] + r[p..])[q] == if q < p then r[q] else if q == p then x else r[q - 1]
  {
  }

  /** Elements of equal key come out of the sort in their input order: two of them at
      positions `i < j` of the sorted sequence stand at positions `a < b` of the input. */
  lemma {:induction false} SortTies<T>(s: seq<(real, T)>, i: int, j: int)
    requires 0 <= i < j < |s| && SortByKey(s)[i].0 == SortByKey(s)[j].0
    ensures exists a, b :: 0 <= a < b < |s| && s[a] == SortByKey(s)[i] && s[b] == SortByKey(s)[j]
    decreases |s|
  {
    var rest := SortByKey(s[1..]);
    var srt := SortByKey(s);
    var p := InsertPos(s[0], rest);
    InsertShape(s[0], rest);
    SpliceAt(rest, p, s[0], i);
    SpliceAt(rest, p, s[0], j);
    if i == p {
      SortMember(s[1..], j - 1);
      var b :| 0 <= b < |s[1..]| && s[1..][b] == rest[j - 1];
      assert s[0] == srt[i] && s[b + 1] == srt[j];
    } else if j == p {
      assert false;
    } else {
      var i' := if i < p then i else i - 1;
      var j' := if j < p then j else j - 1;
      SortTies(s[1..], i', j');
      var a, b :| 0 <= a < b < |s[1..]| && s[1..][a] == rest[i'] && s[1..][b] == rest[j'];
      assert s[a + 1] == srt[i] && s[b + 1] == srt[j];
    }
  }

  /** The second components, in order. */
  function Values<T>(s: seq<(real, T)>): (r: seq<T>)
    ensures |r| == |s| && forall i :: 0 <= i < |s| ==> r[i] == s[i].1
  {
    seq(|s|, i requires 0 <= i < |s| => s[i].1)
  }

  /** Python's `s[:k]`: a negative `k` counts from the end. */
  function Take<T>(s: seq<T>, k: int): (r: seq<T>)
    ensures k >= 0 ==> r == s[..if k <= |s| then k else |s|]
    ensures k < 0 ==> r == s[..if |s| + k >= 0 then |s| + k else 0]
  {
    if k >= 0 then (if k <= |s| then s[..k] else s)
    else if |s| + k >= 0 then s[..|s| + k] else []
  }
}
