/** Sequence operations the source performs with Array.prototype.filter and Array.from(new Set(...)). */
module Seqs {

  /** r is obtained from s by deleting elements; the survivors keep their order. */
  ghost predicate Subsequence<T>(r: seq<T>, s: seq<T>)
    decreases |s|
  {
    r == [] || (s != [] && ((r[0] == s[0] && Subsequence(r[1..], s[1..])) || Subsequence(r, s[1..])))
  }

  ghost predicate NoDup<T>(s: seq<T>) {
    forall i, j :: 0 <= i < j < |s| ==> s[i] != s[j]
  }

  /** The elements of s that satisfy p, in their order in s. */
  function Filter<T>(s: seq<T>, p: T -> bool): (r: seq<T>)
    ensures |r| <= |s|
    ensures forall k :: 0 <= k < |r| ==> r[k] in s && p(r[k])
    ensures forall k :: 0 <= k < |s| && p(s[k]) ==> s[k] in r
    ensures forall k :: 0 <= k < |s| && p(s[k]) ==> multiset(r)[s[k]] == multiset(s)[s[k]]
    ensures Subsequence(r, s)
    decreases |s|
  {
    if s == [] then []
    else
      assert s == [s[0]] + s[1..];
      if p(s[0]) then [s[0]] + Filter(s[1..], p) else Filter(s[1..], p)
  }

  /** Position of the first occurrence of x in s. */
  ghost function IndexOf<T>(s: seq<T>, x: T): (k: nat)
    requires x in s
    ensures k < |s| && s[k] == x && x !in s[..k]
    decreases |s|
  {
    if s[0] == x then 0
    else
      assert s[1..][..IndexOf(s[1..], x)] == s[1..1 + IndexOf(s[1..], x)];
      1 + IndexOf(s[1..], x)
  }

  /** The distinct elements of s, each at the place of its first occurrence (Set insertion order). */
  function Dedup<T(==)>(s: seq<T>): (r: seq<T>)
    ensures forall k :: 0 <= k < |r| ==> r[k] in s
    ensures forall k :: 0 <= k < |s| ==> s[k] in r
    ensures NoDup(r)
    decreases |s|
  {
    if s == [] then []
    else
      var init, last := s[..|s| - 1], s[|s| - 1];
      assert s == init + [last];
      var d := Dedup(init);
      if last in d then d else d + [last]
  }

  /** Dedup keeps the order of s. */
  lemma {:induction false} DedupSubsequence<T>(s: seq<T>)
    ensures Subsequence(Dedup(s), s)
    decreases |s|
  {
    if s != [] {
      var init, last := s[..|s| - 1], s[|s| - 1];
      assert s == init + [last];
      DedupSubsequence(init);
      SubsequenceAppendRight(Dedup(init), init, [last]);
      SubsequenceSnoc(Dedup(init), init, last);
    }
  }

  /** Dedup lists the distinct elements in the order of their first occurrences. */
  lemma {:induction false} DedupFirstOccurrenceOrder<T>(s: seq<T>)
    ensures forall i, j :: 0 <= i < j < |Dedup(s)| ==> IndexOf(s, Dedup(s)[i]) < IndexOf(s, Dedup(s)[j])
    decreases |s|
  {
    if s != [] {
      var init, last := s[..|s| - 1], s[|s| - 1];
      assert s == init + [last];
      var d := Dedup(init);
      DedupFirstOccurrenceOrder(init);
      IndexOfPrefixAll(s, |s| - 1, d);
      if last !in d {
        assert IndexOf(s, last) == |s| - 1;
        assert Dedup(s) == d + [last];
        forall i, j | 0 <= i < j < |Dedup(s)|
          ensures IndexOf(s, Dedup(s)[i]) < IndexOf(s, Dedup(s)[j])
        {
          if j < |d| {
            assert Dedup(s)[i] == d[i] && Dedup(s)[j] == d[j];
          } else {
            assert Dedup(s)[i] == d[i] && d[i] in d;
          }
        }
      }
    }
  }

  lemma {:induction false} FilterAllPass<T>(s: seq<T>, p: T -> bool)
    requires forall x :: x in s ==> p(x)
    ensures Filter(s, p) == s
    decreases |s|
  {
    if s != [] {
      assert s[0] in s;
      assert forall x :: x in s[1..] ==> x in s;
      FilterAllPass(s[1..], p);
    }
  }

  lemma FilterIdempotent<T>(s: seq<T>, p: T -> bool)
    ensures Filter(Filter(s, p), p) == Filter(s, p)
  {
    FilterAllPass(Filter(s, p), p);
  }

  lemma {:induction false} FilterAppend<T>(a: seq<T>, b: seq<T>, p: T -> bool)
    ensures Filter(a + b, p) == Filter(a, p) + Filter(b, p)
    decreases |a|
  {
    if a == [] {
      assert a + b == b;
    } else {
      assert (a + b)[0] == a[0];
      assert (a + b)[1..] == a[1..] + b;
      FilterAppend(a[1..], b, p);
    }
  }

  lemma {:induction false} SubsequenceAppendRight<T>(r: seq<T>, t: seq<T>, u: seq<T>)
    requires Subsequence(r, t)
    ensures Subsequence(r, t + u)
    decreases |t|
  {
    if r != [] {
      assert (t + u)[0] == t[0];
      assert (t + u)[1..] == t[1..] + u;
      if r[0] == t[0] && Subsequence(r[1..], t[1..]) {
        SubsequenceAppendRight(r[1..], t[1..], u);
      } else {
        SubsequenceAppendRight(r, t[1..], u);
      }
    }
  }

  lemma {:induction false} SubsequenceSnoc<T>(r: seq<T>, t: seq<T>, x: T)
    requires Subsequence(r, t)
    ensures Subsequence(r + [x], t + [x])
    decreases |t|
  {
    if t == [] {
      assert r == [];
      assert ([x] + [])[1..] == [];
    } else {
      assert (t + [x])[0] == t[0];
      assert (t + [x])[1..] == t[1..] + [x];
      if r == [] {
        SubsequenceSnoc(r, t[1..], x);
        assert r + [x] == [x];
      } else {
        assert (r + [x])[0] == r[0];
        assert (r + [x])[1..] == r[1..] + [x];
        if r[0] == t[0] && Subsequence(r[1..], t[1..]) {
          SubsequenceSnoc(r[1..], t[1..], x);
        } else {
          SubsequenceSnoc(r, t[1..], x);
        }
      }
    }
  }

  /** First occurrences inside a prefix are first occurrences of the whole sequence. */
  lemma {:induction false} IndexOfPrefix<T>(s: seq<T>, m: nat, x: T)
    requires m <= |s| && x in s[..m]
    ensures x in s && IndexOf(s, x) == IndexOf(s[..m], x)
    decreases m
  {
    assert s[..m][0] == s[0];
    if s[0] != x {
      assert s[..m][1..] == s[1..][..m - 1];
      IndexOfPrefix(s[1..], m - 1, x);
    }
  }

  lemma IndexOfPrefixAll<T>(s: seq<T>, m: nat, d: seq<T>)
    requires m <= |s| && forall x :: x in d ==> x in s[..m]
    ensures forall x :: x in d ==> x in s && IndexOf(s, x) == IndexOf(s[..m], x)
  {
    forall x | x in d
      ensures x in s && IndexOf(s, x) == IndexOf(s[..m], x)
    {
      IndexOfPrefix(s, m, x);
    }
  }

  /** Deduplication leaves a duplicate-free sequence unchanged. */
  lemma {:induction false} DedupNoDup<T>(s: seq<T>)
    requires NoDup(s)
    ensures Dedup(s) == s
    decreases |s|
  {
    if s != [] {
      var init := s[..|s| - 1];
      assert s == init + [s[|s| - 1]];
      DedupNoDup(init);
      assert s[|s| - 1] !in init;
    }
  }

  /** Dedup(a) is a prefix of Dedup(a + b): later additions never reorder earlier elements. */
  lemma {:induction false} DedupPrefix<T>(a: seq<T>, b: seq<T>)
    ensures |Dedup(a)| <= |Dedup(a + b)| && Dedup(a + b)[..|Dedup(a)|] == Dedup(a)
    decreases |b|
  {
    if b == [] {
      assert a + b == a;
    } else {
      var c := a + b;
      var b' := b[..|b| - 1];
      assert c[..|c| - 1] == a + b';
      DedupPrefix(a, b');
    }
  }
}
