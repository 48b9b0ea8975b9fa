/**
 * The array operations the evaluator relies on: a stable sort by a numeric
 * key (Array.prototype.sort with a `(a, b) => key(b) - key(a)` comparator),
 * the first-occurrence order of `Array.from(new Set(s))`, a `filter` that
 * drops one value, and `slice(0, n)`.
 */
module Lists {
  import opened Sequences

  /** Highest key first. */
  predicate SortedBy<T>(s: seq<T>, key: T -> int)
  {
    forall i, j :: 0 <= i < j < |s| ==> key(s[i]) >= key(s[j])
  }

  /** Insertion in front of the first element with a key not above x's (stable for the earlier x). */
  function InsertBy<T>(x: T, s: seq<T>, key: T -> int): (r: seq<T>)
    ensures |r| == |s| + 1
  {
    if |s| == 0 || key(s[0]) <= key(x) then [x] + s
    else [s[0]] + InsertBy(x, s[1..], key)
  }

  /** The stable descending sort by key. */
  function SortBy<T>(s: seq<T>, key: T -> int): (r: seq<T>)
    ensures |r| == |s|
  {
    if |s| == 0 then [] else InsertBy(s[0], SortBy(s[1..], key), key)
  }

  lemma {:induction false} InsertByPermutes<T>(x: T, s: seq<T>, key: T -> int)
    ensures multiset(InsertBy(x, s, key)) == multiset(s) + multiset{x}
  {
    if |s| > 0 && key(s[0]) > key(x) {
      InsertByPermutes(x, s[1..], key);
      assert s == [s[0]] + s[1..];
    }
  }

  lemma {:induction false} InsertByMembers<T>(x: T, s: seq<T>, key: T -> int)
    ensures forall y :: y in InsertBy(x, s, key) ==> y == x || y in s
  {
    if |s| > 0 && key(s[0]) > key(x) {
      InsertByMembers(x, s[1..], key);
    }
  }

  lemma {:induction false} InsertBySorted<T>(x: T, s: seq<T>, key: T -> int)
    requires SortedBy(s, key)
    ensures SortedBy(InsertBy(x, s, key), key)
  {
    if |s| > 0 && key(s[0]) > key(x) {
      SortedSlices(s, 0, key);
      InsertBySorted(x, s[1..], key);
      InsertByMembers(x, s[1..], key);
      var t := InsertBy(x, s[1..], key);
      forall k | 0 <= k < |t| ensures key(s[0]) >= key(t[k]) {
        assert t[k] in t;
        if t[k] != x {
          var m :| 0 <= m < |s[1..]| && s[1..][m] == t[k];
          assert s[1..][m] == s[m + 1];
        }
      }
      var r := [s[0]] + t;
      forall i, j | 0 <= i < j < |r| ensures key(r[i]) >= key(r[j]) {
        assert r[j] == t[j - 1];
        if i > 0 {
          assert r[i] == t[i - 1];
        }
      }
    }
  }

  /** SortBy returns the sorted rearrangement of its input. */
  lemma {:induction false} SortByFacts<T>(s: seq<T>, key: T -> int)
    ensures SortedBy(SortBy(s, key), key)
    ensures multiset(SortBy(s, key)) == multiset(s)
  {
    if |s| > 0 {
      SortByFacts(s[1..], key);
      InsertBySorted(s[0], SortBy(s[1..], key), key);
      InsertByPermutes(s[0], SortBy(s[1..], key), key);
      assert s == [s[0]] + s[1..];
    }
  }

  /** Array.from(new Set(s)): each value once, at its first occurrence. */
  function Dedup<T(==)>(s: seq<T>): (r: seq<T>)
    ensures |r| <= |s|
  {
    if |s| == 0 then []
    else
      var front := Dedup(s[..|s| - 1]);
      if s[|s| - 1] in s[..|s| - 1] then front else front + [s[|s| - 1]]
  }

  lemma {:induction false} DedupFacts<T>(s: seq<T>)
    ensures NoDup(Dedup(s))
    ensures forall x :: x in Dedup(s) <==> x in s
  {
    if |s| > 0 {
      var p := s[..|s| - 1];
      DedupFacts(p);
      assert s == p + [s[|s| - 1]];
      if s[|s| - 1] !in p {
        NoDupAppend(Dedup(p), [s[|s| - 1]]);
      }
    }
  }

  /** The elements of s that differ from x, in order (`filter(r => r !== x)`). */
  function Without<T(==)>(s: seq<T>, x: T): (r: seq<T>)
    ensures |r| <= |s|
  {
    if |s| == 0 then []
    else (if s[0] == x then [] else [s[0]]) + Without(s[1..], x)
  }

  /** `slice(0, n)`. */
  function Take<T>(s: seq<T>, n: nat): (r: seq<T>)
  {
    if |s| <= n then s else s[..n]
  }

  /** Without drops exactly the copies of x. */
  lemma {:induction false} WithoutFacts<T>(s: seq<T>, x: T)
    ensures |Without(s, x)| == |s| - multiset(s)[x]
    ensures x !in Without(s, x)
    ensures forall y :: y in Without(s, x) ==> y in s
  {
    if |s| > 0 {
      WithoutFacts(s[1..], x);
      assert s == [s[0]] + s[1..];
    }
  }

  /** Dropping elements keeps a sorted sequence sorted. */
  lemma {:induction false} WithoutSorted<T>(s: seq<T>, x: T, key: T -> int)
    requires SortedBy(s, key)
    ensures SortedBy(Without(s, x), key)
  {
    if |s| > 0 {
      assert SortedBy(s[1..], key) by {
        forall i, j | 0 <= i < j < |s[1..]| ensures key(s[1..][i]) >= key(s[1..][j]) {
          assert s[1..][i] == s[i + 1] && s[1..][j] == s[j + 1];
        }
      }
      WithoutSorted(s[1..], x, key);
      WithoutFacts(s[1..], x);
      var w := Without(s[1..], x);
      forall k | 0 <= k < |w| ensures key(s[0]) >= key(w[k]) {
        assert w[k] in s[1..];
        var m :| 0 <= m < |s[1..]| && s[1..][m] == w[k];
        assert s[1..][m] == s[m + 1];
      }
    }
  }

  /** A prefix or suffix of a sorted sequence is sorted. */
  lemma SortedSlices<T>(s: seq<T>, n: nat, key: T -> int)
    requires SortedBy(s, key)
    ensures SortedBy(Take(s, n), key)
    ensures |s| > 0 ==> SortedBy(s[1..], key)
  {
    if |s| > 0 {
      forall i, j | 0 <= i < j < |s[1..]| ensures key(s[1..][i]) >= key(s[1..][j]) {
        assert s[1..][i] == s[i + 1] && s[1..][j] == s[j + 1];
      }
    }
  }
}
