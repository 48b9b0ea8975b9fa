/** Small facts about sequences used by several modules. */
module Sequences {

  /** No element occurs twice. */
  predicate NoDup<T(==)>(s: seq<T>)
  {
    forall i, j :: 0 <= i < j < |s| ==> s[i] != s[j]
  }

  /** The two sequences share no element. */
  predicate Disjoint<T(==)>(a: seq<T>, b: seq<T>)
  {
    forall x :: x in a ==> x !in b
  }

  lemma NoDupAppend<T>(a: seq<T>, b: seq<T>)
    requires NoDup(a) && NoDup(b) && Disjoint(a, b)
    ensures NoDup(a + b)
  {
    forall i, j | 0 <= i < j < |a + b|
      ensures (a + b)[i] != (a + b)[j]
    {
      if j < |a| {
      } else if i < |a| {
        assert (a + b)[i] in a;
        assert (a + b)[j] == b[j - |a|];
      }
    }
  }

  /** A sequence without repetitions holds each of its elements exactly once. */
  lemma {:induction false} NoDupMultiplicity<T>(s: seq<T>, x: T)
    requires NoDup(s)
    ensures multiset(s)[x] == if x in s then 1 else 0
  {
    if |s| > 0 {
      assert s == [s[0]] + s[1..];
      assert NoDup(s[1..]) by {
        forall i, j | 0 <= i < j < |s[1..]| ensures s[1..][i] != s[1..][j] {
          assert s[1..][i] == s[i + 1] && s[1..][j] == s[j + 1];
        }
      }
      NoDupMultiplicity(s[1..], x);
      assert s[0] !in s[1..] by {
        forall k | 0 <= k < |s[1..]| ensures s[1..][k] != s[0] {
          assert s[1..][k] == s[k + 1];
        }
      }
    }
  }

  /** Two positions holding v give v multiplicity at least two. */
  lemma TwoPositions<T>(s: seq<T>, p: nat, q: nat)
    requires p < q < |s| && s[p] == s[q]
    ensures multiset(s)[s[p]] >= 2
  {
    assert s == s[..q] + [s[q]] + s[q + 1..];
    assert s[p] in s[..q] by { assert s[..q][p] == s[p]; }
  }

  /** Multiplicity two means two positions. */
  lemma {:induction false} PositionsOfTwo<T>(s: seq<T>, v: T)
    requires multiset(s)[v] >= 2
    ensures exists p, q :: 0 <= p < q < |s| && s[p] == v && s[q] == v
  {
    assert s == [s[0]] + s[1..];
    if s[0] == v {
      assert v in s[1..];
      var k :| 0 <= k < |s[1..]| && s[1..][k] == v;
      assert s[k + 1] == v;
    } else {
      PositionsOfTwo(s[1..], v);
      var p, q :| 0 <= p < q < |s[1..]| && s[1..][p] == v && s[1..][q] == v;
      assert s[p + 1] == v && s[q + 1] == v;
    }
  }

  /** Copies of two different values fit in the sequence; they fill it when nothing else occurs. */
  lemma {:induction false} CountPairBound<T>(s: seq<T>, x: T, y: T)
    requires x != y
    ensures multiset(s)[x] + multiset(s)[y] <= |s|
    ensures (forall z :: z in s ==> z == x || z == y) ==> multiset(s)[x] + multiset(s)[y] == |s|
  {
    if |s| > 0 {
      var rest := s[1..];
      CountPairBound(rest, x, y);
      assert s == [s[0]] + rest;
      assert multiset(s) == multiset{s[0]} + multiset(rest);
      if forall z :: z in s ==> z == x || z == y {
        assert forall z :: z in rest ==> z == x || z == y by {
          forall z | z in rest ensures z == x || z == y {
            assert z in s;
          }
        }
        assert s[0] in s;
      }
    }
  }

  lemma {:induction false} CountTripleBound<T>(s: seq<T>, x: T, y: T, z: T)
    requires x != y && y != z && x != z
    ensures multiset(s)[x] + multiset(s)[y] + multiset(s)[z] <= |s|
  {
    if |s| > 0 {
      CountTripleBound(s[1..], x, y, z);
      assert s == [s[0]] + s[1..];
    }
  }

  /** When two values do not account for every element, a third one occurs. */
  lemma ThirdValue<T>(s: seq<T>, x: T, y: T)
    requires x != y && multiset(s)[x] + multiset(s)[y] < |s|
    ensures exists z :: z in s && z != x && z != y
  {
    CountPairBound(s, x, y);
  }

  /** A sequence whose elements each occur at most once has no repetition. */
  lemma NoDupOfMultiplicity<T>(s: seq<T>)
    requires forall x :: multiset(s)[x] <= 1
    ensures NoDup(s)
  {
    forall p, q | 0 <= p < q < |s| ensures s[p] != s[q] {
      if s[p] == s[q] {
        TwoPositions(s, p, q);
        assert false;
      }
    }
  }

  /** A rearrangement of a sequence without repetitions has none either. */
  lemma NoDupPermutation<T>(s: seq<T>, t: seq<T>)
    requires NoDup(s) && multiset(t) == multiset(s)
    ensures NoDup(t)
  {
    forall x ensures multiset(t)[x] <= 1 {
      NoDupMultiplicity(s, x);
    }
    NoDupOfMultiplicity(t);
  }

  /** A sequence has at least as many positions as distinct elements. */
  lemma {:induction false} SetCardBound<T>(s: seq<T>)
    ensures |set x | x in s| <= |s|
  {
    if |s| > 0 {
      SetCardBound(s[1..]);
      assert (set x | x in s) == {s[0]} + (set x | x in s[1..]);
    }
  }

  /** As many distinct elements as positions means no repetition. */
  lemma SetCardNoDup<T>(s: seq<T>)
    requires |set x | x in s| == |s|
    ensures NoDup(s)
  {
    forall p, q | 0 <= p < q < |s| ensures s[p] != s[q] {
      if s[p] == s[q] {
        var t := s[..q] + s[q + 1..];
        assert (set x | x in s) <= (set x | x in t) by {
          forall k | 0 <= k < |s| ensures s[k] in t {
            if k < q {
              assert t[k] == s[k];
            } else if k == q {
              assert t[p] == s[k];
            } else {
              assert t[k - 1] == s[k];
            }
          }
        }
        SetCardBound(t);
        SubsetCard(set x | x in s, set x | x in t);
        assert false;
      }
    }
  }

  lemma {:induction false} SubsetCard<T>(a: set<T>, b: set<T>)
    requires a <= b
    ensures |a| <= |b|
    decreases |a|
  {
    if a != {} {
      var x :| x in a;
      SubsetCard(a - {x}, b - {x});
    }
  }

  /** Without repetitions, the positions and the distinct elements are as many. */
  lemma {:induction false} NoDupSetCard<T>(s: seq<T>)
    requires NoDup(s)
    ensures |set x | x in s| == |s|
  {
    if |s| > 0 {
      var rest := s[1..];
      assert NoDup(rest) by {
        forall p, q | 0 <= p < q < |rest| ensures rest[p] != rest[q] {
          assert rest[p] == s[p + 1] && rest[q] == s[q + 1];
        }
      }
      NoDupSetCard(rest);
      assert s[0] !in rest by {
        forall k | 0 <= k < |rest| ensures rest[k] != s[0] {
          assert rest[k] == s[k + 1];
        }
      }
      assert (set x | x in s) == {s[0]} + (set x | x in rest);
    }
  }
}
