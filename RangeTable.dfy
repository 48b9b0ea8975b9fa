/**
 * A position's range object (lib/ranges): its lookup by key, the combo
 * count of a notation, and the combo-weighted size getRangePercentage sums.
 */
module RangeTable {
  import opened Types
  import opened Cards

  /** `range[hand]`: the action stored under that key, if there is one. */
  function Lookup(range: PositionRange, hand: string): (r: Option<RangeAction>)
    ensures r.None? <==> forall i :: 0 <= i < |range| ==> range[i].hand != hand
    ensures r.Some? ==> exists i :: 0 <= i < |range| && range[i].hand == hand && range[i].action == r.value
  {
    if |range| == 0 then None
    else if range[0].hand == hand then Some(range[0].action)
    else
      var r := Lookup(range[1..], hand);
      assert forall i :: 1 <= i < |range| ==> range[i] == range[1..][i - 1];
      r
  }

  /** An entry no earlier entry shadows is what the lookup of its key returns. */
  lemma {:induction false} LookupFirst(range: PositionRange, k: nat)
    requires k < |range|
    requires forall j :: 0 <= j < k ==> range[j].hand != range[k].hand
    ensures Lookup(range, range[k].hand) == Some(range[k].action)
  {
    if k > 0 {
      var rest := range[1..];
      assert rest[k - 1] == range[k];
      assert forall j :: 0 <= j < k - 1 ==> rest[j] == range[j + 1];
      LookupFirst(rest, k - 1);
    }
  }

  /** No key occurs twice, as in an object literal, so which duplicate the lookup keeps never matters. */
  predicate KeysDistinct(range: PositionRange)
  {
    forall i, j :: 0 <= i < j < |range| ==> range[i].hand != range[j].hand
  }

  /** No key of `a` is a key of `b`. */
  predicate KeysApart(a: PositionRange, b: PositionRange)
  {
    forall i, j :: 0 <= i < |a| && 0 <= j < |b| ==> a[i].hand != b[j].hand
  }

  lemma KeysDistinctAppend(a: PositionRange, b: PositionRange)
    requires KeysDistinct(a) && KeysDistinct(b) && KeysApart(a, b)
    ensures KeysDistinct(a + b)
  {
    forall i, j | 0 <= i < j < |a + b| ensures (a + b)[i].hand != (a + b)[j].hand {
      if j < |a| {
        assert (a + b)[i] == a[i] && (a + b)[j] == a[j];
      } else if i < |a| {
        assert (a + b)[i] == a[i] && (a + b)[j] == b[j - |a|];
      } else {
        assert (a + b)[i] == b[i - |a|] && (a + b)[j] == b[j - |a|];
      }
    }
  }

  lemma KeysApartAppend(a: PositionRange, b: PositionRange, c: PositionRange)
    requires KeysApart(a, c) && KeysApart(b, c)
    ensures KeysApart(a + b, c)
  {
    forall i, j | 0 <= i < |a + b| && 0 <= j < |c| ensures (a + b)[i].hand != c[j].hand {
      if i < |a| {
        assert (a + b)[i] == a[i];
      } else {
        assert (a + b)[i] == b[i - |a|];
      }
    }
  }

  /** Any two entries differ in one of the first two characters of their keys. */
  predicate PrefixesDistinct(range: PositionRange)
  {
    forall i, j :: 0 <= i < j < |range| ==>
      && 2 <= |range[i].hand| && 2 <= |range[j].hand|
      && (range[i].hand[0] != range[j].hand[0] || range[i].hand[1] != range[j].hand[1])
  }

  lemma DistinctByPrefix(range: PositionRange)
    requires PrefixesDistinct(range)
    ensures KeysDistinct(range)
  {
  }

  /** Every key names hands of type t. */
  predicate AllOfType(range: PositionRange, t: HandType)
  {
    forall i :: 0 <= i < |range| ==> NotationType(range[i].hand) == t
  }

  lemma ApartByType(a: PositionRange, b: PositionRange, ta: HandType, tb: HandType)
    requires AllOfType(a, ta) && AllOfType(b, tb) && ta != tb
    ensures KeysApart(a, b)
  {
  }

  /** Every key has a character from cs at position p. */
  predicate CharsAt(range: PositionRange, p: nat, cs: set<char>)
  {
    forall i :: 0 <= i < |range| ==> p < |range[i].hand| && range[i].hand[p] in cs
  }

  lemma ApartByChar(a: PositionRange, b: PositionRange, p: nat, ca: set<char>, cb: set<char>)
    requires CharsAt(a, p, ca) && CharsAt(b, p, cb) && ca !! cb
    ensures KeysApart(a, b)
  {
    forall i, j | 0 <= i < |a| && 0 <= j < |b| ensures a[i].hand != b[j].hand {
      assert a[i].hand[p] in ca && b[j].hand[p] in cb;
    }
  }

  /** With distinct keys the lookup of every entry's key finds that entry. */
  lemma LookupEvery(range: PositionRange)
    requires KeysDistinct(range)
    ensures forall k :: 0 <= k < |range| ==> Lookup(range, range[k].hand) == Some(range[k].action)
  {
    forall k | 0 <= k < |range| ensures Lookup(range, range[k].hand) == Some(range[k].action) {
      LookupFirst(range, k);
    }
  }

  /** getHandCombos: 6 for a two-character notation, 4 for one ending in "s", 12 otherwise. */
  function GetHandCombos(hand: string): nat
  {
    if |hand| == 2 then 6 else if EndsWith(hand, 's') then 4 else 12
  }

  /** On every canonical notation getHandCombos counts exactly the combos getAllCombos lists. */
  lemma HandCombosCountCombos(h: string)
    requires Canonical(h)
    ensures GetHandCombos(h) == |CombosOf(h)| == ComboCount(NotationType(h))
  {
    CanonicalRewrites(h);
    CombosOfNotation(CharToRank(h[0]).value, CharToRank(h[1]).value, NotationType(h));
  }

  /** An entry's share of the combos, in hundredths: `combos * (raise + call)`. */
  function Weight(e: RangeEntry): int
  {
    GetHandCombos(e.hand) * (e.action.raise + e.action.call)
  }

  /** Sum of the entries' weights: 100 times the inRangeCombos of getRangePercentage. */
  function WeightedCombos(range: PositionRange): int
  {
    if |range| == 0 then 0 else Weight(range[0]) + WeightedCombos(range[1..])
  }

  lemma {:induction false} WeightedCombosAppend(a: PositionRange, b: PositionRange)
    ensures WeightedCombos(a + b) == WeightedCombos(a) + WeightedCombos(b)
  {
    if |a| == 0 {
      assert a + b == b;
    } else {
      assert (a + b)[0] == a[0];
      assert (a + b)[1..] == a[1..] + b;
      WeightedCombosAppend(a[1..], b);
    }
  }

  /** Frequencies are never negative. */
  predicate NonNegative(a: RangeAction)
  {
    a.raise >= 0 && a.call >= 0 && a.fold >= 0
  }

  /** With frequencies that are never negative the weighted size lies between 0 and 12 * 200 per entry. */
  lemma {:induction false} WeightedCombosBounds(range: PositionRange)
    requires forall i :: 0 <= i < |range| ==> NonNegative(range[i].action) && range[i].action.raise + range[i].action.call <= 100
    ensures 0 <= WeightedCombos(range) <= 1200 * |range|
  {
    if |range| > 0 {
      assert forall i :: 1 <= i < |range| ==> range[1..][i - 1] == range[i];
      WeightedCombosBounds(range[1..]);
    }
  }

  /**
   * What the UTG and MP tables hold in every entry: the three frequencies
   * add up to 100, nobody calls, the raise is a quarter step, and the key
   * is a canonical notation.
   */
  predicate RaiseOrFoldEntry(e: RangeEntry)
  {
    && e.action.raise + e.action.call + e.action.fold == 100
    && e.action.call == 0
    && (e.action.raise == 25 || e.action.raise == 50 || e.action.raise == 75 || e.action.raise == 100)
    && Canonical(e.hand)
  }

  predicate RaiseOrFoldTable(range: PositionRange)
  {
    forall i :: 0 <= i < |range| ==> RaiseOrFoldEntry(range[i])
  }

  lemma RaiseOrFoldAppend(a: PositionRange, b: PositionRange)
    requires RaiseOrFoldTable(a) && RaiseOrFoldTable(b)
    ensures RaiseOrFoldTable(a + b)
  {
    forall i | 0 <= i < |a + b| ensures RaiseOrFoldEntry((a + b)[i]) {
      if i >= |a| {
        assert (a + b)[i] == b[i - |a|];
      }
    }
  }

  /** Every key names a second rank worth at least `v`. */
  predicate LowCardAtLeast(range: PositionRange, v: int)
  {
    forall i :: 0 <= i < |range| ==> |range[i].hand| >= 2 && CharValue(range[i].hand[1]) >= v
  }

  lemma LowCardAppend(a: PositionRange, b: PositionRange, v: int)
    requires LowCardAtLeast(a, v) && LowCardAtLeast(b, v)
    ensures LowCardAtLeast(a + b, v)
  {
    forall i | 0 <= i < |a + b| ensures |(a + b)[i].hand| >= 2 && CharValue((a + b)[i].hand[1]) >= v {
      if i >= |a| {
        assert (a + b)[i] == b[i - |a|];
      } else {
        assert (a + b)[i] == a[i];
      }
    }
  }
}
