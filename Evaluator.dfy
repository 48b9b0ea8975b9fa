/**
 * The five-card evaluator of lib/handStrength.ts: category scores, the
 * straight test, rank counting with the engine's object-key order, and the
 * category cascade with its kicker lists, quirks included (a suited
 * A-5-4-3-2 passes the royal-flush test because its top value is 14).
 */
module Evaluator {
  import opened Types
  import opened Sequences
  import opened Lists
  import opened Cards

  /** getHandRankValue: the category's place in the ten-step table. */
  function GetHandRankValue(rank: MadeHandRank): (v: int)
    ensures 1 <= v <= 10
  {
    match rank
    case HighCard => 1
    case OnePair => 2
    case TwoPair => 3
    case ThreeOfAKind => 4
    case Straight => 5
    case Flush => 6
    case FullHouse => 7
    case FourOfAKind => 8
    case StraightFlush => 9
    case RoyalFlush => 10
  }

  /** getHandScore: a second copy of the same table, read through a hand. */
  function GetHandScore(hand: HandStrength): (s: int)
    ensures 1 <= s <= 10
  {
    match hand.rank
    case HighCard => 1
    case OnePair => 2
    case TwoPair => 3
    case ThreeOfAKind => 4
    case Straight => 5
    case Flush => 6
    case FullHouse => 7
    case FourOfAKind => 8
    case StraightFlush => 9
    case RoyalFlush => 10
  }

  /** Both tables give the same number, and the i-th declared category scores i + 1. */
  lemma ScoreTables(hand: HandStrength)
    ensures GetHandScore(hand) == GetHandRankValue(hand.rank)
    ensures forall i :: 0 <= i < |Categories| ==> GetHandRankValue(Categories[i]) == i + 1
  {
  }

  /** So the scores order the categories strictly, and no two categories share one. */
  lemma ScoresStrictlyIncrease(a: MadeHandRank, b: MadeHandRank)
    ensures GetHandRankValue(a) == GetHandRankValue(b) <==> a == b
    ensures forall i, j :: 0 <= i < j < |Categories| ==> GetHandRankValue(Categories[i]) < GetHandRankValue(Categories[j])
  {
    ScoreTables(HandStrength(a, []));
  }

  // ----- checkStraight -----

  function Id(v: int): int { v }

  /** `Array.from(new Set(values)).sort((a, b) => b - a)`. */
  function DistinctDesc(values: seq<int>): seq<int>
  {
    SortBy(Dedup(values), Id)
  }

  /** Some five consecutive entries of the sorted list span exactly 4. */
  predicate StraightWindow(sorted: seq<int>)
  {
    exists i :: 0 <= i && i + 4 < |sorted| && sorted[i] - sorted[i + 4] == 4
  }

  predicate HasWheel(vs: seq<int>)
  {
    14 in vs && 5 in vs && 4 in vs && 3 in vs && 2 in vs
  }

  /** What checkStraight answers. */
  predicate IsStraight(values: seq<int>)
  {
    var sorted := DistinctDesc(values);
    (|sorted| >= 5 && StraightWindow(sorted)) || HasWheel(sorted)
  }

  /** checkStraight: the windows scanned with an early return, then the wheel. */
  method CheckStraight(values: seq<int>) returns (b: bool)
    ensures b == IsStraight(values)
  {
    var sorted := DistinctDesc(values);
    if |sorted| >= 5 {
      for i := 0 to |sorted| - 4
        invariant forall k :: 0 <= k < i ==> sorted[k] - sorted[k + 4] != 4
      {
        if sorted[i] - sorted[i + 4] == 4 {
          return true;
        }
      }
    }
    if 14 in sorted && 5 in sorted && 4 in sorted && 3 in sorted && 2 in sorted {
      return true;
    }
    return false;
  }

  /** x, x-1, ..., x-4 all occur. */
  predicate RunFrom(vs: seq<int>, x: int)
  {
    x in vs && x - 1 in vs && x - 2 in vs && x - 3 in vs && x - 4 in vs
  }

  /** Five consecutive values, or the wheel A-5-4-3-2. */
  ghost predicate HasRun(vs: seq<int>)
  {
    (exists x :: RunFrom(vs, x)) || HasWheel(vs)
  }

  predicate StrictlyDesc(s: seq<int>)
  {
    forall i, j :: 0 <= i < j < |s| ==> s[i] > s[j]
  }

  /** Distinct values sorted descending drop by at least one per step. */
  lemma {:induction false} StrictGap(s: seq<int>, i: nat, j: nat)
    requires StrictlyDesc(s)
    requires i <= j < |s|
    ensures s[i] - s[j] >= j - i
    decreases j - i
  {
    if i < j {
      StrictGap(s, i + 1, j);
    }
  }

  /** In a strictly descending list a smaller value sits further right. */
  lemma IndexOrder(s: seq<int>, p: nat, q: nat)
    requires StrictlyDesc(s)
    requires p < |s| && q < |s| && s[p] > s[q]
    ensures p < q
  {
  }

  lemma DistinctDescMembers(values: seq<int>)
    ensures forall v :: v in DistinctDesc(values) <==> v in values
  {
    var d := Dedup(values);
    DedupFacts(values);
    SortByFacts(d, Id);
    var s := SortBy(d, Id);
    forall v ensures v in s <==> v in d {
      assert v in s <==> v in multiset(s);
    }
  }

  lemma DistinctDescStrict(values: seq<int>)
    ensures StrictlyDesc(DistinctDesc(values))
  {
    var d := Dedup(values);
    DedupFacts(values);
    SortByFacts(d, Id);
    var s := SortBy(d, Id);
    forall i, j | 0 <= i < j < |s| ensures s[i] > s[j] {
      assert Id(s[i]) >= Id(s[j]);
      if s[i] == s[j] {
        assert multiset(s)[s[i]] >= 2 by {
          assert s == s[..i] + [s[i]] + s[i + 1..];
          assert s[j] in s[i + 1..] by { assert s[i + 1..][j - i - 1] == s[j]; }
        }
        NoDupMultiplicity(d, s[i]);
      }
    }
  }

  /** A window of span 4 is five consecutive values. */
  lemma WindowGivesRun(values: seq<int>)
    requires StraightWindow(DistinctDesc(values))
    ensures exists x :: RunFrom(values, x)
  {
    var s := DistinctDesc(values);
    DistinctDescStrict(values);
    DistinctDescMembers(values);
    var i :| 0 <= i && i + 4 < |s| && s[i] - s[i + 4] == 4;
    StrictGap(s, i, i + 1);
    StrictGap(s, i + 1, i + 2);
    StrictGap(s, i + 2, i + 3);
    StrictGap(s, i + 3, i + 4);
    assert s[i + 1] == s[i] - 1 && s[i + 2] == s[i] - 2 && s[i + 3] == s[i] - 3;
    assert s[i] in s && s[i + 1] in s && s[i + 2] in s && s[i + 3] in s && s[i + 4] in s;
    assert RunFrom(values, s[i]);
  }

  /** Five consecutive values sit side by side in the distinct sorted list. */
  lemma RunGivesWindow(values: seq<int>, x: int)
    requires RunFrom(values, x)
    ensures |DistinctDesc(values)| >= 5 && StraightWindow(DistinctDesc(values))
  {
    var s := DistinctDesc(values);
    DistinctDescStrict(values);
    DistinctDescMembers(values);
    assert x in s && x - 1 in s && x - 2 in s && x - 3 in s && x - 4 in s;
    var k :| 0 <= k < |s| && s[k] == x;
    var k1 :| 0 <= k1 < |s| && s[k1] == x - 1;
    var k2 :| 0 <= k2 < |s| && s[k2] == x - 2;
    var k3 :| 0 <= k3 < |s| && s[k3] == x - 3;
    var m :| 0 <= m < |s| && s[m] == x - 4;
    IndexOrder(s, k, k1);
    IndexOrder(s, k1, k2);
    IndexOrder(s, k2, k3);
    IndexOrder(s, k3, m);
    StrictGap(s, k, m);
    assert s[k] - s[k + 4] == 4;
  }

  /** checkStraight is true exactly for five consecutive values or the wheel. */
  lemma StraightMeansRun(values: seq<int>)
    ensures IsStraight(values) <==> (exists x :: RunFrom(values, x)) || HasWheel(values)
  {
    var s := DistinctDesc(values);
    DistinctDescMembers(values);
    assert HasWheel(s) <==> HasWheel(values);
    if |s| >= 5 && StraightWindow(s) {
      WindowGivesRun(values);
    }
    if x :| RunFrom(values, x) {
      RunGivesWindow(values, x);
    }
  }

  // ----- getRankCounts and the object-key order -----

  /** What getRankCounts builds: each present rank mapped to its number of copies. */
  function RankCounts(ranks: seq<Rank>): map<Rank, int>
  {
    map r | r in ranks :: multiset(ranks)[r]
  }

  /** Counting one more rank bumps its entry, starting from 0. */
  lemma RankCountsSnoc(prefix: seq<Rank>, r: Rank)
    ensures var before := RankCounts(prefix);
      RankCounts(prefix + [r]) == before[r := (if r in before then before[r] else 0) + 1]
  {
    var before := RankCounts(prefix);
    var s := prefix + [r];
    assert multiset(s) == multiset(prefix) + multiset{r};
    assert forall x :: x in s <==> x in prefix || x == r;
    assert r !in prefix ==> multiset(prefix)[r] == 0;
  }

  /** getRankCounts: `counts[rank] = (counts[rank] || 0) + 1` over the ranks. */
  method GetRankCounts(ranks: seq<Rank>) returns (counts: map<Rank, int>)
    ensures counts == RankCounts(ranks)
  {
    counts := map[];
    for i := 0 to |ranks|
      invariant counts == RankCounts(ranks[..i])
    {
      var r := ranks[i];
      counts := counts[r := (if r in counts then counts[r] else 0) + 1];
      RankCountsSnoc(ranks[..i], r);
      assert ranks[..i + 1] == ranks[..i] + [r];
    }
    assert ranks[..|ranks|] == ranks;
  }

  /** The rank keys that look like array indices. */
  const DigitRanks: seq<Rank> := [Two, Three, Four, Five, Six, Seven, Eight, Nine]

  lemma DigitRanksFacts()
    ensures NoDup(DigitRanks)
    ensures forall r :: r in DigitRanks <==> RankValue(r) < 10
  {
    forall r ensures RankValue(r) < 10 ==> r in DigitRanks {
      match r
      case Two => assert DigitRanks[0] == r;
      case Three => assert DigitRanks[1] == r;
      case Four => assert DigitRanks[2] == r;
      case Five => assert DigitRanks[3] == r;
      case Six => assert DigitRanks[4] == r;
      case Seven => assert DigitRanks[5] == r;
      case Eight => assert DigitRanks[6] == r;
      case Nine => assert DigitRanks[7] == r;
      case _ =>
    }
  }

  /** The keys, in their order, that occur among the ranks. */
  function PresentKeys(keys: seq<Rank>, ranks: seq<Rank>): (r: seq<Rank>)
    ensures forall x :: x in r <==> x in keys && x in ranks
  {
    if |keys| == 0 then []
    else (if keys[0] in ranks then [keys[0]] else []) + PresentKeys(keys[1..], ranks)
  }

  /** The letter ranks A, K, Q, J, T, in their order. */
  function LetterRanks(s: seq<Rank>): (r: seq<Rank>)
    ensures forall x :: x in r <==> x in s && RankValue(x) >= 10
  {
    if |s| == 0 then []
    else (if RankValue(s[0]) >= 10 then [s[0]] else []) + LetterRanks(s[1..])
  }

  /**
   * The order Object.entries / Object.values report the count object's keys:
   * the integer-like keys '2'..'9' ascending, then the letter keys in the
   * order they were first inserted.
   */
  function KeyOrder(ranks: seq<Rank>): seq<Rank>
  {
    PresentKeys(DigitRanks, ranks) + LetterRanks(Dedup(ranks))
  }

  lemma {:induction false} PresentKeysNoDup(keys: seq<Rank>, ranks: seq<Rank>)
    requires NoDup(keys)
    ensures NoDup(PresentKeys(keys, ranks))
  {
    if |keys| > 0 {
      assert NoDup(keys[1..]) by {
        forall i, j | 0 <= i < j < |keys[1..]| ensures keys[1..][i] != keys[1..][j] {
          assert keys[1..][i] == keys[i + 1] && keys[1..][j] == keys[j + 1];
        }
      }
      assert keys[0] !in keys[1..] by {
        forall k | 0 <= k < |keys[1..]| ensures keys[1..][k] != keys[0] {
          assert keys[1..][k] == keys[k + 1];
        }
      }
      PresentKeysNoDup(keys[1..], ranks);
      NoDupAppend(if keys[0] in ranks then [keys[0]] else [], PresentKeys(keys[1..], ranks));
    }
  }

  lemma {:induction false} LetterRanksNoDup(s: seq<Rank>)
    requires NoDup(s)
    ensures NoDup(LetterRanks(s))
  {
    if |s| > 0 {
      assert NoDup(s[1..]) by {
        forall i, j | 0 <= i < j < |s[1..]| ensures s[1..][i] != s[1..][j] {
          assert s[1..][i] == s[i + 1] && s[1..][j] == s[j + 1];
        }
      }
      assert s[0] !in s[1..] by {
        forall k | 0 <= k < |s[1..]| ensures s[1..][k] != s[0] {
          assert s[1..][k] == s[k + 1];
        }
      }
      LetterRanksNoDup(s[1..]);
      NoDupAppend(if RankValue(s[0]) >= 10 then [s[0]] else [], LetterRanks(s[1..]));
    }
  }

  /** Every present rank is reported once. */
  lemma KeyOrderFacts(ranks: seq<Rank>)
    ensures NoDup(KeyOrder(ranks))
    ensures forall r :: r in KeyOrder(ranks) <==> r in ranks
  {
    DigitRanksFacts();
    DedupFacts(ranks);
    PresentKeysNoDup(DigitRanks, ranks);
    LetterRanksNoDup(Dedup(ranks));
    NoDupAppend(PresentKeys(DigitRanks, ranks), LetterRanks(Dedup(ranks)));
  }

  /** `Object.values(rankCounts)`. */
  function EntryValues(rc: map<Rank, int>, order: seq<Rank>): (vs: seq<int>)
    ensures |vs| == |order|
  {
    seq(|order|, i requires 0 <= i < |order| => if order[i] in rc then rc[order[i]] else 0)
  }

  /** getKeyByValue: the first key, in entry order, holding the value. */
  function KeyByValue(rc: map<Rank, int>, order: seq<Rank>, v: int): (k: Option<Rank>)
    ensures k.Some? ==> k.value in order && k.value in rc && rc[k.value] == v
    ensures k.None? ==> forall r :: r in order && r in rc ==> rc[r] != v
  {
    if |order| == 0 then None
    else if order[0] in rc && rc[order[0]] == v then Some(order[0])
    else KeyByValue(rc, order[1..], v)
  }

  /** The keys, in entry order, holding the value (`entries.filter(...).map(...)`). */
  function KeysWithCount(rc: map<Rank, int>, order: seq<Rank>, v: int): (ks: seq<Rank>)
    ensures forall r :: r in ks <==> r in order && r in rc && rc[r] == v
  {
    if |order| == 0 then []
    else (if order[0] in rc && rc[order[0]] == v then [order[0]] else []) + KeysWithCount(rc, order[1..], v)
  }

  /** `ranks.find(r => r !== key)`. */
  function FirstOther(ranks: seq<Rank>, key: Option<Rank>): (k: Option<Rank>)
    ensures k.Some? ==> k.value in ranks && key != Some(k.value)
    ensures k.None? ==> forall r :: r in ranks ==> key == Some(r)
  {
    if |ranks| == 0 then None
    else if Some(ranks[0]) != key then Some(ranks[0])
    else FirstOther(ranks[1..], key)
  }

  /** `ranks.find(r => !pairs.includes(r))`. */
  function FirstNotIn(ranks: seq<Rank>, pairs: seq<Rank>): (k: Option<Rank>)
    ensures k.Some? ==> k.value in ranks && k.value !in pairs
    ensures k.None? ==> forall r :: r in ranks ==> r in pairs
  {
    if |ranks| == 0 then None
    else if ranks[0] !in pairs then Some(ranks[0])
    else FirstNotIn(ranks[1..], pairs)
  }

  /** `filter(r => r !== key)` where the key may be undefined. */
  function WithoutKey(ranks: seq<Rank>, key: Option<Rank>): seq<Rank>
  {
    if key.Some? then Without(ranks, key.value) else ranks
  }

  /** `[x]` for a found value (a lookup that cannot fail on five cards). */
  function Single(x: Option<Rank>): seq<Rank>
  {
    if x.Some? then [x.value] else []
  }

  /** Entry i of the sorted counts, `undefined` read as 0 (it equals none of 2, 3, 4). */
  function At(s: seq<int>, i: nat): int
  {
    if i < |s| then s[i] else 0
  }

  function CardRanks(cards: seq<Card>): (rs: seq<Rank>)
    ensures |rs| == |cards|
  {
    seq(|cards|, i requires 0 <= i < |cards| => cards[i].rank)
  }

  function CardValues(cards: seq<Card>): (vs: seq<int>)
    ensures |vs| == |cards|
  {
    seq(|cards|, i requires 0 <= i < |cards| => RankValue(cards[i].rank))
  }

  /** `suits.every(s => s === suits[0])`. */
  predicate IsFlush(cards: seq<Card>)
  {
    forall i :: 0 <= i < |cards| ==> cards[i].suit == cards[0].suit
  }

  /** What evaluateFiveCards computes before its cascade. */
  datatype Features = Features(
    ranks: seq<Rank>,
    values: seq<int>,
    isFlush: bool,
    isStraight: bool,
    rankCounts: map<Rank, int>,
    order: seq<Rank>,
    counts: seq<int>)

  function FeaturesOf(cards: seq<Card>): (f: Features)
    ensures |f.ranks| == |f.values| == |cards|
  {
    var ranks := SortBy(CardRanks(cards), RankValue);
    var values := SortBy(CardValues(cards), Id);
    var rankCounts := RankCounts(ranks);
    var order := KeyOrder(ranks);
    Features(ranks, values, IsFlush(cards), IsStraight(values), rankCounts, order,
             SortBy(EntryValues(rankCounts, order), Id))
  }

  /** evaluateFiveCards (descriptions left out). */
  function EvaluateFive(cards: seq<Card>): HandStrength
    requires |cards| == 5
  {
    Cascade(FeaturesOf(cards))
  }

  /** The category tests of evaluateFiveCards, in source order, with their kicker lists. */
  function Cascade(f: Features): HandStrength
    requires |f.ranks| == |f.values| == 5
  {
    var c0 := At(f.counts, 0);
    var c1 := At(f.counts, 1);
    if f.isFlush && f.isStraight && f.values[0] == 14 then HandStrength(RoyalFlush, [])
    else if f.isFlush && f.isStraight then HandStrength(StraightFlush, [])
    else if c0 == 4 then HandStrength(FourOfAKind, QuadsKicker(f))
    else if c0 == 3 && c1 == 2 then HandStrength(FullHouse, [])
    else if f.isFlush then HandStrength(Flush, f.ranks[1..])
    else if f.isStraight then HandStrength(Straight, [])
    else if c0 == 3 then HandStrength(ThreeOfAKind, TripsKickers(f))
    else if c0 == 2 && c1 == 2 then HandStrength(TwoPair, TwoPairKicker(f))
    else if c0 == 2 then HandStrength(OnePair, PairKickers(f))
    else HandStrength(HighCard, f.ranks[1..])
  }

  /** `[ranks.find(r => r !== quadRank)]`. */
  function QuadsKicker(f: Features): seq<Rank>
  {
    Single(FirstOther(f.ranks, KeyByValue(f.rankCounts, f.order, 4)))
  }

  /** `ranks.filter(r => r !== tripRank).slice(0, 2)`. */
  function TripsKickers(f: Features): seq<Rank>
  {
    Take(WithoutKey(f.ranks, KeyByValue(f.rankCounts, f.order, 3)), 2)
  }

  /** `[ranks.find(r => !pairs.includes(r))]`, pairs being the keys counted twice, highest first. */
  function TwoPairKicker(f: Features): seq<Rank>
  {
    Single(FirstNotIn(f.ranks, SortBy(KeysWithCount(f.rankCounts, f.order, 2), RankValue)))
  }

  /** `ranks.filter(r => r !== pairRank).slice(0, 3)`. */
  function PairKickers(f: Features): seq<Rank>
  {
    Take(WithoutKey(f.ranks, KeyByValue(f.rankCounts, f.order, 2)), 3)
  }

  // ----- what the sorted counts say about the ranks -----

  /** The head of a descending sort is one of the values and bounds them all. */
  lemma SortedTop(l: seq<int>)
    requires |l| > 0
    ensures SortBy(l, Id)[0] in l
    ensures forall p :: 0 <= p < |l| ==> l[p] <= SortBy(l, Id)[0]
    ensures |l| >= 2 ==> SortBy(l, Id)[1] <= SortBy(l, Id)[0]
  {
    var s := SortBy(l, Id);
    SortByFacts(l, Id);
    assert |s| >= 2 ==> Id(s[0]) >= Id(s[1]);
    assert s[0] in multiset(l);
    forall p | 0 <= p < |l| ensures l[p] <= s[0] {
      assert l[p] in multiset(s);
      var k :| 0 <= k < |s| && s[k] == l[p];
      assert k == 0 || Id(s[0]) >= Id(s[k]);
    }
  }

  /** A value above the second entry of a descending list occurs at most once, at its head. */
  lemma AboveSecondOnce(s: seq<int>, v: int)
    requires SortedBy(s, Id) && |s| >= 2 && v > s[1]
    ensures multiset(s)[v] <= 1
  {
    assert s == [s[0]] + s[1..];
    assert v !in s[1..] by {
      forall k | 0 <= k < |s[1..]| ensures s[1..][k] != v {
        assert s[1..][k] == s[k + 1];
        assert k == 0 || Id(s[1]) >= Id(s[k + 1]);
      }
    }
  }

  lemma AboveSecondIsHead(s: seq<int>, v: int)
    requires SortedBy(s, Id) && |s| >= 2 && v > s[1] && v in multiset(s)
    ensures v == s[0]
  {
    var k :| 0 <= k < |s| && s[k] == v;
    assert k == 0 || Id(s[1]) >= Id(s[k]);
  }

  /** Of any two positions, the smaller value is at most the second entry of the sort. */
  lemma SortedSecond(l: seq<int>, p: nat, q: nat)
    requires p < q < |l|
    ensures l[p] <= At(SortBy(l, Id), 1) || l[q] <= At(SortBy(l, Id), 1)
  {
    var s := SortBy(l, Id);
    SortByFacts(l, Id);
    if l[p] > s[1] && l[q] > s[1] {
      if l[p] == l[q] {
        TwoPositions(l, p, q);
        AboveSecondOnce(s, l[p]);
      } else {
        AboveSecondIsHead(s, l[p]);
        AboveSecondIsHead(s, l[q]);
      }
    }
  }

  /** The first two entries of the sort sit at two different positions of the input. */
  lemma SortedTopTwo(l: seq<int>)
    requires |l| >= 2
    ensures exists p, q :: 0 <= p < |l| && 0 <= q < |l| && p != q && l[p] == SortBy(l, Id)[0] && l[q] == SortBy(l, Id)[1]
  {
    var s := SortBy(l, Id);
    SortByFacts(l, Id);
    if s[0] == s[1] {
      TwoPositions(s, 0, 1);
      PositionsOfTwo(l, s[0]);
    } else {
      assert s[0] in multiset(l) && s[1] in multiset(l);
      var p :| 0 <= p < |l| && l[p] == s[0];
      var q :| 0 <= q < |l| && l[q] == s[1];
    }
  }

  /** The facts about the cascade's inputs that the kicker lemmas rely on. */
  predicate FiveFacts(f: Features)
  {
    && |f.ranks| == |f.values| == 5
    && SortedBy(f.ranks, RankValue)
    && (forall r :: r in f.rankCounts <==> r in f.ranks)
    && (forall r :: r in f.rankCounts ==> f.rankCounts[r] == multiset(f.ranks)[r])
    && Tally(f.ranks, f.order, EntryValues(f.rankCounts, f.order))
    && f.counts == SortBy(EntryValues(f.rankCounts, f.order), Id)
  }

  lemma FeaturesOfFacts(cards: seq<Card>)
    requires |cards| == 5
    ensures FiveFacts(FeaturesOf(cards))
    ensures multiset(FeaturesOf(cards).ranks) == multiset(CardRanks(cards))
  {
    FeatureFacts(cards);
  }

  lemma FeatureFacts(cards: seq<Card>)
    requires |cards| == 5
    ensures var f := FeaturesOf(cards);
      && multiset(f.ranks) == multiset(CardRanks(cards))
      && SortedBy(f.ranks, RankValue)
      && NoDup(f.order)
      && (forall r :: r in f.order <==> r in f.ranks)
      && (forall r :: r in f.rankCounts <==> r in f.ranks)
      && (forall r :: r in f.rankCounts ==> f.rankCounts[r] == multiset(f.ranks)[r])
      && (forall p :: 0 <= p < |f.order| ==> EntryValues(f.rankCounts, f.order)[p] == multiset(f.ranks)[f.order[p]])
  {
    var f := FeaturesOf(cards);
    SortByFacts(CardRanks(cards), RankValue);
    KeyOrderFacts(f.ranks);
    forall p | 0 <= p < |f.order|
      ensures EntryValues(f.rankCounts, f.order)[p] == multiset(f.ranks)[f.order[p]]
    {
      assert f.order[p] in f.order;
    }
  }

  /** l lists, key by key, how often each present rank occurs. */
  predicate Tally(ranks: seq<Rank>, order: seq<Rank>, l: seq<int>)
  {
    && NoDup(order)
    && (forall r :: r in order <==> r in ranks)
    && |l| == |order|
    && (forall p :: 0 <= p < |order| ==> l[p] == multiset(ranks)[order[p]])
  }

  /** The largest count bounds every rank's count and belongs to a present rank. */
  lemma TopCount(ranks: seq<Rank>, order: seq<Rank>, l: seq<int>)
    requires Tally(ranks, order, l) && |ranks| > 0
    ensures forall r :: r in ranks ==> 1 <= multiset(ranks)[r] <= At(SortBy(l, Id), 0)
    ensures exists r :: r in order && multiset(ranks)[r] == At(SortBy(l, Id), 0)
    ensures At(SortBy(l, Id), 1) <= At(SortBy(l, Id), 0)
  {
    assert ranks[0] in order;
    SortedTop(l);
    forall r | r in ranks ensures 1 <= multiset(ranks)[r] <= At(SortBy(l, Id), 0) {
      assert r in order;
      var p :| 0 <= p < |order| && order[p] == r;
      assert l[p] == multiset(ranks)[r];
    }
    var p0 :| 0 <= p0 < |l| && l[p0] == SortBy(l, Id)[0];
    assert order[p0] in order;
  }

  /** Of two different present ranks, one occurs at most as often as the runner-up count. */
  lemma SecondCount(ranks: seq<Rank>, order: seq<Rank>, l: seq<int>, r1: Rank, r2: Rank)
    requires Tally(ranks, order, l)
    requires r1 in ranks && r2 in ranks && r1 != r2
    ensures multiset(ranks)[r1] <= At(SortBy(l, Id), 1) || multiset(ranks)[r2] <= At(SortBy(l, Id), 1)
  {
    assert r1 in order && r2 in order;
    var p :| 0 <= p < |order| && order[p] == r1;
    var q :| 0 <= q < |order| && order[q] == r2;
    if p < q {
      SortedSecond(l, p, q);
    } else {
      SortedSecond(l, q, p);
    }
  }

  /** The two largest counts belong to different ranks, so together they do not exceed the cards. */
  lemma TopTwoSum(ranks: seq<Rank>, order: seq<Rank>, l: seq<int>)
    requires Tally(ranks, order, l) && |ranks| > 0
    ensures At(SortBy(l, Id), 0) + At(SortBy(l, Id), 1) <= |ranks|
  {
    if |l| >= 2 {
      SortedTopTwo(l);
      var p, q :| 0 <= p < |l| && 0 <= q < |l| && p != q && l[p] == SortBy(l, Id)[0] && l[q] == SortBy(l, Id)[1];
      assert order[p] != order[q];
      CountPairBound(ranks, order[p], order[q]);
    } else {
      TopCount(ranks, order, l);
      var r :| r in order && multiset(ranks)[r] == At(SortBy(l, Id), 0);
      CountPairBound(ranks, r, if r == Ace then King else Ace);
    }
  }

  // ----- kicker lists -----

  /** The key the cascade looks up holds the rank counted c0 times. */
  lemma MadeRank(f: Features, c: int)
    requires FiveFacts(f) && c == At(f.counts, 0)
    ensures KeyByValue(f.rankCounts, f.order, c).Some?
    ensures multiset(f.ranks)[KeyByValue(f.rankCounts, f.order, c).value] == c
  {
    var l := EntryValues(f.rankCounts, f.order);
    TopCount(f.ranks, f.order, l);
    var r :| r in f.order && multiset(f.ranks)[r] == c;
    assert r in f.rankCounts;
  }

  lemma QuadsKickerFacts(f: Features)
    requires FiveFacts(f) && At(f.counts, 0) == 4
    ensures |QuadsKicker(f)| == 1
    ensures forall k :: k in QuadsKicker(f) ==> multiset(f.ranks)[k] == 1
  {
    var l := EntryValues(f.rankCounts, f.order);
    MadeRank(f, 4);
    var q := KeyByValue(f.rankCounts, f.order, 4).value;
    TopCount(f.ranks, f.order, l);
    if FirstOther(f.ranks, Some(q)).None? {
      assert forall r :: r in f.ranks ==> r == q;
      CountPairBound(f.ranks, q, if q == Ace then King else Ace);
    } else {
      var k := FirstOther(f.ranks, Some(q)).value;
      CountPairBound(f.ranks, q, k);
    }
  }

  lemma TripsKickersFacts(f: Features)
    requires FiveFacts(f) && At(f.counts, 0) == 3 && At(f.counts, 1) != 2
    ensures |TripsKickers(f)| == 2
    ensures SortedBy(TripsKickers(f), RankValue)
    ensures forall k :: k in TripsKickers(f) ==> multiset(f.ranks)[k] == 1
  {
    var l := EntryValues(f.rankCounts, f.order);
    MadeRank(f, 3);
    var t := KeyByValue(f.rankCounts, f.order, 3).value;
    var w := Without(f.ranks, t);
    WithoutFacts(f.ranks, t);
    WithoutSorted(f.ranks, t, RankValue);
    SortedSlices(w, 2, RankValue);
    TopCount(f.ranks, f.order, l);
    TopTwoSum(f.ranks, f.order, l);
    forall k | k in TripsKickers(f) ensures multiset(f.ranks)[k] == 1 {
      assert k in w && k != t;
      CountPairBound(f.ranks, t, k);
      SecondCount(f.ranks, f.order, l, t, k);
    }
  }

  lemma PairKickersFacts(f: Features)
    requires FiveFacts(f) && At(f.counts, 0) == 2 && At(f.counts, 1) != 2
    ensures |PairKickers(f)| == 3
    ensures SortedBy(PairKickers(f), RankValue)
    ensures forall k :: k in PairKickers(f) ==> multiset(f.ranks)[k] == 1
  {
    var l := EntryValues(f.rankCounts, f.order);
    MadeRank(f, 2);
    var p := KeyByValue(f.rankCounts, f.order, 2).value;
    var w := Without(f.ranks, p);
    WithoutFacts(f.ranks, p);
    WithoutSorted(f.ranks, p, RankValue);
    SortedSlices(w, 3, RankValue);
    TopCount(f.ranks, f.order, l);
    TopTwoSum(f.ranks, f.order, l);
    forall k | k in PairKickers(f) ensures multiset(f.ranks)[k] == 1 {
      assert k in w && k != p;
      SecondCount(f.ranks, f.order, l, p, k);
    }
  }

  /** Two pairs among five cards leave a fifth card of its own rank. */
  lemma TwoPairLeavesSingle(ranks: seq<Rank>, order: seq<Rank>, l: seq<int>)
    requires Tally(ranks, order, l) && |ranks| == 5
    requires At(SortBy(l, Id), 0) == 2 && At(SortBy(l, Id), 1) == 2
    ensures exists r :: r in ranks && multiset(ranks)[r] == 1
  {
    SortedTopTwo(l);
    var p, q :| 0 <= p < |l| && 0 <= q < |l| && p != q && l[p] == 2 && l[q] == 2;
    var r1, r2 := order[p], order[q];
    assert r1 != r2 && r1 in ranks && r2 in ranks;
    ThirdValue(ranks, r1, r2);
    var r3 :| r3 in ranks && r3 != r1 && r3 != r2;
    CountTripleBound(ranks, r1, r2, r3);
    assert multiset(ranks)[r3] >= 1;
  }

  /** A rank that is not held twice is not among the pairs. */
  lemma PairsHoldTwice(f: Features, r: Rank)
    requires FiveFacts(f) && r in f.ranks
    ensures r in SortBy(KeysWithCount(f.rankCounts, f.order, 2), RankValue) <==> multiset(f.ranks)[r] == 2
  {
    var keys := KeysWithCount(f.rankCounts, f.order, 2);
    SortByFacts(keys, RankValue);
    assert r in keys <==> r in multiset(keys);
    assert r in f.order && r in f.rankCounts;
  }

  lemma TwoPairKickerFacts(f: Features)
    requires FiveFacts(f) && At(f.counts, 0) == 2 && At(f.counts, 1) == 2
    ensures |TwoPairKicker(f)| == 1
    ensures forall k :: k in TwoPairKicker(f) ==> multiset(f.ranks)[k] == 1
  {
    var l := EntryValues(f.rankCounts, f.order);
    var pairs := SortBy(KeysWithCount(f.rankCounts, f.order, 2), RankValue);
    TwoPairLeavesSingle(f.ranks, f.order, l);
    var r3 :| r3 in f.ranks && multiset(f.ranks)[r3] == 1;
    PairsHoldTwice(f, r3);
    var k := FirstNotIn(f.ranks, pairs).value;
    PairsHoldTwice(f, k);
    TopCount(f.ranks, f.order, l);
    assert TwoPairKicker(f) == [k];
  }

  // ----- what evaluateFiveCards promises -----

  /** How many kickers each category carries. */
  function KickerCount(rank: MadeHandRank): nat
  {
    match rank
    case FourOfAKind => 1
    case ThreeOfAKind => 2
    case TwoPair => 1
    case OnePair => 3
    case Flush => 4
    case HighCard => 4
    case _ => 0
  }

  /** The categories whose kickers sit beside a made pair, trips or quads. */
  predicate Paired(rank: MadeHandRank)
  {
    rank == FourOfAKind || rank == ThreeOfAKind || rank == TwoPair || rank == OnePair
  }

  /** The kicker facts, read off the cascade's inputs. */
  lemma CascadeKickersSorted(f: Features)
    requires FiveFacts(f)
    ensures SortedBy(Cascade(f).kickers, RankValue)
  {
    var c0 := At(f.counts, 0);
    var c1 := At(f.counts, 1);
    var h := Cascade(f);
    if f.isFlush && f.isStraight {
      assert h.kickers == [];
    } else if c0 == 4 {
      assert h == HandStrength(FourOfAKind, QuadsKicker(f));
      QuadsKickerFacts(f);
    } else if c0 == 3 && c1 == 2 {
      assert h == HandStrength(FullHouse, []);
    } else if f.isFlush {
      assert h == HandStrength(Flush, f.ranks[1..]);
      SortedSlices(f.ranks, 0, RankValue);
    } else if f.isStraight {
      assert h == HandStrength(Straight, []);
    } else if c0 == 3 {
      assert h == HandStrength(ThreeOfAKind, TripsKickers(f));
      TripsKickersFacts(f);
    } else if c0 == 2 && c1 == 2 {
      assert h == HandStrength(TwoPair, TwoPairKicker(f));
      TwoPairKickerFacts(f);
    } else if c0 == 2 {
      assert h == HandStrength(OnePair, PairKickers(f));
      PairKickersFacts(f);
    } else {
      assert h == HandStrength(HighCard, f.ranks[1..]);
      SortedSlices(f.ranks, 0, RankValue);
    }
  }

  lemma CascadeKickerCount(f: Features)
    requires FiveFacts(f)
    ensures |Cascade(f).kickers| == KickerCount(Cascade(f).rank)
  {
    if Paired(Cascade(f).rank) {
      PairedKickerCount(f);
    } else {
      UnpairedKickerCount(f);
    }
  }

  /** Straight flushes, full houses, flushes, straights and high cards: no kickers, or the four cards after the top one. */
  lemma UnpairedKickerCount(f: Features)
    requires |f.ranks| == |f.values| == 5 && !Paired(Cascade(f).rank)
    ensures |Cascade(f).kickers| == KickerCount(Cascade(f).rank)
  {
  }

  /** Quads, trips, two pair and one pair: the kickers the facts about each selection give. */
  lemma PairedKickerCount(f: Features)
    requires FiveFacts(f) && Paired(Cascade(f).rank)
    ensures |Cascade(f).kickers| == KickerCount(Cascade(f).rank)
  {
    var c0 := At(f.counts, 0);
    var c1 := At(f.counts, 1);
    if c0 == 4 {
      QuadsKickerFacts(f);
    } else if c0 == 3 {
      TripsKickersFacts(f);
    } else if c1 == 2 {
      TwoPairKickerFacts(f);
    } else {
      PairKickersFacts(f);
    }
  }

  lemma CascadeKickersUnpaired(f: Features)
    requires FiveFacts(f)
    ensures Paired(Cascade(f).rank) ==> forall k :: k in Cascade(f).kickers ==> multiset(f.ranks)[k] == 1
  {
    var c0 := At(f.counts, 0);
    var c1 := At(f.counts, 1);
    var h := Cascade(f);
    if f.isFlush && f.isStraight {
      assert h.kickers == [];
    } else if c0 == 4 {
      assert h == HandStrength(FourOfAKind, QuadsKicker(f));
      QuadsKickerFacts(f);
    } else if c0 == 3 && c1 == 2 {
      assert h == HandStrength(FullHouse, []);
    } else if f.isFlush {
      assert h == HandStrength(Flush, f.ranks[1..]);
    } else if f.isStraight {
      assert h == HandStrength(Straight, []);
    } else if c0 == 3 {
      assert h == HandStrength(ThreeOfAKind, TripsKickers(f));
      TripsKickersFacts(f);
    } else if c0 == 2 && c1 == 2 {
      assert h == HandStrength(TwoPair, TwoPairKicker(f));
      TwoPairKickerFacts(f);
    } else if c0 == 2 {
      assert h == HandStrength(OnePair, PairKickers(f));
      PairKickersFacts(f);
    } else {
      assert h == HandStrength(HighCard, f.ranks[1..]);
    }
  }

  /**
   * Kickers come highest first, there are as many as the category calls for,
   * and beside a made pair, trips or quads each kicker is a rank held only once.
   */
  lemma EvaluateKickers(cards: seq<Card>)
    requires |cards| == 5
    ensures SortedBy(EvaluateFive(cards).kickers, RankValue)
    ensures |EvaluateFive(cards).kickers| == KickerCount(EvaluateFive(cards).rank)
    ensures Paired(EvaluateFive(cards).rank) ==>
      forall k :: k in EvaluateFive(cards).kickers ==> multiset(CardRanks(cards))[k] == 1
  {
    FeaturesOfFacts(cards);
    CascadeKickersSorted(FeaturesOf(cards));
    CascadeKickerCount(FeaturesOf(cards));
    CascadeKickersUnpaired(FeaturesOf(cards));
  }

  /** A list sorted by decreasing value is its first element followed by the rest, none of them above it. */
  lemma TopAndRest(ranks: seq<Rank>)
    requires |ranks| > 0 && SortedBy(ranks, RankValue)
    ensures multiset([ranks[0]] + ranks[1..]) == multiset(ranks)
    ensures forall k :: k in ranks[1..] ==> RankValue(k) <= RankValue(ranks[0])
  {
    assert ranks == [ranks[0]] + ranks[1..];
    forall k | k in ranks[1..] ensures RankValue(k) <= RankValue(ranks[0]) {
      var i :| 0 <= i < |ranks[1..]| && ranks[1..][i] == k;
      assert ranks[i + 1] == k;
    }
  }

  lemma CascadeTopCard(f: Features)
    requires FiveFacts(f)
    requires Cascade(f).rank == Flush || Cascade(f).rank == HighCard
    ensures multiset([f.ranks[0]] + Cascade(f).kickers) == multiset(f.ranks)
    ensures forall k :: k in Cascade(f).kickers ==> RankValue(k) <= RankValue(f.ranks[0])
  {
    assert Cascade(f).kickers == f.ranks[1..];
    TopAndRest(f.ranks);
  }

  /** Flush and high-card kickers are every rank but one top card. */
  lemma TopCardLeftOut(cards: seq<Card>)
    requires |cards| == 5
    requires EvaluateFive(cards).rank == Flush || EvaluateFive(cards).rank == HighCard
    ensures exists top ::
      && multiset([top] + EvaluateFive(cards).kickers) == multiset(CardRanks(cards))
      && forall k :: k in EvaluateFive(cards).kickers ==> RankValue(k) <= RankValue(top)
  {
    FeaturesOfFacts(cards);
    CascadeTopCard(FeaturesOf(cards));
  }

  /** The sorted values hold the same values as the cards, the largest first. */
  lemma ValuesFacts(cards: seq<Card>)
    requires |cards| == 5
    ensures forall v :: v in FeaturesOf(cards).values <==> v in CardValues(cards)
    ensures FeaturesOf(cards).values[0] == 14 <==> 14 in CardValues(cards)
  {
    var vs := CardValues(cards);
    var f := FeaturesOf(cards);
    SortByFacts(vs, Id);
    forall v ensures v in f.values <==> v in vs {
      assert v in f.values <==> v in multiset(f.values);
    }
    SortedTop(vs);
    forall i | 0 <= i < |vs| ensures vs[i] <= 14 {
      assert vs[i] == RankValue(cards[i].rank);
    }
  }

  /** The royal-flush test: one suit, a straight (wheel included), and an ace. */
  lemma RoyalFlushIff(cards: seq<Card>)
    requires |cards| == 5
    ensures EvaluateFive(cards).rank == RoyalFlush <==>
      IsFlush(cards) && HasRun(CardValues(cards)) && 14 in CardValues(cards)
  {
    var f := FeaturesOf(cards);
    ValuesFacts(cards);
    StraightOfCards(cards);
    assert EvaluateFive(cards).rank == RoyalFlush <==> f.isFlush && f.isStraight && f.values[0] == 14 by {
      CascadeRoyal(f);
    }
  }

  /** The straight test on the sorted values sees a run of the hand's own values. */
  lemma StraightOfCards(cards: seq<Card>)
    requires |cards| == 5
    ensures FeaturesOf(cards).isStraight <==> HasRun(CardValues(cards))
  {
    var f := FeaturesOf(cards);
    ValuesFacts(cards);
    StraightMeansRun(f.values);
    assert (exists x :: RunFrom(f.values, x)) <==> (exists x :: RunFrom(CardValues(cards), x)) by {
      forall x ensures RunFrom(f.values, x) <==> RunFrom(CardValues(cards), x) {}
    }
  }

  lemma CascadeRoyal(f: Features)
    requires |f.ranks| == |f.values| == 5
    ensures Cascade(f).rank == RoyalFlush <==> f.isFlush && f.isStraight && f.values[0] == 14
  {
  }

  /** As written, a suited A-5-4-3-2 is reported as a royal flush. */
  lemma SuitedWheelIsRoyal(cards: seq<Card>)
    requires |cards| == 5 && IsFlush(cards) && HasWheel(CardValues(cards))
    ensures EvaluateFive(cards).rank == RoyalFlush
  {
    RoyalFlushIff(cards);
  }

  /** An A-5-4-3-2 of mixed suits is a straight. */
  lemma MixedWheelIsStraight(cards: seq<Card>)
    requires |cards| == 5 && !IsFlush(cards) && HasWheel(CardValues(cards))
    ensures EvaluateFive(cards).rank == Straight
  {
    WheelRanksDistinct(cards);
    var f := FeaturesOf(cards);
    FeaturesOfFacts(cards);
    ValuesFacts(cards);
    StraightMeansRun(f.values);
    TopCount(f.ranks, f.order, EntryValues(f.rankCounts, f.order));
    var r :| r in f.order && multiset(f.ranks)[r] == At(f.counts, 0);
    NoDupMultiplicity(CardRanks(cards), r);
    CascadeStraight(f);
  }

  /** Five cards showing A, 5, 4, 3 and 2 hold five different ranks. */
  lemma WheelRanksDistinct(cards: seq<Card>)
    requires |cards| == 5 && HasWheel(CardValues(cards))
    ensures NoDup(CardRanks(cards))
  {
    var vs := CardValues(cards);
    assert {14, 5, 4, 3, 2} <= set x | x in vs;
    SubsetCard({14, 5, 4, 3, 2}, set x | x in vs);
    SetCardBound(vs);
    SetCardNoDup(vs);
    forall p, q | 0 <= p < q < 5 ensures CardRanks(cards)[p] != CardRanks(cards)[q] {
      assert vs[p] == RankValue(cards[p].rank) && vs[q] == RankValue(cards[q].rank);
    }
  }

  lemma CascadeStraight(f: Features)
    requires |f.ranks| == |f.values| == 5
    requires !f.isFlush && f.isStraight && At(f.counts, 0) == 1
    ensures Cascade(f).rank == Straight
  {
  }

  // ----- which category a hand gets -----

  /** Some rank occurs exactly k times. */
  ghost predicate HasCount(m: multiset<Rank>, k: nat)
  {
    exists r :: m[r] == k
  }

  /** Two different ranks occur exactly twice each. */
  ghost predicate HasTwoPairs(m: multiset<Rank>)
  {
    exists r1, r2 :: r1 != r2 && m[r1] == 2 && m[r2] == 2
  }

  /** With two or more present ranks, the two largest counts belong to two different ranks. */
  lemma TopTwoAttained(ranks: seq<Rank>, order: seq<Rank>, l: seq<int>)
    requires Tally(ranks, order, l) && |l| >= 2
    ensures exists r1, r2 :: r1 != r2 && multiset(ranks)[r1] == At(SortBy(l, Id), 0) && multiset(ranks)[r2] == At(SortBy(l, Id), 1)
  {
    SortByFacts(l, Id);
    SortedTopTwo(l);
    var p, q :| 0 <= p < |l| && 0 <= q < |l| && p != q && l[p] == SortBy(l, Id)[0] && l[q] == SortBy(l, Id)[1];
    assert order[p] != order[q];
  }

  /** A rank counted k >= 1 times is at most the top count; when below it, the two fit in five cards. */
  lemma BelowTop(f: Features, r: Rank)
    requires FiveFacts(f) && multiset(f.ranks)[r] >= 1
    ensures multiset(f.ranks)[r] <= At(f.counts, 0)
    ensures exists t :: multiset(f.ranks)[t] == At(f.counts, 0)
    ensures multiset(f.ranks)[r] < At(f.counts, 0) ==> multiset(f.ranks)[r] + At(f.counts, 0) <= 5
  {
    TopCount(f.ranks, f.order, EntryValues(f.rankCounts, f.order));
    assert r in multiset(f.ranks);
    var t :| t in f.order && multiset(f.ranks)[t] == At(f.counts, 0);
    if multiset(f.ranks)[r] < At(f.counts, 0) {
      CountPairBound(f.ranks, r, t);
    }
  }

  lemma QuadsCount(f: Features)
    requires FiveFacts(f)
    ensures At(f.counts, 0) == 4 <==> HasCount(multiset(f.ranks), 4)
  {
    if HasCount(multiset(f.ranks), 4) {
      var r :| multiset(f.ranks)[r] == 4;
      BelowTop(f, r);
    } else {
      TopCount(f.ranks, f.order, EntryValues(f.rankCounts, f.order));
    }
  }

  lemma TripsCount(f: Features)
    requires FiveFacts(f)
    ensures At(f.counts, 0) == 3 <==> HasCount(multiset(f.ranks), 3)
  {
    if HasCount(multiset(f.ranks), 3) {
      var r :| multiset(f.ranks)[r] == 3;
      BelowTop(f, r);
    } else {
      TopCount(f.ranks, f.order, EntryValues(f.rankCounts, f.order));
    }
  }

  lemma PairCount(f: Features)
    requires FiveFacts(f)
    ensures At(f.counts, 0) == 2 <==> HasCount(multiset(f.ranks), 2) && !HasCount(multiset(f.ranks), 3)
  {
    var m := multiset(f.ranks);
    if HasCount(m, 2) {
      var r :| m[r] == 2;
      BelowTop(f, r);
      var t :| m[t] == At(f.counts, 0);
      if HasCount(m, 3) {
        var u :| m[u] == 3;
        BelowTop(f, u);
      }
    } else {
      TopCount(f.ranks, f.order, EntryValues(f.rankCounts, f.order));
    }
  }

  lemma FullHouseCount(f: Features)
    requires FiveFacts(f) && At(f.counts, 0) == 3
    ensures At(f.counts, 1) == 2 <==> HasCount(multiset(f.ranks), 2)
  {
    var m := multiset(f.ranks);
    var l := EntryValues(f.rankCounts, f.order);
    SortByFacts(l, Id);
    if At(f.counts, 1) == 2 {
      TopTwoAttained(f.ranks, f.order, l);
    }
    if HasCount(m, 2) {
      var r :| m[r] == 2;
      TopCount(f.ranks, f.order, l);
      var t :| t in f.order && m[t] == 3;
      assert r in m;
      SecondCount(f.ranks, f.order, l, t, r);
      TopTwoSum(f.ranks, f.order, l);
    }
  }

  lemma TwoPairCount(f: Features)
    requires FiveFacts(f)
    ensures At(f.counts, 0) == 2 && At(f.counts, 1) == 2 <==> HasTwoPairs(multiset(f.ranks))
  {
    var m := multiset(f.ranks);
    var l := EntryValues(f.rankCounts, f.order);
    SortByFacts(l, Id);
    if At(f.counts, 0) == 2 && At(f.counts, 1) == 2 {
      TopTwoAttained(f.ranks, f.order, l);
    }
    if HasTwoPairs(m) {
      var r1, r2 :| r1 != r2 && m[r1] == 2 && m[r2] == 2;
      TwoPairsOnTop(f, r1, r2);
    }
  }

  lemma TwoPairsOnTop(f: Features, r1: Rank, r2: Rank)
    requires FiveFacts(f) && r1 != r2
    requires multiset(f.ranks)[r1] == 2 && multiset(f.ranks)[r2] == 2
    ensures At(f.counts, 0) == 2 && At(f.counts, 1) == 2
  {
    var m := multiset(f.ranks);
    var l := EntryValues(f.rankCounts, f.order);
    assert r1 in m && r2 in m;
    SecondCount(f.ranks, f.order, l, r1, r2);
    TopCount(f.ranks, f.order, l);
    TopTwoSum(f.ranks, f.order, l);
    if At(f.counts, 0) == 3 {
      var t :| t in f.order && m[t] == 3;
      CountTripleBound(f.ranks, r1, r2, t);
    }
  }

  /** The cascade's category, test by test, in terms of the rank multiplicities. */
  lemma CascadeCategory(f: Features)
    requires FiveFacts(f)
    ensures var m := multiset(f.ranks);
      var fl := f.isFlush;
      var st := f.isStraight;
      var rank := Cascade(f).rank;
      && (rank == RoyalFlush <==> fl && st && f.values[0] == 14)
      && (rank == StraightFlush <==> fl && st && f.values[0] != 14)
      && (rank == FourOfAKind <==> !(fl && st) && HasCount(m, 4))
      && (rank == FullHouse <==> !(fl && st) && HasCount(m, 3) && HasCount(m, 2))
      && (rank == Flush <==> fl && !st && !HasCount(m, 4) && !(HasCount(m, 3) && HasCount(m, 2)))
      && (rank == Straight <==> !fl && st && !HasCount(m, 4) && !(HasCount(m, 3) && HasCount(m, 2)))
      && (rank == ThreeOfAKind <==> !fl && !st && HasCount(m, 3) && !HasCount(m, 2))
      && (rank == TwoPair <==> !fl && !st && HasTwoPairs(m))
      && (rank == OnePair <==> !fl && !st && HasCount(m, 2) && !HasCount(m, 3) && !HasTwoPairs(m))
      && (rank == HighCard <==> !fl && !st && !HasCount(m, 2) && !HasCount(m, 3) && !HasCount(m, 4))
  {
    QuadsCount(f);
    TripsCount(f);
    PairCount(f);
    TwoPairCount(f);
    if At(f.counts, 0) == 3 {
      FullHouseCount(f);
    }
  }

  /**
   * The category evaluateFiveCards reports for any five cards, in its priority
   * order, from the suits, the values and how often each rank occurs.
   */
  lemma EvaluateFiveCategory(cards: seq<Card>)
    requires |cards| == 5
    ensures var m := multiset(CardRanks(cards));
      var fl := IsFlush(cards);
      var st := HasRun(CardValues(cards));
      var ace := 14 in CardValues(cards);
      var rank := EvaluateFive(cards).rank;
      && (rank == RoyalFlush <==> fl && st && ace)
      && (rank == StraightFlush <==> fl && st && !ace)
      && (rank == FourOfAKind <==> !(fl && st) && HasCount(m, 4))
      && (rank == FullHouse <==> !(fl && st) && HasCount(m, 3) && HasCount(m, 2))
      && (rank == Flush <==> fl && !st && !HasCount(m, 4) && !(HasCount(m, 3) && HasCount(m, 2)))
      && (rank == Straight <==> !fl && st && !HasCount(m, 4) && !(HasCount(m, 3) && HasCount(m, 2)))
      && (rank == ThreeOfAKind <==> !fl && !st && HasCount(m, 3) && !HasCount(m, 2))
      && (rank == TwoPair <==> !fl && !st && HasTwoPairs(m))
      && (rank == OnePair <==> !fl && !st && HasCount(m, 2) && !HasCount(m, 3) && !HasTwoPairs(m))
      && (rank == HighCard <==> !fl && !st && !HasCount(m, 2) && !HasCount(m, 3) && !HasCount(m, 4))
  {
    var f := FeaturesOf(cards);
    FeaturesOfFacts(cards);
    ValuesFacts(cards);
    StraightOfCards(cards);
    CascadeCategory(f);
  }
}
