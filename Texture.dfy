/**
 * analyzeBoardTexture (lib/handStrength.ts): pairing, suit distribution,
 * connectivity of the distinct values and the high card of a board.
 */
module Texture {
  import opened Types
  import opened Sequences
  import opened Lists
  import opened Cards
  import opened Evaluator

  // ----- the suit histogram -----

  function CardSuits(cards: seq<Card>): (ss: seq<Suit>)
    ensures |ss| == |cards|
  {
    seq(|cards|, i requires 0 <= i < |cards| => cards[i].suit)
  }

  /** What the suit loop builds: each present suit mapped to its number of cards. */
  function SuitCounts(suits: seq<Suit>): map<Suit, int>
  {
    map s | s in suits :: multiset(suits)[s]
  }

  /** Counting one more suit bumps its entry, starting from 0. */
  lemma SuitCountsSnoc(prefix: seq<Suit>, s: Suit)
    ensures var before := SuitCounts(prefix);
      SuitCounts(prefix + [s]) == before[s := (if s in before then before[s] else 0) + 1]
  {
    var all := prefix + [s];
    assert multiset(all) == multiset(prefix) + multiset{s};
    assert forall x :: x in all <==> x in prefix || x == s;
    assert s !in prefix ==> multiset(prefix)[s] == 0;
  }

  /** The loop `suitCounts[suit] = (suitCounts[suit] || 0) + 1`. */
  method CountSuits(suits: seq<Suit>) returns (counts: map<Suit, int>)
    ensures counts == SuitCounts(suits)
  {
    counts := map[];
    for i := 0 to |suits|
      invariant counts == SuitCounts(suits[..i])
    {
      var s := suits[i];
      counts := counts[s := (if s in counts then counts[s] else 0) + 1];
      SuitCountsSnoc(suits[..i], s);
      assert suits[..i + 1] == suits[..i] + [s];
    }
    assert suits[..|suits|] == suits;
  }

  function CountOf(counts: map<Suit, int>, s: Suit): int
  {
    if s in counts then counts[s] else 0
  }

  function Max(a: int, b: int): int
  {
    if a >= b then a else b
  }

  /**
   * `Math.max(...Object.values(suitCounts))`: a suit missing from the
   * histogram is read as 0, which never beats a present suit's count.
   */
  function MaxSuitCount(counts: map<Suit, int>): int
  {
    Max(Max(CountOf(counts, Hearts), CountOf(counts, Diamonds)),
        Max(CountOf(counts, Clubs), CountOf(counts, Spades)))
  }

  /** The maximum is one of the four counts and bounds each of them. */
  lemma MaxOfFour(counts: map<Suit, int>)
    ensures forall s :: CountOf(counts, s) <= MaxSuitCount(counts)
    ensures exists s :: CountOf(counts, s) == MaxSuitCount(counts)
  {
    forall s ensures CountOf(counts, s) <= MaxSuitCount(counts) {
      match s {
        case Hearts =>
        case Diamonds =>
        case Clubs =>
        case Spades =>
      }
    }
    var m := MaxSuitCount(counts);
    if CountOf(counts, Hearts) == m {
    } else if CountOf(counts, Diamonds) == m {
    } else if CountOf(counts, Clubs) == m {
    } else {
      assert CountOf(counts, Spades) == m;
    }
  }

  /** On a non-empty board the maximum is the largest histogram value, between 1 and the board size. */
  lemma MaxSuitCountFacts(suits: seq<Suit>)
    requires |suits| > 0
    ensures var counts := SuitCounts(suits);
      var m := MaxSuitCount(counts);
      1 <= m <= |suits|
      && (forall s :: s in counts ==> counts[s] <= m)
      && (exists s :: s in counts && counts[s] == m)
      && forall s :: multiset(suits)[s] <= m
  {
    var counts := SuitCounts(suits);
    assert suits[0] in suits;
    forall s ensures multiset(suits)[s] <= |suits| {
      var other := if s == Hearts then Spades else Hearts;
      CountPairBound(suits, s, other);
    }
    forall s ensures multiset(suits)[s] == CountOf(counts, s) {
      if s !in suits {
        assert multiset(suits)[s] == 0;
      }
    }
    var m := MaxSuitCount(counts);
    MaxOfFour(counts);
    assert CountOf(counts, suits[0]) >= 1;
    var top :| CountOf(counts, top) == m;
    assert multiset(suits)[top] == m;
    assert top in counts;
  }

  // ----- the distinct values and the connectivity loop -----

  function Neg(v: int): int { -v }

  /** `Array.from(new Set(values)).sort((a, b) => a - b)`. */
  function DistinctAsc(values: seq<int>): seq<int>
  {
    SortBy(Dedup(values), Neg)
  }

  predicate StrictlyAsc(s: seq<int>)
  {
    forall i, j :: 0 <= i < j < |s| ==> s[i] < s[j]
  }

  /** The distinct values hold each board value once, in increasing order. */
  lemma DistinctAscFacts(values: seq<int>)
    ensures forall v :: v in DistinctAsc(values) <==> v in values
    ensures StrictlyAsc(DistinctAsc(values))
  {
    var d := Dedup(values);
    DedupFacts(values);
    SortByFacts(d, Neg);
    var s := SortBy(d, Neg);
    forall v ensures v in s <==> v in d {
      assert v in s <==> v in multiset(s);
    }
    NoDupPermutation(d, s);
    forall i, j | 0 <= i < j < |s| ensures s[i] < s[j] {
      assert Neg(s[i]) >= Neg(s[j]);
    }
  }

  /** Neighbours i - 1 and i are at most two apart. */
  predicate Close(sv: seq<int>, i: nat)
    requires 1 <= i < |sv|
  {
    sv[i] - sv[i - 1] <= 2
  }

  /** The loop state: currentConnected and maxConnected. */
  datatype Run = Run(current: int, longest: int)

  /** The loop state once indices 1 .. n - 1 have been handled. */
  function RunAfter(sv: seq<int>, n: nat): Run
    requires n <= |sv|
  {
    if n <= 1 then Run(1, 1)
    else
      var r := RunAfter(sv, n - 1);
      if sv[n - 1] - sv[n - 2] <= 2 then Run(r.current + 1, Max(r.longest, r.current + 1))
      else Run(1, r.longest)
  }

  function MaxConnected(sv: seq<int>): int
  {
    RunAfter(sv, |sv|).longest
  }

  /**
   * maxConnected reaches 2 exactly when some neighbours are close, and 3
   * exactly when two consecutive neighbour pairs are close.
   */
  lemma {:induction false} RunAfterFacts(sv: seq<int>, n: nat)
    requires n <= |sv|
    ensures 1 <= RunAfter(sv, n).current <= RunAfter(sv, n).longest
    ensures RunAfter(sv, n).current >= 2 <==> n >= 2 && Close(sv, n - 1)
    ensures RunAfter(sv, n).current >= 3 <==> n >= 3 && Close(sv, n - 2) && Close(sv, n - 1)
    ensures RunAfter(sv, n).longest >= 2 <==> exists i :: 1 <= i < n && Close(sv, i)
    ensures RunAfter(sv, n).longest >= 3 <==> exists i :: 2 <= i < n && Close(sv, i - 1) && Close(sv, i)
  {
    if n > 1 {
      RunAfterFacts(sv, n - 1);
      if n == 2 {
        assert RunAfter(sv, 1) == Run(1, 1);
      }
    }
  }

  // ----- the high card -----

  /** `ranks.reduce((high, rank) => value(rank) > value(high) ? rank : high)`. */
  function HighRank(ranks: seq<Rank>): Rank
    requires |ranks| > 0
  {
    if |ranks| == 1 then ranks[0]
    else
      var high := HighRank(ranks[..|ranks| - 1]);
      var r := ranks[|ranks| - 1];
      if RankValue(r) > RankValue(high) then r else high
  }

  /** The reduce yields a board rank of maximal value. */
  lemma {:induction false} HighRankIsMax(ranks: seq<Rank>)
    requires |ranks| > 0
    ensures HighRank(ranks) in ranks
    ensures forall i :: 0 <= i < |ranks| ==> RankValue(ranks[i]) <= RankValue(HighRank(ranks))
  {
    if |ranks| > 1 {
      var init := ranks[..|ranks| - 1];
      HighRankIsMax(init);
      assert forall i :: 0 <= i < |init| ==> ranks[i] == init[i];
    }
  }

  // ----- analyzeBoardTexture -----

  function ConnectivityOf(longest: int): Connectivity
  {
    if longest >= 3 then Connected else if longest >= 2 then Gapped else Disconnected
  }

  /** `Object.values(rankCounts).some(c => c >= 2)`. */
  predicate SomeCountTwo(counts: map<Rank, int>)
  {
    exists r | r in counts :: counts[r] >= 2
  }

  /** The texture analyzeBoardTexture reports. */
  function TextureOf(board: seq<Card>): BoardTexture
  {
    if |board| == 0 then
      BoardTexture(false, false, false, false, false, false, None, Disconnected)
    else
      var m := MaxSuitCount(SuitCounts(CardSuits(board)));
      var longest := MaxConnected(DistinctAsc(CardValues(board)));
      BoardTexture(
        SomeCountTwo(RankCounts(CardRanks(board))),
        m >= 3,
        m == 2 && |board| >= 3,
        m == 1,
        m >= 2 && |board| < 5,
        longest >= 2,
        Some(HighRank(CardRanks(board))),
        ConnectivityOf(longest))
  }

  /** The connectivity loop: the longest run of neighbours at most two values apart. */
  method LongestRun(sortedValues: seq<int>) returns (maxConnected: int)
    ensures maxConnected == MaxConnected(sortedValues)
  {
    maxConnected := 1;
    var currentConnected := 1;
    var i := 1;
    while i < |sortedValues|
      invariant 1 <= i
      invariant i <= |sortedValues| || |sortedValues| <= 1
      invariant Run(currentConnected, maxConnected) == RunAfter(sortedValues, if i <= |sortedValues| then i else |sortedValues|)
      decreases |sortedValues| - i
    {
      var gap := sortedValues[i] - sortedValues[i - 1];
      if gap <= 2 {
        currentConnected := currentConnected + 1;
        maxConnected := Max(maxConnected, currentConnected);
      } else {
        currentConnected := 1;
      }
      i := i + 1;
    }
  }

  /** analyzeBoardTexture: the histograms, then the connectivity loop over the sorted distinct values. */
  method AnalyzeBoardTexture(board: seq<Card>) returns (t: BoardTexture)
    ensures t == TextureOf(board)
  {
    if |board| == 0 {
      return BoardTexture(false, false, false, false, false, false, None, Disconnected);
    }
    var ranks := CardRanks(board);
    var suits := CardSuits(board);
    var values := CardValues(board);

    var rankCounts := GetRankCounts(ranks);
    var isPaired := exists r | r in rankCounts :: rankCounts[r] >= 2;

    var suitCounts := CountSuits(suits);
    var maxSuitCount := MaxSuitCount(suitCounts);
    var isMonotone := maxSuitCount >= 3;
    var isTwoTone := maxSuitCount == 2 && |board| >= 3;
    var isRainbow := maxSuitCount == 1;
    var hasFlushDraw := maxSuitCount >= 2 && |board| < 5;

    var sortedValues := DistinctAsc(values);
    var maxConnected := LongestRun(sortedValues);

    var hasStraightDraw := maxConnected >= 2;
    var connectivity := ConnectivityOf(maxConnected);
    var highCard := HighRank(ranks);
    t := BoardTexture(isPaired, isMonotone, isTwoTone, isRainbow, hasFlushDraw,
                      hasStraightDraw, Some(highCard), connectivity);
  }

  // ----- what the texture means -----

  /** An empty board reports nothing. */
  lemma EmptyBoard()
    ensures var t := TextureOf([]);
      !t.isPaired && !t.isMonotone && !t.isTwoTone && !t.isRainbow
      && !t.hasFlushDraw && !t.hasStraightDraw
      && t.highCard == None && t.connectivity == Disconnected
  {
  }

  /** The board is paired exactly when two of its cards share a rank. */
  lemma PairedIff(board: seq<Card>)
    ensures TextureOf(board).isPaired <==>
      exists p, q :: 0 <= p < q < |board| && board[p].rank == board[q].rank
  {
    if |board| > 0 {
      var ranks := CardRanks(board);
      var counts := RankCounts(ranks);
      if SomeCountTwo(counts) {
        var r :| r in counts && counts[r] >= 2;
        PositionsOfTwo(ranks, r);
        var p, q :| 0 <= p < q < |ranks| && ranks[p] == r && ranks[q] == r;
        assert board[p].rank == board[q].rank;
      }
      if p, q :| 0 <= p < q < |board| && board[p].rank == board[q].rank {
        assert ranks[p] == ranks[q];
        TwoPositions(ranks, p, q);
        assert ranks[p] in ranks;
        assert counts[ranks[p]] >= 2;
      }
    }
  }

  /**
   * The suit flags: monotone means some suit holds three cards, rainbow
   * means no suit holds two, two-tone means at least three cards with two
   * of one suit and no more of any, and on three or more cards exactly one of
   * monotone, two-tone and rainbow holds; a five-card board has no flush draw.
   */
  lemma SuitFlags(board: seq<Card>)
    requires |board| > 0
    ensures var t := TextureOf(board);
      var suits := CardSuits(board);
      (t.isMonotone <==> exists s :: multiset(suits)[s] >= 3)
      && (t.isRainbow <==> forall s :: multiset(suits)[s] <= 1)
      && (t.isTwoTone <==> |board| >= 3 && (exists s :: multiset(suits)[s] == 2) && forall s :: multiset(suits)[s] <= 2)
      && (t.hasFlushDraw <==> |board| < 5 && exists s :: multiset(suits)[s] >= 2)
      && (|board| >= 3 ==> (t.isMonotone || t.isTwoTone || t.isRainbow)
                           && !(t.isMonotone && t.isTwoTone)
                           && !(t.isMonotone && t.isRainbow)
                           && !(t.isTwoTone && t.isRainbow))
      && (|board| == 5 ==> !t.hasFlushDraw)
  {
    var suits := CardSuits(board);
    MaxSuitCountFacts(suits);
    var counts := SuitCounts(suits);
    var top :| top in counts && counts[top] == MaxSuitCount(counts);
  }

  /**
   * Connectivity over the sorted distinct values: connected exactly when
   * three of them in a row are each within two of the previous, gapped when
   * only two are, and a straight draw exactly when not disconnected.
   */
  lemma ConnectivityIff(board: seq<Card>)
    ensures var t := TextureOf(board);
      var sv := DistinctAsc(CardValues(board));
      (t.connectivity == Connected <==> exists i :: 2 <= i < |sv| && Close(sv, i - 1) && Close(sv, i))
      && (t.connectivity == Gapped <==>
            (exists i :: 1 <= i < |sv| && Close(sv, i))
            && !(exists i :: 2 <= i < |sv| && Close(sv, i - 1) && Close(sv, i)))
      && (t.hasStraightDraw <==> t.connectivity != Disconnected)
  {
    var sv := DistinctAsc(CardValues(board));
    RunAfterFacts(sv, |sv|);
  }

  /** The high card is a board rank that no board card beats. */
  lemma HighCardIsMax(board: seq<Card>)
    requires |board| > 0
    ensures TextureOf(board).highCard.Some?
    ensures exists k :: 0 <= k < |board| && board[k].rank == TextureOf(board).highCard.value
    ensures forall k :: 0 <= k < |board| ==> RankValue(board[k].rank) <= RankValue(TextureOf(board).highCard.value)
  {
    var ranks := CardRanks(board);
    HighRankIsMax(ranks);
    var h := HighRank(ranks);
    assert TextureOf(board).highCard == Some(h);
    var k :| 0 <= k < |ranks| && ranks[k] == h;
    assert board[k].rank == h;
    forall j | 0 <= j < |board| ensures RankValue(board[j].rank) <= RankValue(h) {
      assert ranks[j] == board[j].rank;
    }
  }
}
