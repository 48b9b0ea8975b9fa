/**
 * lib/equity.ts: hero's equity against a position's range, estimated by
 * dealing random runouts against random villain combos.
 *
 * Math.random is replaced by injected draws: for trial k, draws[k].pick
 * chooses the villain combo and draws[k].shuffle drives shuffleDeck.
 * Percentages are exact rationals; the rounding to one decimal is left out.
 */
module Equity {
  import opened Types
  import opened Sequences
  import opened Cards
  import opened Evaluator
  import opened HandSearch
  import opened Ranges

  // ----- compareKickers -----

  /**
   * compareKickers over the common prefix: the sign of the first kicker
   * that differs, 0 when none does. The model's kickers are ranks, so the
   * `|| 0` fallback for an unknown character never applies.
   */
  function KickerOrder(hero: seq<Rank>, villain: seq<Rank>): (r: int)
    ensures r == -1 || r == 0 || r == 1
  {
    if |hero| == 0 || |villain| == 0 then 0
    else if RankValue(hero[0]) > RankValue(villain[0]) then 1
    else if RankValue(hero[0]) < RankValue(villain[0]) then -1
    else KickerOrder(hero[1..], villain[1..])
  }

  /** compareKickers, with its loop and early returns. */
  method CompareKickers(heroKickers: seq<Rank>, villainKickers: seq<Rank>) returns (r: int)
    ensures r == KickerOrder(heroKickers, villainKickers)
  {
    var n := if |heroKickers| < |villainKickers| then |heroKickers| else |villainKickers|;
    for i := 0 to n
      invariant KickerOrder(heroKickers, villainKickers) == KickerOrder(heroKickers[i..], villainKickers[i..])
    {
      var heroValue := RankValue(heroKickers[i]);
      var villainValue := RankValue(villainKickers[i]);
      assert heroKickers[i..][1..] == heroKickers[i + 1..];
      assert villainKickers[i..][1..] == villainKickers[i + 1..];
      if heroValue > villainValue {
        return 1;
      }
      if heroValue < villainValue {
        return -1;
      }
    }
    return 0;
  }

  /** The first `n` kickers of both lists have the same values. */
  predicate SamePrefix(a: seq<Rank>, b: seq<Rank>, n: nat)
    requires n <= |a| && n <= |b|
  {
    forall i :: 0 <= i < n ==> RankValue(a[i]) == RankValue(b[i])
  }

  /**
   * The comparison read off the lists: 1 exactly when the first kicker that
   * differs within the common prefix is higher for hero, and 0 exactly
   * when none differs.
   */
  lemma {:induction false} KickerOrderMeaning(a: seq<Rank>, b: seq<Rank>)
    ensures var n := if |a| < |b| then |a| else |b|;
      && (KickerOrder(a, b) == 0 <==> SamePrefix(a, b, n))
      && (KickerOrder(a, b) == 1 <==>
            exists i :: 0 <= i < n && SamePrefix(a, b, i) && RankValue(a[i]) > RankValue(b[i]))
  {
    var n := if |a| < |b| then |a| else |b|;
    if n > 0 {
      var a', b' := a[1..], b[1..];
      KickerOrderMeaning(a', b');
      assert forall i :: 0 <= i < n - 1 ==> a'[i] == a[i + 1] && b'[i] == b[i + 1];
      if RankValue(a[0]) == RankValue(b[0]) {
        if SamePrefix(a', b', n - 1) {
          assert SamePrefix(a, b, n);
        }
        if SamePrefix(a, b, n) {
          assert SamePrefix(a', b', n - 1);
        }
        if KickerOrder(a, b) == 1 {
          var i :| 0 <= i < n - 1 && SamePrefix(a', b', i) && RankValue(a'[i]) > RankValue(b'[i]);
          assert SamePrefix(a, b, i + 1);
        }
        if exists i :: 0 <= i < n && SamePrefix(a, b, i) && RankValue(a[i]) > RankValue(b[i]) {
          var i :| 0 <= i < n && SamePrefix(a, b, i) && RankValue(a[i]) > RankValue(b[i]);
          assert i > 0;
          assert SamePrefix(a', b', i - 1);
        }
      } else if RankValue(a[0]) > RankValue(b[0]) {
        assert SamePrefix(a, b, 0);
      } else {
        assert !SamePrefix(a, b, n);
        forall i | 0 <= i < n && SamePrefix(a, b, i) ensures RankValue(a[i]) <= RankValue(b[i]) {
          assert i == 0;
        }
      }
    }
  }

  /** Swapping the lists flips the sign. */
  lemma {:induction false} KickerOrderAntisymmetric(a: seq<Rank>, b: seq<Rank>)
    ensures KickerOrder(a, b) == -KickerOrder(b, a)
  {
    if |a| > 0 && |b| > 0 {
      KickerOrderAntisymmetric(a[1..], b[1..]);
    }
  }

  /** A list compares equal to itself. */
  lemma {:induction false} KickerOrderSelf(a: seq<Rank>)
    ensures KickerOrder(a, a) == 0
  {
    if |a| > 0 {
      KickerOrderSelf(a[1..]);
    }
  }

  // ----- one trial -----

  datatype TrialOutcome = Win | Tie | Loss

  /** Category values first, kickers on equal values; 0 from compareKickers is a tie. */
  function Outcome(hero: HandStrength, villain: HandStrength): TrialOutcome
  {
    var heroScore := GetHandRankValue(hero.rank);
    var villainScore := GetHandRankValue(villain.rank);
    if heroScore > villainScore then Win
    else if heroScore == villainScore then
      (var comparison := KickerOrder(hero.kickers, villain.kickers);
       if comparison > 0 then Win else if comparison == 0 then Tie else Loss)
    else Loss
  }

  /** Hero wins a showdown exactly when villain would lose it with the seats swapped, and a hand ties itself. */
  lemma OutcomeSymmetric(hero: HandStrength, villain: HandStrength)
    ensures Outcome(hero, villain) == Win <==> Outcome(villain, hero) == Loss
    ensures Outcome(hero, villain) == Tie <==> Outcome(villain, hero) == Tie
    ensures Outcome(hero, hero) == Tie
  {
    KickerOrderAntisymmetric(hero.kickers, villain.kickers);
    KickerOrderSelf(hero.kickers);
  }

  /** From seven cards the best hand carries as many kickers as its category calls for. */
  lemma BestHandKickerCount(holeCards: seq<Card>, board: seq<Card>)
    requires |holeCards + board| >= 5
    ensures |BestHand(holeCards, board).kickers| == KickerCount(BestHand(holeCards, board).rank)
  {
    var combos := Combinations(holeCards + board, 5);
    BestHandIsFirstBest(holeCards, board);
    var j :| 0 <= j < |combos| && BestHand(holeCards, board) == EvaluateFive(combos[j]);
    EvaluateKickers(combos[j]);
  }

  /** Two straights, full houses, straight flushes or royal flushes of the same category always tie. */
  lemma NoKickerCategoriesTie(heroCards: seq<Card>, villainCards: seq<Card>, board: seq<Card>)
    requires |heroCards + board| >= 5 && |villainCards + board| >= 5
    requires var r := BestHand(heroCards, board).rank;
      r == BestHand(villainCards, board).rank && KickerCount(r) == 0
    ensures Outcome(BestHand(heroCards, board), BestHand(villainCards, board)) == Tie
  {
    BestHandKickerCount(heroCards, board);
    BestHandKickerCount(villainCards, board);
  }

  /** `s.slice(0, end)`: a negative end counts back from the length. */
  function Slice(s: seq<Card>, end: int): (r: seq<Card>)
    ensures 0 <= end <= |s| ==> r == s[..end]
    ensures r <= s
  {
    if end >= 0 then s[..if end < |s| then end else |s|]
    else s[..if |s| + end > 0 then |s| + end else 0]
  }

  /** The draws of one trial. */
  datatype Draw = Draw(pick: real, shuffle: seq<real>)

  /** Each draw is a Math.random value, and each shuffle has a value for every swap of a deck of up to 52 cards. */
  predicate ValidDraws(draws: seq<Draw>, iterations: nat)
  {
    && |draws| >= iterations
    && forall k :: 0 <= k < |draws| ==> 0.0 <= draws[k].pick < 1.0 && UnitDraws(draws[k].shuffle) && |draws[k].shuffle| >= 51
  }

  /** The board a trial evaluates: the known board, then the first 5 - |board| cards of the shuffled stub. */
  function FinalBoard(board: seq<Card>, remainingDeck: seq<Card>, villainHand: seq<Card>, shuffle: seq<real>): seq<Card>
    requires |remainingDeck| <= 52 && UnitDraws(shuffle) && |shuffle| >= 51
  {
    board + Slice(Shuffle(RemoveCards(remainingDeck, villainHand), shuffle), 5 - |board|)
  }

  /** The villain combo a trial picks: Math.floor(pick * n). */
  function VillainHand(villainCombos: seq<Combo>, pick: real): Combo
    requires |villainCombos| > 0 && 0.0 <= pick < 1.0
  {
    villainCombos[RandomIndex(pick, |villainCombos|)]
  }

  /** The result of one trial. */
  function TrialOutcomeOf(hero: seq<Card>, board: seq<Card>, remainingDeck: seq<Card>, villainCombos: seq<Combo>, draw: Draw): TrialOutcome
    requires |villainCombos| > 0 && |remainingDeck| <= 52
    requires 0.0 <= draw.pick < 1.0 && UnitDraws(draw.shuffle) && |draw.shuffle| >= 51
  {
    var villainHand := VillainHand(villainCombos, draw.pick);
    var finalBoard := FinalBoard(board, remainingDeck, villainHand, draw.shuffle);
    Outcome(BestHand(hero, finalBoard), BestHand(villainHand, finalBoard))
  }

  /** The outcomes of the first n trials, in order. */
  function Outcomes(hero: seq<Card>, board: seq<Card>, remainingDeck: seq<Card>, villainCombos: seq<Combo>, draws: seq<Draw>, n: nat): (r: seq<TrialOutcome>)
    requires |villainCombos| > 0 && |remainingDeck| <= 52 && ValidDraws(draws, n)
    ensures |r| == n
  {
    if n == 0 then []
    else Outcomes(hero, board, remainingDeck, villainCombos, draws, n - 1) + [TrialOutcomeOf(hero, board, remainingDeck, villainCombos, draws[n - 1])]
  }

  datatype Tally = Tally(wins: nat, ties: nat)

  /** The wins and ties the trial loop counts over a run of outcomes. */
  function Count(outcomes: seq<TrialOutcome>): Tally
  {
    if |outcomes| == 0 then Tally(0, 0)
    else
      var t := Count(outcomes[..|outcomes| - 1]);
      match outcomes[|outcomes| - 1]
      case Win => Tally(t.wins + 1, t.ties)
      case Tie => Tally(t.wins, t.ties + 1)
      case Loss => t
  }

  lemma CountSnoc(done: seq<TrialOutcome>, outcome: TrialOutcome)
    ensures Count(done + [outcome]) == match outcome
      case Win => Tally(Count(done).wins + 1, Count(done).ties)
      case Tie => Tally(Count(done).wins, Count(done).ties + 1)
      case Loss => Count(done)
  {
    assert (done + [outcome])[..|done|] == done;
  }

  /** Every trial adds at most one win or one tie, and the counts are exactly the wins and the ties. */
  lemma {:induction false} CountFacts(outcomes: seq<TrialOutcome>)
    ensures Count(outcomes).wins + Count(outcomes).ties <= |outcomes|
    ensures Count(outcomes).wins == multiset(outcomes)[Win]
    ensures Count(outcomes).ties == multiset(outcomes)[Tie]
  {
    if |outcomes| > 0 {
      var prefix := outcomes[..|outcomes| - 1];
      CountFacts(prefix);
      assert outcomes == prefix + [outcomes[|outcomes| - 1]];
    }
  }

  // ----- the villain's combos -----

  /** `combo.some(c => usedCards.some(...))`: the combo shares a card with hero or the board. */
  predicate Blocked(combo: Combo, used: seq<Card>)
  {
    exists k :: 0 <= k < |combo| && CardsContain(used, combo[k])
  }

  /** The combos of the list, in order, that are not blocked. */
  function Unblocked(combos: seq<Combo>, used: seq<Card>): (r: seq<Combo>)
    ensures forall c :: c in r <==> c in combos && !Blocked(c, used)
  {
    if |combos| == 0 then []
    else
      var last := combos[|combos| - 1];
      assert combos == combos[..|combos| - 1] + [last];
      Unblocked(combos[..|combos| - 1], used) + (if Blocked(last, used) then [] else [last])
  }

  /** getAllCombos of each key of a range, in enumeration order. */
  function KeyCombos(range: PositionRange): (lists: seq<seq<Combo>>)
    ensures |lists| == |range|
  {
    if |range| == 0 then [] else KeyCombos(range[..|range| - 1]) + [CombosOf(range[|range| - 1].hand)]
  }

  lemma {:induction false} KeyCombosAt(range: PositionRange, i: nat)
    requires i < |range|
    ensures KeyCombos(range)[i] == CombosOf(range[i].hand)
  {
    if i < |range| - 1 {
      KeyCombosAt(range[..|range| - 1], i);
    }
  }

  /** The test that skips a key: neither a raising nor a calling frequency. */
  predicate Skipped(action: RangeAction)
  {
    action.raise == 0 && action.call == 0
  }

  /** For the first n keys of the position's table, whether the loop takes their combos. */
  function PlayedPrefix(book: RangeBook, position: Position, n: nat): (played: seq<bool>)
    requires n <= |GetRangeForPosition(book, position)|
    ensures |played| == n
  {
    if n == 0 then []
    else PlayedPrefix(book, position, n - 1) + [KeyPlayed(book, position, n - 1)]
  }

  /** Key i of the position's table is not skipped. */
  predicate KeyPlayed(book: RangeBook, position: Position, i: nat)
    requires i < |GetRangeForPosition(book, position)|
  {
    !Skipped(GetHandAction(book, position, GetRangeForPosition(book, position)[i].hand))
  }

  function PlayedKeys(book: RangeBook, position: Position): (played: seq<bool>)
    ensures |played| == |GetRangeForPosition(book, position)|
  {
    PlayedPrefix(book, position, |GetRangeForPosition(book, position)|)
  }

  lemma {:induction false} PlayedPrefixAt(book: RangeBook, position: Position, n: nat, i: nat)
    requires i < n <= |GetRangeForPosition(book, position)|
    ensures PlayedPrefix(book, position, n)[i] == KeyPlayed(book, position, i)
  {
    var prev := PlayedPrefix(book, position, n - 1);
    assert PlayedPrefix(book, position, n) == prev + [KeyPlayed(book, position, n - 1)];
    if i < n - 1 {
      PlayedPrefixAt(book, position, n - 1, i);
    }
  }

  /** Key i's entries: its combos and whether the loop takes them. */
  lemma KeyAt(book: RangeBook, position: Position, i: nat)
    requires i < |GetRangeForPosition(book, position)|
    ensures var range := GetRangeForPosition(book, position);
      && KeyCombos(range)[i] == CombosOf(range[i].hand)
      && PlayedKeys(book, position)[i] == !Skipped(GetHandAction(book, position, range[i].hand))
  {
    KeyCombosAt(GetRangeForPosition(book, position), i);
    PlayedPrefixAt(book, position, |GetRangeForPosition(book, position)|, i);
  }

  /** The combos pushed for the first n keys: the unblocked combos of each played key, in order. */
  function CandidatesAfter(lists: seq<seq<Combo>>, played: seq<bool>, used: seq<Card>, n: nat): seq<Combo>
    requires |played| == |lists| && n <= |lists|
  {
    if n == 0 then []
    else CandidatesAfter(lists, played, used, n - 1) + (if played[n - 1] then Unblocked(lists[n - 1], used) else [])
  }

  /** villainCombos: every combo of a hand the position plays that avoids the used cards. */
  function VillainCombos(book: RangeBook, position: Position, used: seq<Card>): seq<Combo>
  {
    var range := GetRangeForPosition(book, position);
    CandidatesAfter(KeyCombos(range), PlayedKeys(book, position), used, |range|)
  }

  /** The candidates are exactly the unblocked combos of the played keys. */
  lemma {:induction false} CandidatesAfterMembers(lists: seq<seq<Combo>>, played: seq<bool>, used: seq<Card>, n: nat, c: Combo)
    requires |played| == |lists| && n <= |lists|
    ensures c in CandidatesAfter(lists, played, used, n) <==>
      !Blocked(c, used) && exists i :: 0 <= i < n && played[i] && c in lists[i]
  {
    if n > 0 {
      var prev := CandidatesAfter(lists, played, used, n - 1);
      var extra := if played[n - 1] then Unblocked(lists[n - 1], used) else [];
      assert CandidatesAfter(lists, played, used, n) == prev + extra;
      CandidatesAfterMembers(lists, played, used, n - 1, c);
      if !Blocked(c, used) && exists i :: 0 <= i < n && played[i] && c in lists[i] {
        var i :| 0 <= i < n && played[i] && c in lists[i];
        if i == n - 1 {
          assert c in extra;
        }
      }
    }
  }

  /**
   * The villain's combos are exactly the unblocked combos of the keys whose
   * action raises or calls at some nonzero frequency.
   */
  lemma VillainCombosMembers(book: RangeBook, position: Position, used: seq<Card>, c: Combo)
    ensures var range := GetRangeForPosition(book, position);
      c in VillainCombos(book, position, used) <==>
        !Blocked(c, used) && exists i :: 0 <= i < |range| && !Skipped(GetHandAction(book, position, range[i].hand)) && c in CombosOf(range[i].hand)
  {
    var range := GetRangeForPosition(book, position);
    var lists, played := KeyCombos(range), PlayedKeys(book, position);
    CandidatesAfterMembers(lists, played, used, |range|, c);
    forall i | 0 <= i < |range|
      ensures (played[i] && c in lists[i]) <==> (!Skipped(GetHandAction(book, position, range[i].hand)) && c in CombosOf(range[i].hand))
    {
      KeyAt(book, position, i);
    }
  }

  /** Every villain combo is two cards, neither of them hero's or on the board. */
  lemma VillainCombosAvoidUsed(book: RangeBook, position: Position, used: seq<Card>, c: Combo)
    requires c in VillainCombos(book, position, used)
    ensures |c| == 2 && c[0] !in used && c[1] !in used
  {
    var range := GetRangeForPosition(book, position);
    VillainCombosMembers(book, position, used, c);
    var i :| 0 <= i < |range| && !Skipped(GetHandAction(book, position, range[i].hand)) && c in CombosOf(range[i].hand);
    CombosOfPairs(range[i].hand);
  }

  // ----- calculateEquityVsRange -----

  /** Win and tie percentages of the trials, and equity as win plus half the ties. */
  function Rates(t: Tally, samples: nat): (r: EquityResult)
    requires samples > 0
  {
    var win := t.wins as real / samples as real * 100.0;
    var tie := t.ties as real / samples as real * 100.0;
    EquityResult(win + tie / 2.0, win, tie, samples)
  }

  /** What calculateEquityVsRange returns, before rounding. */
  function EquityVsRange(heroCards: HoleCards, board: seq<Card>, book: RangeBook, villainPosition: Position, iterations: nat, draws: seq<Draw>): EquityResult
    requires iterations > 0 && ValidDraws(draws, iterations)
  {
    match heroCards
    case NoHoleCards => EquityResult(0.0, 0.0, 0.0, 0)
    case HoleCards(a, b) =>
      var used := [a, b] + board;
      var remainingDeck := RemoveCards(FullDeck(), used);
      var villainCombos := VillainCombos(book, villainPosition, used);
      if |villainCombos| == 0 then EquityResult(100.0, 100.0, 0.0, 0)
      else
        Rates(Count(Outcomes([a, b], board, remainingDeck, villainCombos, draws, iterations)), iterations)
  }

  /** The inner loop over one hand's combos: push each combo that shares no card with hero or the board. */
  method PushUnblocked(villainCombos: seq<Combo>, combos: seq<Combo>, usedCards: seq<Card>) returns (pushed: seq<Combo>)
    ensures pushed == villainCombos + Unblocked(combos, usedCards)
  {
    pushed := villainCombos;
    for j := 0 to |combos|
      invariant pushed == villainCombos + Unblocked(combos[..j], usedCards)
    {
      var combo := combos[j];
      assert combos[..j + 1] == combos[..j] + [combo];
      var isBlocked := Blocked(combo, usedCards);
      if !isBlocked {
        pushed := pushed + [combo];
      }
    }
    assert combos[..|combos|] == combos;
  }

  /** What the villain loop pushes for key i. */
  function CandidateStep(book: RangeBook, position: Position, used: seq<Card>, i: nat): seq<Combo>
    requires i < |GetRangeForPosition(book, position)|
  {
    var hand := GetRangeForPosition(book, position)[i].hand;
    if Skipped(GetHandAction(book, position, hand)) then [] else Unblocked(CombosOf(hand), used)
  }

  lemma CandidatesStep(book: RangeBook, position: Position, used: seq<Card>, i: nat)
    requires i < |GetRangeForPosition(book, position)|
    ensures var range := GetRangeForPosition(book, position);
      CandidatesAfter(KeyCombos(range), PlayedKeys(book, position), used, i + 1) ==
      CandidatesAfter(KeyCombos(range), PlayedKeys(book, position), used, i) + CandidateStep(book, position, used, i)
  {
    KeyAt(book, position, i);
  }

  /**
   * The villain loop of calculateEquityVsRange: for each key of the
   * position's table that is not skipped, push its combos that avoid the
   * used cards.
   */
  method CollectVillainCombos(book: RangeBook, villainPosition: Position, usedCards: seq<Card>) returns (villainCombos: seq<Combo>)
    ensures villainCombos == VillainCombos(book, villainPosition, usedCards)
  {
    var villainRange := GetRangeForPosition(book, villainPosition);
    ghost var lists, played := KeyCombos(villainRange), PlayedKeys(book, villainPosition);
    villainCombos := [];
    for i := 0 to |villainRange|
      invariant villainCombos == CandidatesAfter(lists, played, usedCards, i)
    {
      villainCombos := VisitKey(book, villainPosition, usedCards, i, villainCombos);
    }
    VillainCombosAll(book, villainPosition, usedCards);
  }

  lemma VillainCombosAll(book: RangeBook, position: Position, used: seq<Card>)
    ensures var range := GetRangeForPosition(book, position);
      VillainCombos(book, position, used) == CandidatesAfter(KeyCombos(range), PlayedKeys(book, position), used, |range|)
  {
  }

  /** One key of the villain loop: skip it when it neither raises nor calls, otherwise push its unblocked combos. */
  method VisitKey(book: RangeBook, villainPosition: Position, usedCards: seq<Card>, i: nat, villainCombos: seq<Combo>)
    returns (pushed: seq<Combo>)
    requires i < |GetRangeForPosition(book, villainPosition)|
    requires villainCombos == CandidatesAfter(KeyCombos(GetRangeForPosition(book, villainPosition)), PlayedKeys(book, villainPosition), usedCards, i)
    ensures pushed == CandidatesAfter(KeyCombos(GetRangeForPosition(book, villainPosition)), PlayedKeys(book, villainPosition), usedCards, i + 1)
  {
    CandidatesStep(book, villainPosition, usedCards, i);
    var hand := GetRangeForPosition(book, villainPosition)[i].hand;
    var action := GetHandAction(book, villainPosition, hand);
    if action.raise == 0 && action.call == 0 {
      return villainCombos;
    }
    var combos := GetAllCombos(hand);
    pushed := PushUnblocked(villainCombos, combos, usedCards);
  }

  /**
   * One pass of the trial loop: pick the villain combo, deal the runout
   * from the shuffled stub, evaluate both hands and compare them.
   */
  method RunTrial(hero: seq<Card>, board: seq<Card>, remainingDeck: seq<Card>, villainCombos: seq<Combo>, draw: Draw)
    returns (outcome: TrialOutcome)
    requires |villainCombos| > 0 && |remainingDeck| <= 52
    requires 0.0 <= draw.pick < 1.0 && UnitDraws(draw.shuffle) && |draw.shuffle| >= 51
    ensures outcome == TrialOutcomeOf(hero, board, remainingDeck, villainCombos, draw)
  {
    var villainHand := villainCombos[RandomIndex(draw.pick, |villainCombos|)];
    var deckWithoutVillain := RemoveCards(remainingDeck, villainHand);
    var cardsNeeded := 5 - |board|;
    var shuffled := ShuffleDeck(deckWithoutVillain, draw.shuffle);
    var runout := Slice(shuffled, cardsNeeded);
    var finalBoard := board + runout;
    assert finalBoard == FinalBoard(board, remainingDeck, villainHand, draw.shuffle);

    var heroStrength := EvaluateHand(hero, finalBoard);
    var villainStrength := EvaluateHand(villainHand, finalBoard);
    var heroScore := GetHandRankValue(heroStrength.rank);
    var villainScore := GetHandRankValue(villainStrength.rank);
    outcome := Loss;
    if heroScore > villainScore {
      outcome := Win;
    } else if heroScore == villainScore {
      var comparison := CompareKickers(heroStrength.kickers, villainStrength.kickers);
      if comparison > 0 {
        outcome := Win;
      } else if comparison == 0 {
        outcome := Tie;
      }
    }
  }

  /** The trial loop: run each trial and count the wins and ties. */
  method RunTrials(hero: seq<Card>, board: seq<Card>, remainingDeck: seq<Card>, villainCombos: seq<Combo>, iterations: nat, draws: seq<Draw>)
    returns (wins: nat, ties: nat, samples: nat)
    requires |villainCombos| > 0 && |remainingDeck| <= 52 && ValidDraws(draws, iterations)
    ensures samples == iterations
    ensures Tally(wins, ties) == Count(Outcomes(hero, board, remainingDeck, villainCombos, draws, iterations))
  {
    wins, ties, samples := 0, 0, 0;
    for i := 0 to iterations
      invariant samples == i
      invariant Tally(wins, ties) == Count(Outcomes(hero, board, remainingDeck, villainCombos, draws, i))
    {
      var outcome := RunTrial(hero, board, remainingDeck, villainCombos, draws[i]);
      CountSnoc(Outcomes(hero, board, remainingDeck, villainCombos, draws, i), outcome);
      if outcome == Win {
        wins := wins + 1;
      } else if outcome == Tie {
        ties := ties + 1;
      }
      samples := samples + 1;
    }
  }

  /** calculateEquityVsRange: the villain-combo loops, then the counted trial loop. */
  method CalculateEquityVsRange(heroCards: HoleCards, board: seq<Card>, book: RangeBook, villainPosition: Position, iterations: nat, draws: seq<Draw>)
    returns (result: EquityResult)
    requires iterations > 0 && ValidDraws(draws, iterations)
    ensures result == EquityVsRange(heroCards, board, book, villainPosition, iterations, draws)
  {
    if heroCards.NoHoleCards? {
      return EquityResult(0.0, 0.0, 0.0, 0);
    }
    var hero := [heroCards.first, heroCards.second];
    var usedCards := hero + board;
    var deck := CreateDeck();
    var remainingDeck := RemoveCards(deck, usedCards);
    FullDeckFacts();

    var villainCombos := CollectVillainCombos(book, villainPosition, usedCards);

    if |villainCombos| == 0 {
      return EquityResult(100.0, 100.0, 0.0, 0);
    }

    var wins, ties, samples := RunTrials(hero, board, remainingDeck, villainCombos, iterations, draws);
    result := Rates(Tally(wins, ties), samples);
  }

  /** calculatePrelopEquity: the same estimate with no board. */
  method CalculatePreflopEquity(heroCards: HoleCards, book: RangeBook, villainPosition: Position, iterations: nat, draws: seq<Draw>)
    returns (result: EquityResult)
    requires iterations > 0 && ValidDraws(draws, iterations)
    ensures result == EquityVsRange(heroCards, [], book, villainPosition, iterations, draws)
  {
    result := CalculateEquityVsRange(heroCards, [], book, villainPosition, iterations, draws);
  }

  // ----- what the estimate promises -----

  /** Without hole cards nothing is simulated. */
  lemma NoHeroCards(board: seq<Card>, book: RangeBook, villainPosition: Position, iterations: nat, draws: seq<Draw>)
    requires iterations > 0 && ValidDraws(draws, iterations)
    ensures EquityVsRange(NoHoleCards, board, book, villainPosition, iterations, draws) == EquityResult(0.0, 0.0, 0.0, 0)
  {
  }

  /** When every combo of the range is blocked, hero is given 100% with no trials. */
  lemma NoVillainCombos(a: Card, b: Card, board: seq<Card>, book: RangeBook, villainPosition: Position, iterations: nat, draws: seq<Draw>)
    requires iterations > 0 && ValidDraws(draws, iterations)
    requires |VillainCombos(book, villainPosition, [a, b] + board)| == 0
    ensures EquityVsRange(HoleCards(a, b), board, book, villainPosition, iterations, draws) == EquityResult(100.0, 100.0, 0.0, 0)
  {
  }

  lemma DivAdd(x: real, y: real, n: real)
    requires n > 0.0
    ensures x / n + y / n == (x + y) / n
  {
  }

  lemma DivAtMostOne(x: real, n: real)
    requires 0.0 <= x <= n && n > 0.0
    ensures 0.0 <= x / n <= 1.0
  {
    assert x / n * n == x;
  }

  /** Counts of at most one win or tie per sample give percentages within [0, 100], with equity between them. */
  lemma RatesBounds(t: Tally, samples: nat)
    requires samples > 0 && t.wins + t.ties <= samples
    ensures var r := Rates(t, samples);
      && r.samples == samples
      && 0.0 <= r.win && 0.0 <= r.tie && r.win + r.tie <= 100.0
      && r.equity == r.win + r.tie / 2.0
      && 0.0 <= r.equity <= 100.0
  {
    var n := samples as real;
    var w, h := t.wins as real, t.ties as real;
    DivAdd(w, h, n);
    DivAtMostOne(w + h, n);
    DivAtMostOne(w, n);
    DivAtMostOne(h, n);
  }

  /**
   * With villain combos to draw from, every iteration is a sample, win and
   * tie are the shares of won and tied trials, they add up to at most 100,
   * and equity is win plus half the ties.
   */
  lemma EquityCounts(a: Card, b: Card, board: seq<Card>, book: RangeBook, villainPosition: Position, iterations: nat, draws: seq<Draw>)
    requires iterations > 0 && ValidDraws(draws, iterations)
    requires |VillainCombos(book, villainPosition, [a, b] + board)| > 0
    ensures var r := EquityVsRange(HoleCards(a, b), board, book, villainPosition, iterations, draws);
      && r.samples == iterations
      && 0.0 <= r.win && 0.0 <= r.tie && r.win + r.tie <= 100.0
      && r.equity == r.win + r.tie / 2.0
      && 0.0 <= r.equity <= 100.0
  {
    var used := [a, b] + board;
    var outcomes := Outcomes([a, b], board, RemoveCards(FullDeck(), used), VillainCombos(book, villainPosition, used), draws, iterations);
    assert EquityVsRange(HoleCards(a, b), board, book, villainPosition, iterations, draws) == Rates(Count(outcomes), iterations);
    CountFacts(outcomes);
    RatesBounds(Count(outcomes), iterations);
  }

  // ----- the dealt cards -----

  /** The cards left for a runout after hero, the board and a villain combo are taken out. */
  lemma StubFacts(used: seq<Card>, villainHand: seq<Card>)
    ensures var stub := RemoveCards(RemoveCards(FullDeck(), used), villainHand);
      && NoDup(stub)
      && |stub| >= 52 - |used| - |villainHand|
      && forall c :: c in stub <==> c !in used && c !in villainHand
  {
    FullDeckFacts();
    var remaining := RemoveCards(FullDeck(), used);
    RemoveCardsNoDup(FullDeck(), used);
    RemoveCardsSize(FullDeck(), used);
    RemoveCardsNoDup(remaining, villainHand);
    RemoveCardsSize(remaining, villainHand);
  }

  /**
   * Dealing the first 5 - |board| cards of a rearranged stub onto the board:
   * five different cards, the board first, none of them to be avoided, when
   * the stub has no repetition, holds enough cards and avoids the board.
   */
  lemma DealFacts(board: seq<Card>, avoid: seq<Card>, stub: seq<Card>, shuffled: seq<Card>)
    requires NoDup(board) && |board| <= 5 && NoDup(stub) && |stub| >= 5 - |board|
    requires multiset(shuffled) == multiset(stub)
    requires forall c :: c in stub ==> c !in board && c !in avoid
    requires forall c :: c in board ==> c !in avoid
    ensures var fb := board + Slice(shuffled, 5 - |board|);
      |fb| == 5 && fb[..|board|] == board && NoDup(fb) && forall c :: c in fb ==> c !in avoid
  {
    NoDupPermutation(stub, shuffled);
    assert |shuffled| == |multiset(shuffled)| == |stub|;
    var runout := shuffled[..5 - |board|];
    assert Slice(shuffled, 5 - |board|) == runout;
    forall c | c in runout ensures c in stub {
      assert c in shuffled;
      assert c in multiset(shuffled);
    }
    assert NoDup(runout);
    NoDupAppend(board, runout);
    var fb := board + runout;
    assert fb[..|board|] == board;
    forall c | c in fb ensures c !in avoid {
      if c in runout {
        assert c in stub;
      }
    }
  }

  /**
   * With two different hole cards, a board of at most five different cards
   * apart from them, and a villain combo of two cards from neither, the
   * final board is five different cards that starts with the board and
   * shares none with hero or villain.
   */
  lemma FinalBoardFacts(a: Card, b: Card, board: seq<Card>, villainHand: Combo, shuffle: seq<real>)
    requires a != b && NoDup(board) && |board| <= 5 && a !in board && b !in board
    requires |villainHand| == 2 && villainHand[0] !in [a, b] + board && villainHand[1] !in [a, b] + board
    requires UnitDraws(shuffle) && |shuffle| >= 51
    ensures var fb := FinalBoard(board, RemoveCards(FullDeck(), [a, b] + board), villainHand, shuffle);
      && |fb| == 5
      && fb[..|board|] == board
      && NoDup(fb)
      && a !in fb && b !in fb
      && Disjoint(villainHand, fb)
  {
    var used := [a, b] + board;
    var stub := RemoveCards(RemoveCards(FullDeck(), used), villainHand);
    var avoid := [a, b] + villainHand;
    StubAvoids(a, b, board, villainHand);
    ShufflePermutes(stub, shuffle);
    BoardAvoids(a, b, board, villainHand);
    DealFacts(board, avoid, stub, Shuffle(stub, shuffle));
    var fb := board + Slice(Shuffle(stub, shuffle), 5 - |board|);
    assert fb == FinalBoard(board, RemoveCards(FullDeck(), used), villainHand, shuffle);
    assert a in avoid && b in avoid;
    forall x | x in villainHand ensures x !in fb {
      assert x in avoid;
    }
  }

  /** The stub a trial shuffles holds at least 5 - |board| different cards, none on the board, in hero's hand or in villain's. */
  lemma StubAvoids(a: Card, b: Card, board: seq<Card>, villainHand: Combo)
    requires |board| <= 5 && |villainHand| == 2
    ensures var stub := RemoveCards(RemoveCards(FullDeck(), [a, b] + board), villainHand);
      && NoDup(stub) && |stub| >= 5 - |board|
      && forall c :: c in stub ==> c !in board && c !in [a, b] + villainHand
  {
    StubFacts([a, b] + board, villainHand);
  }

  /** No board card is one of hero's or villain's. */
  lemma BoardAvoids(a: Card, b: Card, board: seq<Card>, villainHand: Combo)
    requires a !in board && b !in board
    requires |villainHand| == 2 && villainHand[0] !in [a, b] + board && villainHand[1] !in [a, b] + board
    ensures forall c :: c in board ==> c !in [a, b] + villainHand
  {
    assert villainHand == [villainHand[0], villainHand[1]];
    forall c | c in board ensures c !in [a, b] + villainHand {
      assert c in [a, b] + board;
    }
  }

  /** Every villain combo the trial loop can pick meets those conditions, so every trial deals such a board. */
  lemma TrialBoardFacts(a: Card, b: Card, board: seq<Card>, book: RangeBook, villainPosition: Position, villainHand: Combo, shuffle: seq<real>)
    requires a != b && NoDup(board) && |board| <= 5 && a !in board && b !in board
    requires villainHand in VillainCombos(book, villainPosition, [a, b] + board)
    requires UnitDraws(shuffle) && |shuffle| >= 51
    ensures var fb := FinalBoard(board, RemoveCards(FullDeck(), [a, b] + board), villainHand, shuffle);
      && |fb| == 5
      && fb[..|board|] == board
      && NoDup(fb)
      && a !in fb && b !in fb
      && Disjoint(villainHand, fb)
  {
    VillainCombosAvoidUsed(book, villainPosition, [a, b] + board, villainHand);
    FinalBoardFacts(a, b, board, villainHand, shuffle);
  }
}
