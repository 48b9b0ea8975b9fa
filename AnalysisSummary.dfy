/**
 * components/AnalysisSummary.tsx: getActionRecommendation, the rule cascade
 * that turns the hero's range action (before the flop) or the made-hand
 * category and the equity (after it) into an action, a sizing and a
 * confidence. The reasoning strings are not modelled.
 */
module AnalysisSummary {
  import opened Types
  import opened Cards
  import opened Evaluator
  import opened HandSearch
  import opened RangeTable
  import opened Ranges
  import opened Utg

  /** handValue: getHandRankValue of what evaluateHand makes of the two hole cards and the board. */
  function HandValue(first: Card, second: Card, board: seq<Card>): (v: int)
    ensures 1 <= v <= 10
  {
    GetHandRankValue(BestHand([first, second], board).rank)
  }

  /** A flop of one or two cards leaves evaluateHand with fewer than five cards: its value is 1, high card. */
  lemma ShortBoardValue(first: Card, second: Card, board: seq<Card>)
    requires |board| < 3
    ensures HandValue(first, second, board) == 1
  {
    IncompleteHand([first, second], board);
  }

  /** The empty-board branch, given the range action (absent only when there is no classification). */
  function PreflopAdvice(rangeAction: Option<RangeAction>): (r: ActionRecommendation)
    ensures r.action != Check
    ensures r.action == Fold <==> rangeAction.None? || rangeAction.value.fold == 100
    ensures r.action == Call <==> rangeAction.Some? && rangeAction.value.fold != 100 && rangeAction.value.raise <= 0
    ensures r.confidence == High <==> rangeAction.None? || rangeAction.value.fold == 100 || rangeAction.value.raise >= 75
    ensures r.sizing.Some? <==> r.action == Raise
  {
    if rangeAction.None? || rangeAction.value.fold == 100 then ActionRecommendation(Fold, None, High)
    else if rangeAction.value.raise >= 75 then ActionRecommendation(Raise, Some("2.5-3x"), High)
    else if rangeAction.value.raise > 0 then ActionRecommendation(Raise, Some("2.5x"), Medium)
    else ActionRecommendation(Call, None, Medium)
  }

  /** The branch for a non-empty board, given the hand value and the equity in percent. */
  function PostflopAdvice(handValue: int, equity: real): (r: ActionRecommendation)
    ensures handValue >= 5 ==> r.action == Raise && r.confidence == High
    ensures r.action == Raise <==> handValue >= 5 || equity >= 60.0
    ensures r.action == Check <==> handValue < 3 && 45.0 <= equity < 60.0
    ensures r.action == Fold <==> handValue < 5 && equity < 30.0
    ensures r.confidence == Low <==> handValue < 5 && 30.0 <= equity < 45.0
    ensures r.sizing.Some? <==> r.action == Raise
  {
    if handValue >= 7 then ActionRecommendation(Raise, Some("75-100%"), High)
    else if handValue >= 5 then ActionRecommendation(Raise, Some("50-75%"), High)
    else if equity >= 60.0 then ActionRecommendation(Raise, Some("50-66%"), Medium)
    else if equity >= 45.0 then
      (if handValue >= 3 then ActionRecommendation(Call, None, Medium) else ActionRecommendation(Check, None, Medium))
    else if equity >= 30.0 then ActionRecommendation(Call, None, Low)
    else ActionRecommendation(Fold, None, if equity < 25.0 then High else Medium)
  }

  /**
   * getActionRecommendation: fold with low confidence without hole cards;
   * on an empty board the hero's range action decides, otherwise the hand
   * value and the equity do.
   */
  function GetActionRecommendation(book: RangeBook, holeCards: HoleCards, board: seq<Card>, heroPosition: Position, equity: real): (r: ActionRecommendation)
    ensures holeCards.NoHoleCards? ==> r == ActionRecommendation(Fold, None, Low)
    ensures r.action == Check <==>
      holeCards.HoleCards? && |board| > 0 && HandValue(holeCards.first, holeCards.second, board) < 3 && 45.0 <= equity < 60.0
  {
    match holeCards
    case NoHoleCards => ActionRecommendation(Fold, None, Low)
    case HoleCards(first, second) =>
      var classification := ClassifyHoleCards(holeCards);
      var rangeAction := if classification.Some? then Some(GetHandAction(book, heroPosition, classification.value.hand)) else None;
      if |board| == 0 then PreflopAdvice(rangeAction)
      else PostflopAdvice(HandValue(first, second, board), equity)
  }

  /** The notation of the hole cards, which is the key the hero's table is read with. */
  function Notation(first: Card, second: Card): string
  {
    ClassifyHoleCards(HoleCards(first, second)).value.hand
  }

  /** Before the flop the hero's action for the hand decides, threshold by threshold. */
  lemma PreflopCases(book: RangeBook, first: Card, second: Card, heroPosition: Position, equity: real)
    ensures var a := GetHandAction(book, heroPosition, Notation(first, second));
      var r := GetActionRecommendation(book, HoleCards(first, second), [], heroPosition, equity);
      && (a.fold == 100 ==> r == ActionRecommendation(Fold, None, High))
      && (a.fold != 100 && a.raise >= 75 ==> r == ActionRecommendation(Raise, Some("2.5-3x"), High))
      && (a.fold != 100 && 0 < a.raise < 75 ==> r == ActionRecommendation(Raise, Some("2.5x"), Medium))
      && (a.fold != 100 && a.raise <= 0 ==> r == ActionRecommendation(Call, None, Medium))
  {
  }

  /** A hand the hero's table does not list is folded before the flop, with high confidence. */
  lemma PreflopUnlisted(book: RangeBook, first: Card, second: Card, heroPosition: Position, equity: real)
    requires var range := GetRangeForPosition(book, heroPosition);
      forall i :: 0 <= i < |range| ==> range[i].hand != Notation(first, second)
    ensures GetActionRecommendation(book, HoleCards(first, second), [], heroPosition, equity) == ActionRecommendation(Fold, None, High)
  {
    UnlistedNotInRange(book, heroPosition, Notation(first, second));
  }

  /** After the flop a hand value of 5 or more raises whatever the equity; below that the equity decides. */
  lemma PostflopCases(book: RangeBook, first: Card, second: Card, board: seq<Card>, heroPosition: Position, equity: real)
    requires |board| > 0
    ensures var v := HandValue(first, second, board);
      var r := GetActionRecommendation(book, HoleCards(first, second), board, heroPosition, equity);
      && (v >= 7 ==> r == ActionRecommendation(Raise, Some("75-100%"), High))
      && (5 <= v < 7 ==> r == ActionRecommendation(Raise, Some("50-75%"), High))
      && (v < 5 && equity >= 60.0 ==> r == ActionRecommendation(Raise, Some("50-66%"), Medium))
      && (3 <= v < 5 && 45.0 <= equity < 60.0 ==> r == ActionRecommendation(Call, None, Medium))
      && (v < 3 && 45.0 <= equity < 60.0 ==> r == ActionRecommendation(Check, None, Medium))
      && (v < 5 && 30.0 <= equity < 45.0 ==> r == ActionRecommendation(Call, None, Low))
      && (v < 5 && equity < 25.0 ==> r == ActionRecommendation(Fold, None, High))
      && (v < 5 && 25.0 <= equity < 30.0 ==> r == ActionRecommendation(Fold, None, Medium))
  {
  }

  /**
   * With one or two board cards the hand value is 1, so only the equity
   * decides: raise from 60, check from 45, call from 30, fold below.
   */
  lemma ShortBoardAdvice(book: RangeBook, first: Card, second: Card, board: seq<Card>, heroPosition: Position, equity: real)
    requires 0 < |board| < 3
    ensures var r := GetActionRecommendation(book, HoleCards(first, second), board, heroPosition, equity);
      && r == PostflopAdvice(1, equity)
      && (r.action == Raise <==> equity >= 60.0)
      && (r.action == Check <==> 45.0 <= equity < 60.0)
      && (r.action != Call || 30.0 <= equity < 45.0)
  {
    ShortBoardValue(first, second, board);
  }

  /** Ace-king of one suit opens at UTG for 2.5-3x with high confidence. */
  lemma UtgOpensAceKingSuited(book: RangeBook, s: Suit, equity: real)
    ensures GetActionRecommendation(book, HoleCards(Card(Ace, s), Card(King, s)), [], UTG, equity)
      == ActionRecommendation(Raise, Some("2.5-3x"), High)
  {
    assert Notation(Card(Ace, s), Card(King, s)) == "AKs";
    UtgAceKingSuited(book);
    PreflopCases(book, Card(Ace, s), Card(King, s), UTG, equity);
  }

  /** Seven-deuce of two suits is folded at UTG before the flop. */
  lemma UtgFoldsSevenDeuceOffsuit(book: RangeBook, s1: Suit, s2: Suit, equity: real)
    requires s1 != s2
    ensures GetActionRecommendation(book, HoleCards(Card(Seven, s1), Card(Two, s2)), [], UTG, equity)
      == ActionRecommendation(Fold, None, High)
  {
    assert Notation(Card(Seven, s1), Card(Two, s2)) == "72o";
    UtgSevenTwoOffsuit(book);
    PreflopCases(book, Card(Seven, s1), Card(Two, s2), UTG, equity);
  }
}
