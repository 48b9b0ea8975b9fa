/**
 * components/ActionAdvice.tsx: its own copy of getActionRecommendation,
 * written out here as the single cascade of guarded returns the file holds,
 * and proved to agree with the AnalysisSummary copy on every input.
 */
module ActionAdvice {
  import opened Types
  import opened Cards
  import opened Evaluator
  import opened HandSearch
  import opened Ranges
  import AnalysisSummary

  /** getActionRecommendation as ActionAdvice.tsx writes it. */
  function GetActionRecommendation(book: RangeBook, holeCards: HoleCards, board: seq<Card>, heroPosition: Position, equity: real): (r: ActionRecommendation)
    ensures holeCards.NoHoleCards? ==> r == ActionRecommendation(Fold, None, Low)
    ensures r.action == Check ==> holeCards.HoleCards? && |board| > 0 && 45.0 <= equity < 60.0
    ensures r.sizing.Some? <==> r.action == Raise
  {
    if holeCards.NoHoleCards? then ActionRecommendation(Fold, None, Low)
    else
      var classification := ClassifyHoleCards(holeCards);
      var rangeAction := if classification.Some? then Some(GetHandAction(book, heroPosition, classification.value.hand)) else None;
      if |board| == 0 then
        if rangeAction.None? || rangeAction.value.fold == 100 then ActionRecommendation(Fold, None, High)
        else if rangeAction.value.raise >= 75 then ActionRecommendation(Raise, Some("2.5-3x"), High)
        else if rangeAction.value.raise > 0 then ActionRecommendation(Raise, Some("2.5x"), Medium)
        else ActionRecommendation(Call, None, Medium)
      else
        var handValue := GetHandRankValue(BestHand([holeCards.first, holeCards.second], board).rank);
        if handValue >= 7 then ActionRecommendation(Raise, Some("75-100%"), High)
        else if handValue >= 5 then ActionRecommendation(Raise, Some("50-75%"), High)
        else if equity >= 60.0 then ActionRecommendation(Raise, Some("50-66%"), Medium)
        else if equity >= 45.0 then
          (if handValue >= 3 then ActionRecommendation(Call, None, Medium) else ActionRecommendation(Check, None, Medium))
        else if equity >= 30.0 then ActionRecommendation(Call, None, Low)
        else ActionRecommendation(Fold, None, if equity < 25.0 then High else Medium)
  }

  /** The two copies give the same action, sizing and confidence for every input. */
  lemma CopiesAgree(book: RangeBook, holeCards: HoleCards, board: seq<Card>, heroPosition: Position, equity: real)
    ensures GetActionRecommendation(book, holeCards, board, heroPosition, equity)
      == AnalysisSummary.GetActionRecommendation(book, holeCards, board, heroPosition, equity)
  {
  }
}
