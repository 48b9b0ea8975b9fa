/**
 * components/CardPicker.tsx: what a click on a card of the picker does,
 * given the cards shown as selected, the cards shown as disabled and the
 * picker's capacity.
 */
module CardPicker {
  import opened Types
  import opened Cards

  /** Which callback handleCardClick calls, if any. */
  datatype ClickEffect = NoEffect | Deselect(card: Card) | Select(card: Card)

  /**
   * handleCardClick: nothing for a disabled card that is not selected; a
   * selected card is deselected; any other card is selected while fewer
   * than maxCards are selected.
   */
  function HandleCardClick(selectedCards: seq<Card>, disabledCards: seq<Card>, maxCards: int, card: Card): (e: ClickEffect)
    ensures e.Deselect? <==> card in selectedCards
    ensures e.Select? <==> card !in selectedCards && card !in disabledCards && |selectedCards| < maxCards
    ensures e != NoEffect ==> e.card == card
  {
    var isSelected := CardsContain(selectedCards, card);
    var isDisabled := CardsContain(disabledCards, card);
    var canSelectMore := |selectedCards| < maxCards;
    if isDisabled && !isSelected then NoEffect
    else if isSelected then Deselect(card)
    else if canSelectMore then Select(card)
    else NoEffect
  }

  /** The picker never lets the selection grow past its capacity. */
  lemma SelectStaysWithinCapacity(selectedCards: seq<Card>, disabledCards: seq<Card>, maxCards: int, card: Card)
    requires HandleCardClick(selectedCards, disabledCards, maxCards, card).Select?
    ensures |selectedCards + [card]| <= maxCards
    ensures card !in selectedCards
  {
  }
}
