/**
 * app/page.tsx: the page's card state (the hero's hand cards, the board
 * and which of the two the picker fills), the handler both picker
 * callbacks share, the clear buttons and the hole cards derived from the
 * hand.
 */
module Page {
  import opened Types
  import opened Sequences
  import opened Cards
  import opened CardPicker

  /** SelectionMode. */
  datatype SelectionMode = HandMode | BoardMode

  /** The state handleCardSelect reads and writes. */
  datatype Selection = Selection(hand: seq<Card>, board: seq<Card>, mode: SelectionMode)

  /** At most two hand cards and five board cards, no card twice, none in both. */
  predicate ValidSelection(s: Selection)
  {
    |s.hand| <= 2 && |s.board| <= 5 && NoDup(s.hand) && NoDup(s.board) && Disjoint(s.hand, s.board)
  }

  /**
   * handleCardSelect on values: a card of the hand leaves the hand, else a
   * card of the board leaves the board, else the card joins the list the
   * mode names while that list has room.
   */
  function SelectCard(s: Selection, card: Card): (t: Selection)
    ensures t.mode == s.mode
    ensures card in s.hand ==> t.board == s.board && forall c :: c in t.hand <==> c in s.hand && c != card
    ensures card !in s.hand && card in s.board ==> t.hand == s.hand && forall c :: c in t.board <==> c in s.board && c != card
    ensures card !in s.hand && card !in s.board ==>
      && (t.hand == s.hand + [card] <==> s.mode == HandMode && |s.hand| < 2)
      && (t.board == s.board + [card] <==> s.mode == BoardMode && |s.board| < 5)
      && (t == s <==> !(s.mode == HandMode && |s.hand| < 2) && !(s.mode == BoardMode && |s.board| < 5))
  {
    if CardsContain(s.hand, card) then s.(hand := RemoveCards(s.hand, [card]))
    else if CardsContain(s.board, card) then s.(board := RemoveCards(s.board, [card]))
    else if s.mode == HandMode && |s.hand| < 2 then s.(hand := s.hand + [card])
    else if s.mode == BoardMode && |s.board| < 5 then s.(board := s.board + [card])
    else s
  }

  /** handleCardSelect keeps the selection valid. */
  lemma SelectPreservesValid(s: Selection, card: Card)
    requires ValidSelection(s)
    ensures ValidSelection(SelectCard(s, card))
  {
    var t := SelectCard(s, card);
    if card in s.hand {
      RemoveCardsNoDup(s.hand, [card]);
    } else if card in s.board {
      RemoveCardsNoDup(s.board, [card]);
    } else if t.hand == s.hand + [card] {
      NoDupAppend(s.hand, [card]);
    } else if t.board == s.board + [card] {
      NoDupAppend(s.board, [card]);
    }
  }

  /** Removing a card that is not there changes nothing. */
  lemma {:induction false} RemoveAbsent(cards: seq<Card>, card: Card)
    requires card !in cards
    ensures RemoveCards(cards, [card]) == cards
  {
    if |cards| > 0 {
      RemoveAbsent(cards[1..], card);
      assert cards == [cards[0]] + cards[1..];
    }
  }

  /** Removing the card just appended restores the list. */
  lemma RemoveAppended(cards: seq<Card>, card: Card)
    requires card !in cards
    ensures RemoveCards(cards + [card], [card]) == cards
  {
    RemoveCardsAppend(cards, [card], [card]);
    RemoveAbsent(cards, card);
    assert RemoveCards([card], [card]) == [] by {
      assert [card][1..] == [];
    }
  }

  /** Selecting a card that the previous selection added removes it again, restoring the state. */
  lemma SelectTwiceRestores(s: Selection, card: Card)
    requires card !in s.hand && card !in s.board
    requires SelectCard(s, card) != s
    ensures SelectCard(SelectCard(s, card), card) == s
  {
    if s.mode == HandMode && |s.hand| < 2 {
      RemoveAppended(s.hand, card);
    } else {
      RemoveAppended(s.board, card);
    }
  }

  /** currentSelected: the list the picker is filling. */
  function CurrentSelected(s: Selection): seq<Card>
  {
    if s.mode == HandMode then s.hand else s.board
  }

  /** maxCards: two for the hand, five for the board. */
  function MaxCards(s: Selection): int
  {
    if s.mode == HandMode then 2 else 5
  }

  /** usedCards: the hand then the board, all disabled in the picker. */
  function UsedCards(s: Selection): seq<Card>
  {
    s.hand + s.board
  }

  /**
   * Through the picker, handleCardSelect only ever touches the list the
   * mode names: a deselected card leaves it, a selected card joins it, and
   * a card of the other list cannot be clicked.
   */
  lemma PickerTouchesCurrentList(s: Selection, card: Card)
    requires ValidSelection(s)
    ensures var e := HandleCardClick(CurrentSelected(s), UsedCards(s), MaxCards(s), card);
      var t := SelectCard(s, card);
      && (e.Deselect? ==> t == if s.mode == HandMode then s.(hand := RemoveCards(s.hand, [card])) else s.(board := RemoveCards(s.board, [card])))
      && (e.Select? ==> t == if s.mode == HandMode then s.(hand := s.hand + [card]) else s.(board := s.board + [card]))
      && (e == NoEffect ==> (card in UsedCards(s) && card !in CurrentSelected(s)) || |CurrentSelected(s)| >= MaxCards(s))
  {
    var e := HandleCardClick(CurrentSelected(s), UsedCards(s), MaxCards(s), card);
    if e == NoEffect && card !in CurrentSelected(s) && |CurrentSelected(s)| < MaxCards(s) {
      assert card in UsedCards(s);
    }
  }

  /** The page component's state. */
  class Home {
    var handCards: seq<Card>
    var board: seq<Card>
    var selectionMode: SelectionMode

    function State(): Selection
      reads this
    {
      Selection(handCards, board, selectionMode)
    }

    /** The initial state: no cards, filling the hand. */
    constructor ()
      ensures State() == Selection([], [], HandMode)
      ensures ValidSelection(State())
    {
      handCards := [];
      board := [];
      selectionMode := HandMode;
    }

    /** handleCardSelect. */
    method HandleCardSelect(card: Card)
      modifies this
      ensures State() == SelectCard(old(State()), card)
      ensures ValidSelection(old(State())) ==> ValidSelection(State())
    {
      ghost var before := State();
      if ValidSelection(before) {
        SelectPreservesValid(before, card);
      }
      var inHand := CardsContain(handCards, card);
      var inBoard := CardsContain(board, card);
      if inHand {
        handCards := RemoveCards(handCards, [card]);
        return;
      }
      if inBoard {
        board := RemoveCards(board, [card]);
        return;
      }
      if selectionMode == HandMode && |handCards| < 2 {
        handCards := handCards + [card];
      } else if selectionMode == BoardMode && |board| < 5 {
        board := board + [card];
      }
    }

    /** The hand and board buttons. */
    method SetSelectionMode(mode: SelectionMode)
      modifies this
      ensures State() == old(State()).(mode := mode)
      ensures ValidSelection(old(State())) ==> ValidSelection(State())
    {
      selectionMode := mode;
    }

    /** clearHoleCards: empties the hand only. */
    method ClearHoleCards()
      modifies this
      ensures State() == old(State()).(hand := [])
      ensures ValidSelection(old(State())) ==> ValidSelection(State())
    {
      handCards := [];
    }

    /** clearBoard: empties the board only. */
    method ClearBoard()
      modifies this
      ensures State() == old(State()).(board := [])
      ensures ValidSelection(old(State())) ==> ValidSelection(State())
    {
      board := [];
    }

    /** clearAll: empties both lists and goes back to filling the hand. */
    method ClearAll()
      modifies this
      ensures State() == Selection([], [], HandMode)
      ensures ValidSelection(State())
    {
      handCards := [];
      board := [];
      selectionMode := HandMode;
    }

    /** currentHoleCards: the two hand cards once there are exactly two, otherwise none. */
    function CurrentHoleCards(): (h: HoleCards)
      reads this
      ensures h.HoleCards? <==> |handCards| == 2
      ensures h.HoleCards? ==> [h.first, h.second] == handCards
    {
      if |handCards| == 2 then HoleCards(handCards[0], handCards[1]) else NoHoleCards
    }
  }
}
