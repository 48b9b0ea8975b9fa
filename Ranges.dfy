/**
 * lib/ranges/index.ts: the table of each position, the action for a hand
 * (all-fold when the hand is not listed), whether a hand is played, and the
 * share of the 1326 starting combos a position plays.
 */
module Ranges {
  import opened Types
  import opened Cards
  import opened RangeTable
  import opened Utg
  import opened Mp

  /** The CO, BTN, SB and BB tables, which this model takes as given. */
  datatype RangeBook = RangeBook(co: PositionRange, btn: PositionRange, sb: PositionRange, bb: PositionRange)

  /** getRangeForPosition: `ranges[position]`. */
  function GetRangeForPosition(book: RangeBook, position: Position): (range: PositionRange)
    ensures position == UTG ==> range == UtgRange
    ensures position == MP ==> range == MpRange
  {
    match position
    case UTG => UtgRange
    case MP => MpRange
    case CO => book.co
    case BTN => book.btn
    case SB => book.sb
    case BB => book.bb
  }

  const AllFold := RangeAction(0, 0, 100)

  /** getHandAction: the position's entry for the hand, or all-fold when there is none. */
  function GetHandAction(book: RangeBook, position: Position, hand: string): RangeAction
  {
    match Lookup(GetRangeForPosition(book, position), hand)
    case Some(a) => a
    case None => AllFold
  }

  /** The action is all-fold for a hand the table does not list, and otherwise the action of an entry listing it. */
  lemma HandActionListed(book: RangeBook, position: Position, hand: string)
    ensures var range := GetRangeForPosition(book, position);
      var a := GetHandAction(book, position, hand);
      && ((forall i :: 0 <= i < |range| ==> range[i].hand != hand) ==> a == AllFold)
      && ((exists i :: 0 <= i < |range| && range[i].hand == hand) ==>
            exists i :: 0 <= i < |range| && range[i].hand == hand && range[i].action == a)
  {
  }

  /** isHandInRange: some raising or calling frequency. */
  predicate IsHandInRange(book: RangeBook, position: Position, hand: string)
  {
    var a := GetHandAction(book, position, hand);
    a.raise > 0 || a.call > 0
  }

  /** A hand the position's table does not list is never in range. */
  lemma UnlistedNotInRange(book: RangeBook, position: Position, hand: string)
    requires forall i :: 0 <= i < |GetRangeForPosition(book, position)| ==> GetRangeForPosition(book, position)[i].hand != hand
    ensures GetHandAction(book, position, hand) == AllFold
    ensures !IsHandInRange(book, position, hand)
  {
    HandActionListed(book, position, hand);
  }

  /** In a table where every entry raises at some frequency, a hand is in range exactly when it is listed. */
  lemma InRangeIffListed(book: RangeBook, position: Position, hand: string)
    requires position == UTG || position == MP
    ensures IsHandInRange(book, position, hand) <==>
      exists i :: 0 <= i < |GetRangeForPosition(book, position)| && GetRangeForPosition(book, position)[i].hand == hand
  {
    HandActionListed(book, position, hand);
    if position == UTG {
      UtgWellFormed();
    } else {
      MpWellFormed();
    }
  }

  /** The loop of getRangePercentage: each key's combo count times its raise-or-call frequency, summed in key order. */
  method SumInRangeCombos(range: PositionRange) returns (inRangeCombos: real)
    ensures inRangeCombos * 100.0 == WeightedCombos(range) as real
  {
    inRangeCombos := 0.0;
    for i := 0 to |range|
      invariant inRangeCombos * 100.0 + WeightedCombos(range[i..]) as real == WeightedCombos(range) as real
    {
      var action := range[i].action;
      var combos := GetHandCombos(range[i].hand);
      var freq := (action.raise + action.call) as real / 100.0;
      assert range[i..][1..] == range[i + 1..];
      assert WeightedCombos(range[i..]) == Weight(range[i]) + WeightedCombos(range[i + 1..]);
      assert (combos as real * freq) * 100.0 == Weight(range[i]) as real by {
        assert freq * 100.0 == (action.raise + action.call) as real;
      }
      inRangeCombos := inRangeCombos + combos as real * freq;
    }
    assert range[|range|..] == [];
  }

  /** getRangePercentage: the in-range combos over the 1326 starting combos, as a percentage. */
  method GetRangePercentage(book: RangeBook, position: Position) returns (pct: real)
    ensures pct == (WeightedCombos(GetRangeForPosition(book, position)) as real) / 1326.0
  {
    var inRangeCombos := SumInRangeCombos(GetRangeForPosition(book, position));
    pct := (inRangeCombos / 1326.0) * 100.0;
  }

  /** Where no frequency is negative and raise plus call stays within 100, the percentage lies in [0, 100 * 12 * |range| / 1326]. */
  lemma RangePercentageBounds(book: RangeBook, position: Position)
    requires var range := GetRangeForPosition(book, position);
      forall i :: 0 <= i < |range| ==> NonNegative(range[i].action) && range[i].action.raise + range[i].action.call <= 100
    ensures 0.0 <= (WeightedCombos(GetRangeForPosition(book, position)) as real) / 1326.0
    ensures (WeightedCombos(GetRangeForPosition(book, position)) as real) / 1326.0 <= (1200 * |GetRangeForPosition(book, position)|) as real / 1326.0
  {
    WeightedCombosBounds(GetRangeForPosition(book, position));
  }

  /** UTG plays 146.5 of the 1326 combos (about 11.0%) and MP 178 (about 13.4%). */
  lemma PositionPercentages(book: RangeBook)
    ensures WeightedCombos(GetRangeForPosition(book, UTG)) as real / 1326.0 == 14650.0 / 1326.0
    ensures WeightedCombos(GetRangeForPosition(book, MP)) as real / 1326.0 == 17800.0 / 1326.0
  {
    UtgWeight();
    MpWeight();
  }

  /** UTG raises AKs every time. */
  lemma UtgAceKingSuited(book: RangeBook)
    ensures GetHandAction(book, UTG, "AKs") == RangeAction(100, 0, 0)
  {
    assert UtgRange[10] == RangeEntry("AKs", RangeAction(100, 0, 0));
    forall j | 0 <= j < 10 ensures UtgRange[j].hand != "AKs" {
      assert |UtgRange[j].hand| == 2;
    }
    LookupFirst(UtgRange, 10);
  }

  /** 72o is not in the UTG table, so UTG folds it. */
  lemma UtgSevenTwoOffsuit(book: RangeBook)
    ensures GetHandAction(book, UTG, "72o") == AllFold
    ensures !IsHandInRange(book, UTG, "72o")
  {
    UtgLowCards();
    assert CharValue("72o"[1]) == 2;
  }

  /** A hand UTG plays, MP plays too, and MP's table lists it with a raise at least as large. */
  lemma MpPlaysUtgHands(book: RangeBook, hand: string)
    requires IsHandInRange(book, UTG, hand)
    ensures IsHandInRange(book, MP, hand)
    ensures exists k :: 0 <= k < |MpRange| && MpRange[k].hand == hand && MpRange[k].action.raise >= GetHandAction(book, UTG, hand).raise
  {
    InRangeIffListed(book, UTG, hand);
    HandActionListed(book, UTG, hand);
    MpWidensUtg();
    var i :| 0 <= i < |UtgRange| && UtgRange[i].hand == hand && UtgRange[i].action == GetHandAction(book, UTG, hand);
    assert Covered(UtgRange[i], MpRange);
    InRangeIffListed(book, MP, hand);
  }
}
