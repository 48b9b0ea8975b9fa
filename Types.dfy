/**
 * The value types shared by the analysis engine (lib/types.ts).
 *
 * Every type here is an immutable value. Strings the source builds for
 * display only (hand descriptions, recommendation reasoning) are not part
 * of these values.
 */
module Types {

  datatype Option<+T> = None | Some(value: T)

  datatype Suit = Hearts | Diamonds | Clubs | Spades

  /** The thirteen ranks, listed from the highest to the lowest. */
  datatype Rank = Ace | King | Queen | Jack | Ten | Nine | Eight | Seven | Six | Five | Four | Three | Two

  datatype Card = Card(rank: Rank, suit: Suit)

  /** Either no hand is selected, or exactly two cards. */
  datatype HoleCards = NoHoleCards | HoleCards(first: Card, second: Card)

  datatype Position = UTG | MP | CO | BTN | SB | BB

  /** Frequencies in percent; the tables do not force them to sum to 100. */
  datatype RangeAction = RangeAction(raise: int, call: int, fold: int)

  /** One key/value pair of a position's range object. */
  datatype RangeEntry = RangeEntry(hand: string, action: RangeAction)

  /** A range object, as its entries in the order JavaScript enumerates them. */
  type PositionRange = seq<RangeEntry>

  datatype HandType = Pair | Suited | Offsuit

  datatype HandClassification = HandClassification(hand: string, handType: HandType, highRank: Rank, lowRank: Rank)

  /** The ten made-hand categories, from the weakest to the strongest. */
  datatype MadeHandRank =
    | HighCard
    | OnePair
    | TwoPair
    | ThreeOfAKind
    | Straight
    | Flush
    | FullHouse
    | FourOfAKind
    | StraightFlush
    | RoyalFlush

  /** A made hand: its category and its tie-break ranks, highest first. */
  datatype HandStrength = HandStrength(rank: MadeHandRank, kickers: seq<Rank>)

  /** Percentages (exact, not rounded) and the number of trials run. */
  datatype EquityResult = EquityResult(equity: real, win: real, tie: real, samples: nat)

  datatype Connectivity = Connected | Gapped | Disconnected

  datatype BoardTexture = BoardTexture(
    isPaired: bool,
    isMonotone: bool,
    isTwoTone: bool,
    isRainbow: bool,
    hasFlushDraw: bool,
    hasStraightDraw: bool,
    highCard: Option<Rank>,
    connectivity: Connectivity)

  datatype Action = Raise | Call | Fold | Check

  datatype Confidence = High | Medium | Low

  datatype ActionRecommendation = ActionRecommendation(action: Action, sizing: Option<string>, confidence: Confidence)

  const AllPositions: seq<Position> := [UTG, MP, CO, BTN, SB, BB]

  /** The categories in the order lib/types.ts declares them. */
  const Categories: seq<MadeHandRank> :=
    [HighCard, OnePair, TwoPair, ThreeOfAKind, Straight, Flush, FullHouse, FourOfAKind, StraightFlush, RoyalFlush]

  lemma PositionsAreSix()
    ensures |AllPositions| == 6
    ensures forall p: Position :: p in AllPositions
    ensures forall i, j :: 0 <= i < j < |AllPositions| ==> AllPositions[i] != AllPositions[j]
  {
    forall p: Position ensures p in AllPositions {
      match p
      case UTG => assert AllPositions[0] == p;
      case MP => assert AllPositions[1] == p;
      case CO => assert AllPositions[2] == p;
      case BTN => assert AllPositions[3] == p;
      case SB => assert AllPositions[4] == p;
      case BB => assert AllPositions[5] == p;
    }
  }

  lemma CategoriesAreTen()
    ensures |Categories| == 10
    ensures forall h: MadeHandRank :: h in Categories
    ensures forall i, j :: 0 <= i < j < |Categories| ==> Categories[i] != Categories[j]
  {
    forall h: MadeHandRank ensures h in Categories {
      match h
      case HighCard => assert Categories[0] == h;
      case OnePair => assert Categories[1] == h;
      case TwoPair => assert Categories[2] == h;
      case ThreeOfAKind => assert Categories[3] == h;
      case Straight => assert Categories[4] == h;
      case Flush => assert Categories[5] == h;
      case FullHouse => assert Categories[6] == h;
      case FourOfAKind => assert Categories[7] == h;
      case StraightFlush => assert Categories[8] == h;
      case RoyalFlush => assert Categories[9] == h;
    }
  }
}
