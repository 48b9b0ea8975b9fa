/**
 * Cards and decks (lib/cards.ts): rank values, parsing and printing a
 * card, hole-card classification into canonical notation, combo
 * enumeration per notation, deck creation, card removal and the
 * Fisher-Yates shuffle with its random draws passed in.
 */
module Cards {
  import opened Types
  import opened Sequences

  /** RANKS: from the highest rank to the lowest. */
  const Ranks: seq<Rank> := [Ace, King, Queen, Jack, Ten, Nine, Eight, Seven, Six, Five, Four, Three, Two]

  /** SUITS. */
  const Suits: seq<Suit> := [Hearts, Diamonds, Clubs, Spades]

  /** The characters of RANKS and SUITS, as `includes` tests them. */
  const RankChars: string := "AKQJT98765432"
  const SuitChars: string := "hdcs"

  /** A combo is the two concrete cards of a starting hand. */
  type Combo = seq<Card>

  /** RANK_VALUES. */
  function RankValue(r: Rank): (v: int)
    ensures 2 <= v <= 14
  {
    match r
    case Ace => 14
    case King => 13
    case Queen => 12
    case Jack => 11
    case Ten => 10
    case Nine => 9
    case Eight => 8
    case Seven => 7
    case Six => 6
    case Five => 5
    case Four => 4
    case Three => 3
    case Two => 2
  }

  /** Position of a rank in RANKS. */
  function RankIndex(r: Rank): (i: nat)
    ensures i < 13 && Ranks[i] == r
  {
    14 - RankValue(r)
  }

  function SuitIndex(s: Suit): (i: nat)
    ensures i < 4 && Suits[i] == s
  {
    match s
    case Hearts => 0
    case Diamonds => 1
    case Clubs => 2
    case Spades => 3
  }

  /** RANKS lists every rank once, each one value below the previous. */
  lemma RanksFacts()
    ensures |Ranks| == 13 && NoDup(Ranks)
    ensures forall r: Rank :: r in Ranks
    ensures forall i :: 0 <= i < 13 ==> RankValue(Ranks[i]) == 14 - i
    ensures |Suits| == 4 && NoDup(Suits)
    ensures forall s: Suit :: s in Suits
  {
    forall r: Rank ensures r in Ranks {
      assert Ranks[RankIndex(r)] == r;
    }
    forall s: Suit ensures s in Suits {
      assert Suits[SuitIndex(s)] == s;
    }
  }

  /** A rank is determined by its value. */
  lemma RankValueInjective(a: Rank, b: Rank)
    ensures RankValue(a) == RankValue(b) <==> a == b
  {
  }

  /** The character of RANKS at the rank's position. */
  function RankChar(r: Rank): (c: char)
    ensures c == RankChars[RankIndex(r)]
  {
    match r
    case Ace => 'A'
    case King => 'K'
    case Queen => 'Q'
    case Jack => 'J'
    case Ten => 'T'
    case Nine => '9'
    case Eight => '8'
    case Seven => '7'
    case Six => '6'
    case Five => '5'
    case Four => '4'
    case Three => '3'
    case Two => '2'
  }

  /** The character of SUITS at the suit's position. */
  function SuitChar(s: Suit): (c: char)
    ensures c == SuitChars[SuitIndex(s)]
  {
    match s
    case Hearts => 'h'
    case Diamonds => 'd'
    case Clubs => 'c'
    case Spades => 's'
  }

  /** The rank a character of RANKS stands for. */
  function CharToRank(c: char): (r: Option<Rank>)
    ensures r.Some? <==> c in RankChars
    ensures r.Some? ==> RankChar(r.value) == c
  {
    match c
    case 'A' => Some(Ace)
    case 'K' => Some(King)
    case 'Q' => Some(Queen)
    case 'J' => Some(Jack)
    case 'T' => Some(Ten)
    case '9' => Some(Nine)
    case '8' => Some(Eight)
    case '7' => Some(Seven)
    case '6' => Some(Six)
    case '5' => Some(Five)
    case '4' => Some(Four)
    case '3' => Some(Three)
    case '2' => Some(Two)
    case _ => assert c !in RankChars by { assert RankChars == ['A', 'K', 'Q', 'J', 'T', '9', '8', '7', '6', '5', '4', '3', '2']; } None
  }

  function CharToSuit(c: char): (s: Option<Suit>)
    ensures s.Some? <==> c in SuitChars
    ensures s.Some? ==> SuitChar(s.value) == c
  {
    match c
    case 'h' => Some(Hearts)
    case 'd' => Some(Diamonds)
    case 'c' => Some(Clubs)
    case 's' => Some(Spades)
    case _ => assert c !in SuitChars by { assert forall i | 0 <= i < |SuitChars| :: SuitChars[i] != c; } None
  }

  lemma RankCharRoundTrip(r: Rank)
    ensures CharToRank(RankChar(r)) == Some(r)
  {
  }

  lemma SuitCharRoundTrip(s: Suit)
    ensures CharToSuit(SuitChar(s)) == Some(s)
  {
  }

  /** String.prototype.toUpperCase on one ASCII character. */
  function ToUpper(c: char): char
  {
    if 'a' <= c <= 'z' then (c as int - 32) as char else c
  }

  /** String.prototype.toLowerCase on one ASCII character. */
  function ToLower(c: char): char
  {
    if 'A' <= c <= 'Z' then (c as int + 32) as char else c
  }

  /** cardToString: the rank character followed by the suit character. */
  function CardToString(card: Card): (s: string)
    ensures |s| == 2 && s[0] in RankChars && s[1] in SuitChars
  {
    [RankChar(card.rank), SuitChar(card.suit)]
  }

  /**
   * parseCard: a two-character string whose first character, upper-cased,
   * is in RANKS and whose second, lower-cased, is in SUITS. The result is
   * the card that prints as the case-normalised input; there is none when
   * no card prints that way.
   */
  function ParseCard(s: string): (r: Option<Card>)
    ensures r.Some? ==> |s| == 2 && CardToString(r.value) == [ToUpper(s[0]), ToLower(s[1])]
    ensures r.None? ==> |s| != 2 || forall c :: CardToString(c) != [ToUpper(s[0]), ToLower(s[1])]
  {
    if |s| != 2 then None
    else
      var rank := ToUpper(s[0]);
      var suit := ToLower(s[1]);
      if rank !in RankChars || suit !in SuitChars then None
      else Some(Card(CharToRank(rank).value, CharToSuit(suit).value))
  }

  lemma ParseCardToString(c: Card)
    ensures ParseCard(CardToString(c)) == Some(c)
  {
    var s := CardToString(c);
    assert ToUpper(s[0]) == s[0] && ToLower(s[1]) == s[1];
    RankCharRoundTrip(c.rank);
    SuitCharRoundTrip(c.suit);
  }

  /** parseCard ignores the case of both characters. */
  lemma ParseCardIgnoresCase(a: char, b: char)
    ensures ParseCard([a, b]) == ParseCard([ToUpper(a), ToLower(b)])
  {
  }

  /** isSameCard: equality by rank and suit. */
  function IsSameCard(a: Card, b: Card): (r: bool)
    ensures r <==> a == b
  {
    a.rank == b.rank && a.suit == b.suit
  }

  /** cardsContain. */
  function CardsContain(cards: seq<Card>, card: Card): (r: bool)
    ensures r <==> card in cards
  {
    if |cards| == 0 then false
    else
      assert cards == [cards[0]] + cards[1..];
      IsSameCard(cards[0], card) || CardsContain(cards[1..], card)
  }

  /** The suffix that follows the two ranks in a notation. */
  function TypeSuffix(t: HandType): string
  {
    match t
    case Pair => ""
    case Suited => "s"
    case Offsuit => "o"
  }

  /** The two ranks (a, b) are the ranks (c, d), in either order. */
  predicate SameRanks(a: Rank, b: Rank, c: Rank, d: Rank)
  {
    (a == c && b == d) || (a == d && b == c)
  }

  /** getHandNotation: the higher-valued rank first, then the type suffix. */
  function GetHandNotation(rank1: Rank, rank2: Rank, t: HandType): (h: string)
    ensures |h| == 2 + |TypeSuffix(t)| && h[2..] == TypeSuffix(t)
    ensures h[0] in RankChars && h[1] in RankChars
    ensures SameRanks(CharToRank(h[0]).value, CharToRank(h[1]).value, rank1, rank2)
    ensures RankValue(CharToRank(h[0]).value) >= RankValue(CharToRank(h[1]).value)
  {
    var high := if RankValue(rank1) >= RankValue(rank2) then rank1 else rank2;
    var low := if RankValue(rank1) >= RankValue(rank2) then rank2 else rank1;
    RankCharRoundTrip(high);
    RankCharRoundTrip(low);
    [RankChar(high), RankChar(low)] + TypeSuffix(t)
  }

  lemma GetHandNotationSymmetric(rank1: Rank, rank2: Rank, t: HandType)
    ensures GetHandNotation(rank1, rank2, t) == GetHandNotation(rank2, rank1, t)
  {
    RankValueInjective(rank1, rank2);
  }

  /** RANK_VALUES read straight off a character; 0 for a character that is no rank. */
  function CharValue(c: char): int
  {
    match c
    case 'A' => 14 case 'K' => 13 case 'Q' => 12 case 'J' => 11 case 'T' => 10
    case '9' => 9 case '8' => 8 case '7' => 7 case '6' => 6 case '5' => 5
    case '4' => 4 case '3' => 3 case '2' => 2 case _ => 0
  }

  lemma CharValueOfRank(c: char)
    ensures CharValue(c) > 0 <==> CharToRank(c).Some?
    ensures CharToRank(c).Some? ==> CharValue(c) == RankValue(CharToRank(c).value)
  {
  }

  /** A canonical notation: a pair "XX", or two ranks, the higher first, then "s" or "o". */
  predicate Canonical(h: string)
  {
    && |h| >= 2 && CharValue(h[0]) > 0 && CharValue(h[1]) > 0
    && ((|h| == 2 && h[0] == h[1])
        || (|h| == 3 && (h[2] == 's' || h[2] == 'o') && CharValue(h[0]) > CharValue(h[1])))
  }

  /** The type a canonical notation names. */
  function NotationType(h: string): HandType
  {
    if |h| == 2 then Pair else if |h| > 2 && h[2] == 's' then Suited else Offsuit
  }

  /** A canonical notation is rewritten unchanged by getHandNotation from its own ranks and type. */
  lemma CanonicalRewrites(h: string)
    requires Canonical(h)
    ensures CharToRank(h[0]).Some? && CharToRank(h[1]).Some?
    ensures var r1 := CharToRank(h[0]).value;
      var r2 := CharToRank(h[1]).value;
      (NotationType(h) == Pair <==> r1 == r2) && h == GetHandNotation(r1, r2, NotationType(h))
  {
    CharValueOfRank(h[0]);
    CharValueOfRank(h[1]);
    var r1 := CharToRank(h[0]).value;
    var r2 := CharToRank(h[1]).value;
    RankValueInjective(r1, r2);
    RankCharRoundTrip(r1);
    var n := GetHandNotation(r1, r2, NotationType(h));
    assert n[0] == RankChar(r1) == h[0];
    assert n[1] == RankChar(r2) == h[1];
    assert h == [h[0], h[1]] + h[2..];
  }

  /** Whatever getHandNotation writes for two ranks and their type is canonical. */
  lemma NotationIsCanonical(r1: Rank, r2: Rank, t: HandType)
    requires t == Pair <==> r1 == r2
    ensures Canonical(GetHandNotation(r1, r2, t))
  {
    var h := GetHandNotation(r1, r2, t);
    var a := CharToRank(h[0]).value;
    var b := CharToRank(h[1]).value;
    CharValueOfRank(h[0]);
    CharValueOfRank(h[1]);
    RankValueInjective(a, b);
    if t != Pair {
      assert h[2] == h[2..][0];
    } else {
      assert RankChar(a) == h[0] && RankChar(b) == h[1];
    }
  }

  /** The canonical notations are exactly what getHandNotation writes for two ranks and their type. */
  lemma CanonicalIsNotation(h: string)
    ensures Canonical(h) <==>
      exists r1, r2, t :: (t == Pair <==> r1 == r2) && h == GetHandNotation(r1, r2, t)
  {
    if Canonical(h) {
      CanonicalRewrites(h);
    }
    if r1, r2, t :| (t == Pair <==> r1 == r2) && h == GetHandNotation(r1, r2, t) {
      NotationIsCanonical(r1, r2, t);
    }
  }

  /** The type classifyHoleCards gives two cards. */
  function HandTypeOf(a: Card, b: Card): HandType
  {
    if a.rank == b.rank then Pair else if a.suit == b.suit then Suited else Offsuit
  }

  /**
   * classifyHoleCards: none for absent cards; otherwise the higher-valued
   * rank, the lower one, the type (pair iff the ranks are equal, suited
   * iff the suits are equal and the ranks differ) and the notation.
   */
  function ClassifyHoleCards(cards: HoleCards): (r: Option<HandClassification>)
    ensures cards.NoHoleCards? <==> r.None?
    ensures r.Some? ==> RankValue(r.value.highRank) >= RankValue(r.value.lowRank)
    ensures r.Some? ==> SameRanks(r.value.highRank, r.value.lowRank, cards.first.rank, cards.second.rank)
    ensures r.Some? ==> (r.value.handType == Pair <==> cards.first.rank == cards.second.rank)
    ensures r.Some? ==> (r.value.handType == Suited <==> cards.first.rank != cards.second.rank && cards.first.suit == cards.second.suit)
    ensures r.Some? ==> r.value.hand == GetHandNotation(cards.first.rank, cards.second.rank, r.value.handType)
  {
    match cards
    case NoHoleCards => None
    case HoleCards(card1, card2) =>
      var val1 := RankValue(card1.rank);
      var val2 := RankValue(card2.rank);
      var highRank := if val1 >= val2 then card1.rank else card2.rank;
      var lowRank := if val1 >= val2 then card2.rank else card1.rank;
      var t := HandTypeOf(card1, card2);
      Some(HandClassification([RankChar(highRank), RankChar(lowRank)] + TypeSuffix(t), t, highRank, lowRank))
  }

  /** Swapping the two hole cards does not change the classification. */
  lemma ClassifySwap(a: Card, b: Card)
    ensures ClassifyHoleCards(HoleCards(a, b)) == ClassifyHoleCards(HoleCards(b, a))
  {
    if a.rank == b.rank {
      assert HandTypeOf(a, b) == HandTypeOf(b, a) == Pair;
    } else {
      RankValueInjective(a.rank, b.rank);
      assert HandTypeOf(a, b) == HandTypeOf(b, a);
    }
  }

  // ---------------------------------------------------------------------
  // getAllCombos: the combos of each shape, in the order the loops push them.

  /**
   * The pair combos the two loops have pushed when the outer index is i and
   * the inner index is j: every (SUITS[a], SUITS[b]) with a < b that comes
   * before (i, j) in loop order.
   */
  function PairPushed(r: Rank, i: nat, j: nat): seq<Combo>
    requires i <= 4 && j <= 4 && (i == 4 ==> j == 0)
    decreases i, j
  {
    if j <= i + 1 then (if i == 0 then [] else PairPushed(r, i - 1, 4))
    else PairPushed(r, i, j - 1) + [[Card(r, Suits[i]), Card(r, Suits[j - 1])]]
  }

  /** The suited combos pushed for the first n suits. */
  function SuitedPushed(r1: Rank, r2: Rank, n: nat): seq<Combo>
    requires n <= 4
  {
    if n == 0 then [] else SuitedPushed(r1, r2, n - 1) + [[Card(r1, Suits[n - 1]), Card(r2, Suits[n - 1])]]
  }

  /**
   * The offsuit combos the two loops have pushed when the outer index is i
   * and the inner index is j: every (SUITS[a], SUITS[b]) with a != b that
   * comes before (i, j) in loop order.
   */
  function OffsuitPushed(r1: Rank, r2: Rank, i: nat, j: nat): seq<Combo>
    requires i <= 4 && j <= 4 && (i == 4 ==> j == 0)
    decreases i, j
  {
    if j == 0 then (if i == 0 then [] else OffsuitPushed(r1, r2, i - 1, 4))
    else if j - 1 == i then OffsuitPushed(r1, r2, i, j - 1)
    else OffsuitPushed(r1, r2, i, j - 1) + [[Card(r1, Suits[i]), Card(r2, Suits[j - 1])]]
  }

  /** The last character of a string, as `endsWith` tests it. */
  predicate EndsWith(hand: string, c: char)
  {
    |hand| > 0 && hand[|hand| - 1] == c
  }

  /**
   * What getAllCombos returns: the pair combos for a two-character string,
   * the suited combos for a longer one ending in "s", the offsuit combos for
   * one ending in "o", and nothing otherwise.
   */
  function CombosOf(hand: string): seq<Combo>
  {
    if |hand| == 2 then
      (match CharToRank(hand[0])
       case Some(r) => PairPushed(r, 4, 0)
       case None => [])
    else if |hand| < 2 || !(EndsWith(hand, 's') || EndsWith(hand, 'o')) then []
    else
      match (CharToRank(hand[0]), CharToRank(hand[1]))
      case (Some(r1), Some(r2)) => if EndsWith(hand, 's') then SuitedPushed(r1, r2, 4) else OffsuitPushed(r1, r2, 4, 0)
      case _ => []
  }

  /** getAllCombos, with its loops over SUITS. */
  method GetAllCombos(hand: string) returns (combos: seq<Combo>)
    ensures combos == CombosOf(hand)
  {
    combos := [];
    if |hand| == 2 {
      var rank := CharToRank(hand[0]);
      if rank.Some? {
        combos := PairCombos(rank.value);
      }
    } else if EndsWith(hand, 's') || EndsWith(hand, 'o') {
      if |hand| < 2 {
        return;
      }
      var rank1, rank2 := CharToRank(hand[0]), CharToRank(hand[1]);
      if rank1.None? || rank2.None? {
        return;
      }
      if EndsWith(hand, 's') {
        combos := SuitedCombos(rank1.value, rank2.value);
      } else {
        combos := OffsuitCombos(rank1.value, rank2.value);
      }
    }
  }

  /** The pair loops of getAllCombos: SUITS[i] with SUITS[j] for i < j. */
  method PairCombos(rank: Rank) returns (combos: seq<Combo>)
    ensures combos == PairPushed(rank, 4, 0)
  {
    combos := [];
    for i := 0 to 4
      invariant combos == PairPushed(rank, i, 0)
    {
      for j := i + 1 to 4
        invariant combos == PairPushed(rank, i, j)
      {
        combos := combos + [[Card(rank, Suits[i]), Card(rank, Suits[j])]];
      }
    }
  }

  /** The suited loop of getAllCombos: one combo per suit. */
  method SuitedCombos(rank1: Rank, rank2: Rank) returns (combos: seq<Combo>)
    ensures combos == SuitedPushed(rank1, rank2, 4)
  {
    combos := [];
    for i := 0 to 4
      invariant combos == SuitedPushed(rank1, rank2, i)
    {
      combos := combos + [[Card(rank1, Suits[i]), Card(rank2, Suits[i])]];
    }
  }

  /** The offsuit loops of getAllCombos: SUITS[i] with SUITS[j] for i != j. */
  method OffsuitCombos(rank1: Rank, rank2: Rank) returns (combos: seq<Combo>)
    ensures combos == OffsuitPushed(rank1, rank2, 4, 0)
  {
    combos := [];
    for i := 0 to 4
      invariant combos == OffsuitPushed(rank1, rank2, i, 0)
    {
      for j := 0 to 4
        invariant combos == OffsuitPushed(rank1, rank2, i, j)
      {
        if i != j {
          combos := combos + [[Card(rank1, Suits[i]), Card(rank2, Suits[j])]];
        }
      }
    }
  }

  /** The number of combos a hand type has: 6 pairs, 4 suited, 12 offsuit. */
  function ComboCount(t: HandType): nat
  {
    match t
    case Pair => 6
    case Suited => 4
    case Offsuit => 12
  }

  /** A combo is two different cards. */
  predicate ValidCombo(c: Combo)
  {
    |c| == 2 && c[0] != c[1]
  }

  /** Facts shared by every combo list: its combos are valid, distinct, and each classifies to `h`. */
  predicate CombosClassifyTo(combos: seq<Combo>, h: string)
  {
    && NoDup(combos)
    && forall c :: c in combos ==> ValidCombo(c) && ClassifyHoleCards(HoleCards(c[0], c[1])).value.hand == h
  }

  lemma SuitIndexOfSuit(j: nat)
    requires j < 4
    ensures SuitIndex(Suits[j]) == j
  {
  }

  /** The suit positions of a combo come before (i, j) in loop order. */
  predicate Before(c: Combo, i: nat, j: nat)
    requires |c| == 2
  {
    SuitIndex(c[0].suit) < i || (SuitIndex(c[0].suit) == i && SuitIndex(c[1].suit) < j)
  }

  /** Two cards of rank r, their suits in SUITS order, pushed before (i, j). */
  predicate PairMember(c: Combo, r: Rank, i: nat, j: nat)
  {
    |c| == 2 && c[0].rank == r && c[1].rank == r && SuitIndex(c[0].suit) < SuitIndex(c[1].suit) && Before(c, i, j)
  }

  /** A card of rank r1 and one of rank r2 in another suit, pushed before (i, j). */
  predicate OffsuitMember(c: Combo, r1: Rank, r2: Rank, i: nat, j: nat)
  {
    |c| == 2 && c[0].rank == r1 && c[1].rank == r2 && c[0].suit != c[1].suit && Before(c, i, j)
  }

  lemma {:induction false} PairPushedLength(r: Rank, i: nat, j: nat)
    requires i <= 4 && j <= 4 && (i == 4 ==> j == 0)
    ensures |PairPushed(r, i, j)| == [0, 3, 5, 6, 6][i] + (if j > i + 1 then j - i - 1 else 0)
    decreases i, j
  {
    if j <= i + 1 {
      if i > 0 {
        PairPushedLength(r, i - 1, 4);
      }
    } else {
      PairPushedLength(r, i, j - 1);
    }
  }

  /** The pair loops push only two cards of rank r whose suits come in SUITS order. */
  lemma {:induction false} PairPushedMembers(r: Rank, i: nat, j: nat)
    requires i <= 4 && j <= 4 && (i == 4 ==> j == 0)
    ensures forall c: Combo :: c in PairPushed(r, i, j) ==> PairMember(c, r, i, j)
    decreases i, j
  {
    if j <= i + 1 {
      if i > 0 {
        PairPushedMembers(r, i - 1, 4);
        forall c: Combo | c in PairPushed(r, i, j) ensures PairMember(c, r, i, j) {
          assert PairMember(c, r, i - 1, 4);
        }
      }
    } else {
      var prev := PairPushed(r, i, j - 1);
      var last := [Card(r, Suits[i]), Card(r, Suits[j - 1])];
      PairPushedMembers(r, i, j - 1);
      SuitIndexOfSuit(i);
      SuitIndexOfSuit(j - 1);
      forall c: Combo | c in prev ensures PairMember(c, r, i, j) {
        assert PairMember(c, r, i, j - 1);
      }
      assert PairMember(last, r, i, j);
      assert PairPushed(r, i, j) == prev + [last];
    }
  }

  /** The pair loops never push the same combo twice. */
  lemma {:induction false} PairPushedNoDup(r: Rank, i: nat, j: nat)
    requires i <= 4 && j <= 4 && (i == 4 ==> j == 0)
    ensures NoDup(PairPushed(r, i, j))
    decreases i, j
  {
    if j <= i + 1 {
      if i > 0 {
        PairPushedNoDup(r, i - 1, 4);
      }
    } else {
      var prev := PairPushed(r, i, j - 1);
      var last := [Card(r, Suits[i]), Card(r, Suits[j - 1])];
      PairPushedNoDup(r, i, j - 1);
      PairPushedMembers(r, i, j - 1);
      SuitIndexOfSuit(i);
      SuitIndexOfSuit(j - 1);
      assert !PairMember(last, r, i, j - 1);
      assert last !in prev;
      NoDupAppend(prev, [last]);
    }
  }

  lemma {:induction false} SuitedPushedShape(r1: Rank, r2: Rank, n: nat)
    requires n <= 4
    ensures |SuitedPushed(r1, r2, n)| == n
    ensures NoDup(SuitedPushed(r1, r2, n))
    ensures forall c: Combo :: c in SuitedPushed(r1, r2, n) ==>
      |c| == 2 && c[0].rank == r1 && c[1].rank == r2 && c[0].suit == c[1].suit && SuitIndex(c[0].suit) < n
  {
    if n > 0 {
      SuitedPushedShape(r1, r2, n - 1);
      SuitIndexOfSuit(n - 1);
      NoDupAppend(SuitedPushed(r1, r2, n - 1), [[Card(r1, Suits[n - 1]), Card(r2, Suits[n - 1])]]);
    }
  }

  lemma {:induction false} OffsuitPushedLength(r1: Rank, r2: Rank, i: nat, j: nat)
    requires i <= 4 && j <= 4 && (i == 4 ==> j == 0)
    ensures |OffsuitPushed(r1, r2, i, j)| == 3 * i + (if i < j then j - 1 else j)
    decreases i, j
  {
    if j == 0 {
      if i > 0 {
        OffsuitPushedLength(r1, r2, i - 1, 4);
      }
    } else {
      OffsuitPushedLength(r1, r2, i, j - 1);
    }
  }

  /** The offsuit loops push only combos of a card of rank r1 and a card of rank r2 in different suits. */
  lemma {:induction false} OffsuitPushedMembers(r1: Rank, r2: Rank, i: nat, j: nat)
    requires i <= 4 && j <= 4 && (i == 4 ==> j == 0)
    ensures forall c: Combo :: c in OffsuitPushed(r1, r2, i, j) ==> OffsuitMember(c, r1, r2, i, j)
    decreases i, j
  {
    if j == 0 {
      if i > 0 {
        OffsuitPushedMembers(r1, r2, i - 1, 4);
        forall c: Combo | c in OffsuitPushed(r1, r2, i, j) ensures OffsuitMember(c, r1, r2, i, j) {
          assert OffsuitMember(c, r1, r2, i - 1, 4);
        }
      }
    } else if j - 1 == i {
      OffsuitPushedMembers(r1, r2, i, j - 1);
      forall c: Combo | c in OffsuitPushed(r1, r2, i, j) ensures OffsuitMember(c, r1, r2, i, j) {
        assert OffsuitMember(c, r1, r2, i, j - 1);
      }
    } else {
      var prev := OffsuitPushed(r1, r2, i, j - 1);
      var last := [Card(r1, Suits[i]), Card(r2, Suits[j - 1])];
      OffsuitPushedMembers(r1, r2, i, j - 1);
      SuitIndexOfSuit(i);
      SuitIndexOfSuit(j - 1);
      forall c: Combo | c in prev ensures OffsuitMember(c, r1, r2, i, j) {
        assert OffsuitMember(c, r1, r2, i, j - 1);
      }
      assert OffsuitMember(last, r1, r2, i, j);
      assert OffsuitPushed(r1, r2, i, j) == prev + [last];
    }
  }

  /** The offsuit loops never push the same combo twice. */
  lemma {:induction false} OffsuitPushedNoDup(r1: Rank, r2: Rank, i: nat, j: nat)
    requires i <= 4 && j <= 4 && (i == 4 ==> j == 0)
    ensures NoDup(OffsuitPushed(r1, r2, i, j))
    decreases i, j
  {
    if j == 0 {
      if i > 0 {
        OffsuitPushedNoDup(r1, r2, i - 1, 4);
      }
    } else if j - 1 == i {
      OffsuitPushedNoDup(r1, r2, i, j - 1);
    } else {
      var prev := OffsuitPushed(r1, r2, i, j - 1);
      var last := [Card(r1, Suits[i]), Card(r2, Suits[j - 1])];
      OffsuitPushedNoDup(r1, r2, i, j - 1);
      OffsuitPushedMembers(r1, r2, i, j - 1);
      SuitIndexOfSuit(i);
      SuitIndexOfSuit(j - 1);
      assert !OffsuitMember(last, r1, r2, i, j - 1);
      assert last !in prev;
      NoDupAppend(prev, [last]);
    }
  }

  /** classifyHoleCards of two cards whose ranks and type are known. */
  lemma ClassifyCombo(a: Card, b: Card, t: HandType)
    requires RankValue(a.rank) >= RankValue(b.rank) && HandTypeOf(a, b) == t
    ensures ClassifyHoleCards(HoleCards(a, b)).value.hand == GetHandNotation(a.rank, b.rank, t)
  {
  }

  /** Distinct combos of the given ranks and type all classify to the same notation. */
  lemma ClassifyAll(combos: seq<Combo>, high: Rank, low: Rank, t: HandType)
    requires RankValue(high) >= RankValue(low) && NoDup(combos)
    requires forall c: Combo :: c in combos ==> |c| == 2 && c[0].rank == high && c[1].rank == low && c[0] != c[1] && HandTypeOf(c[0], c[1]) == t
    ensures CombosClassifyTo(combos, GetHandNotation(high, low, t))
  {
    forall c: Combo | c in combos ensures ValidCombo(c) && ClassifyHoleCards(HoleCards(c[0], c[1])).value.hand == GetHandNotation(high, low, t) {
      ClassifyCombo(c[0], c[1], t);
    }
  }

  /** The notation of a higher and a lower rank reads back as those ranks. */
  lemma NotationParts(high: Rank, low: Rank, t: HandType)
    requires RankValue(high) >= RankValue(low)
    ensures GetHandNotation(high, low, t) == [RankChar(high), RankChar(low)] + TypeSuffix(t)
    ensures CharToRank(GetHandNotation(high, low, t)[0]) == Some(high)
    ensures CharToRank(GetHandNotation(high, low, t)[1]) == Some(low)
  {
    RankCharRoundTrip(high);
    RankCharRoundTrip(low);
  }

  /** getAllCombos parses a notation back into its ranks and shape. */
  lemma NotationCombos(high: Rank, low: Rank, t: HandType)
    requires RankValue(high) >= RankValue(low)
    ensures CombosOf(GetHandNotation(high, low, t)) ==
      match t
      case Pair => PairPushed(high, 4, 0)
      case Suited => SuitedPushed(high, low, 4)
      case Offsuit => OffsuitPushed(high, low, 4, 0)
  {
    var h := GetHandNotation(high, low, t);
    NotationParts(high, low, t);
    match t
    case Pair =>
    case Suited => assert |h| == 3 && EndsWith(h, 's');
    case Offsuit => assert |h| == 3 && EndsWith(h, 'o') && !EndsWith(h, 's');
  }

  lemma PairCombosClassify(r: Rank)
    ensures |PairPushed(r, 4, 0)| == 6
    ensures CombosClassifyTo(PairPushed(r, 4, 0), GetHandNotation(r, r, Pair))
  {
    var combos := PairPushed(r, 4, 0);
    PairPushedLength(r, 4, 0);
    PairPushedMembers(r, 4, 0);
    PairPushedNoDup(r, 4, 0);
    forall c: Combo | c in combos
      ensures |c| == 2 && c[0].rank == r && c[1].rank == r && c[0] != c[1] && HandTypeOf(c[0], c[1]) == Pair
    {
      assert PairMember(c, r, 4, 0);
    }
    ClassifyAll(combos, r, r, Pair);
  }

  lemma SuitedCombosClassify(high: Rank, low: Rank)
    requires RankValue(high) > RankValue(low)
    ensures |SuitedPushed(high, low, 4)| == 4
    ensures CombosClassifyTo(SuitedPushed(high, low, 4), GetHandNotation(high, low, Suited))
  {
    SuitedPushedShape(high, low, 4);
    ClassifyAll(SuitedPushed(high, low, 4), high, low, Suited);
  }

  lemma OffsuitCombosClassify(high: Rank, low: Rank)
    requires RankValue(high) > RankValue(low)
    ensures |OffsuitPushed(high, low, 4, 0)| == 12
    ensures CombosClassifyTo(OffsuitPushed(high, low, 4, 0), GetHandNotation(high, low, Offsuit))
  {
    var combos := OffsuitPushed(high, low, 4, 0);
    OffsuitPushedLength(high, low, 4, 0);
    assert CombosClassifyTo(combos, GetHandNotation(high, low, Offsuit)) by {
      OffsuitPushedNoDup(high, low, 4, 0);
      OffsuitCombosShape(high, low);
      ClassifyAll(combos, high, low, Offsuit);
    }
  }

  lemma OffsuitCombosShape(high: Rank, low: Rank)
    requires RankValue(high) > RankValue(low)
    ensures forall c: Combo :: c in OffsuitPushed(high, low, 4, 0) ==>
      |c| == 2 && c[0].rank == high && c[1].rank == low && c[0] != c[1] && HandTypeOf(c[0], c[1]) == Offsuit
  {
    OffsuitPushedMembers(high, low, 4, 0);
    forall c: Combo | c in OffsuitPushed(high, low, 4, 0)
      ensures |c| == 2 && c[0].rank == high && c[1].rank == low && c[0] != c[1] && HandTypeOf(c[0], c[1]) == Offsuit
    {
      assert OffsuitMember(c, high, low, 4, 0);
    }
  }

  /**
   * For the notation of any two ranks, getAllCombos yields exactly the
   * number of combos its type has, all distinct, each two different cards
   * that classifyHoleCards maps back to that notation.
   */
  lemma CombosOfNotation(rank1: Rank, rank2: Rank, t: HandType)
    requires t == Pair <==> rank1 == rank2
    ensures |CombosOf(GetHandNotation(rank1, rank2, t))| == ComboCount(t)
    ensures CombosClassifyTo(CombosOf(GetHandNotation(rank1, rank2, t)), GetHandNotation(rank1, rank2, t))
  {
    GetHandNotationSymmetric(rank1, rank2, t);
    RankValueInjective(rank1, rank2);
    var high := if RankValue(rank1) >= RankValue(rank2) then rank1 else rank2;
    var low := if RankValue(rank1) >= RankValue(rank2) then rank2 else rank1;
    assert GetHandNotation(rank1, rank2, t) == GetHandNotation(high, low, t);
    NotationCombos(high, low, t);
    match t
    case Pair => PairCombosClassify(high);
    case Suited => SuitedCombosClassify(high, low);
    case Offsuit => OffsuitCombosClassify(high, low);
  }

  /** getAllCombos yields nothing for a string that names no hand shape. */
  lemma CombosOfOther(hand: string)
    requires |hand| != 2 && !EndsWith(hand, 's') && !EndsWith(hand, 'o')
    ensures CombosOf(hand) == []
  {
  }

  /** Whatever the string, every combo getAllCombos yields holds two cards. */
  lemma CombosOfPairs(hand: string)
    ensures forall c :: c in CombosOf(hand) ==> |c| == 2
  {
    if |hand| == 2 {
      if CharToRank(hand[0]).Some? {
        PairPushedMembers(CharToRank(hand[0]).value, 4, 0);
      }
    } else if |hand| >= 2 && (EndsWith(hand, 's') || EndsWith(hand, 'o')) {
      var r1, r2 := CharToRank(hand[0]), CharToRank(hand[1]);
      if r1.Some? && r2.Some? {
        if EndsWith(hand, 's') {
          SuitedPushedShape(r1.value, r2.value, 4);
        } else {
          OffsuitPushedMembers(r1.value, r2.value, 4, 0);
        }
      }
    }
  }

  // ---------------------------------------------------------------------
  // createDeck, removeCards and shuffleDeck.

  /** The cards the deck loops have pushed when the suit index is i and the rank index is j. */
  function DeckPushed(i: nat, j: nat): seq<Card>
    requires i <= 4 && j <= 13 && (i == 4 ==> j == 0)
    decreases i, j
  {
    if j == 0 then (if i == 0 then [] else DeckPushed(i - 1, 13))
    else DeckPushed(i, j - 1) + [Card(Ranks[j - 1], Suits[i])]
  }

  /** What createDeck returns. */
  function FullDeck(): (deck: seq<Card>)
    ensures |deck| == 52
  {
    DeckPushedAt(4, 0);
    DeckPushed(4, 0)
  }

  /** createDeck: for each suit of SUITS, each rank of RANKS. */
  method CreateDeck() returns (deck: seq<Card>)
    ensures deck == FullDeck()
  {
    deck := [];
    for i := 0 to 4
      invariant deck == DeckPushed(i, 0)
    {
      for j := 0 to 13
        invariant deck == DeckPushed(i, j)
      {
        deck := deck + [Card(Ranks[j], Suits[i])];
      }
    }
  }

  /** The k-th card pushed is rank k % 13 of suit k / 13. */
  lemma {:induction false} DeckPushedAt(i: nat, j: nat)
    requires i <= 4 && j <= 13 && (i == 4 ==> j == 0)
    ensures |DeckPushed(i, j)| == 13 * i + j
    ensures forall k :: 0 <= k < |DeckPushed(i, j)| ==> DeckPushed(i, j)[k] == Card(Ranks[k % 13], Suits[k / 13])
    decreases i, j
  {
    if j == 0 {
      if i > 0 {
        DeckPushedAt(i - 1, 13);
      }
    } else {
      DeckPushedAt(i, j - 1);
      var prev := DeckPushed(i, j - 1);
      var last := Card(Ranks[j - 1], Suits[i]);
      assert DeckPushed(i, j) == prev + [last];
      forall k | 0 <= k < |prev| + 1 ensures (prev + [last])[k] == Card(Ranks[k % 13], Suits[k / 13]) {
        if k == |prev| {
          assert k % 13 == j - 1 && k / 13 == i;
        } else {
          assert (prev + [last])[k] == prev[k];
        }
      }
    }
  }

  /**
   * createDeck returns 52 different cards, suit-major with the ranks in
   * RANKS order, and every card is among them.
   */
  lemma FullDeckFacts()
    ensures |FullDeck()| == 52
    ensures forall k :: 0 <= k < 52 ==> FullDeck()[k] == Card(Ranks[k % 13], Suits[k / 13])
    ensures NoDup(FullDeck())
    ensures forall c: Card :: c in FullDeck()
  {
    DeckPushedAt(4, 0);
    var d := FullDeck();
    forall a, b | 0 <= a < b < |d| ensures d[a] != d[b] {
      CardPosition(d[a], a);
      CardPosition(d[b], b);
    }
    forall c: Card ensures c in d {
      var k := 13 * SuitIndex(c.suit) + RankIndex(c.rank);
      assert k % 13 == RankIndex(c.rank) && k / 13 == SuitIndex(c.suit);
      assert d[k] == c;
    }
  }

  /** A card built from positions in RANKS and SUITS gives those positions back. */
  lemma CardPosition(c: Card, k: nat)
    requires k < 52 && c == Card(Ranks[k % 13], Suits[k / 13])
    ensures k == 13 * SuitIndex(c.suit) + RankIndex(c.rank)
  {
    RanksFacts();
    assert RankIndex(c.rank) == k % 13;
    assert SuitIndex(c.suit) == k / 13;
  }

  /** removeCards: the deck cards that toRemove does not contain, in deck order. */
  function RemoveCards(deck: seq<Card>, toRemove: seq<Card>): (r: seq<Card>)
    ensures |r| <= |deck|
    ensures forall c :: c in r <==> c in deck && c !in toRemove
  {
    if |deck| == 0 then []
    else
      assert deck == [deck[0]] + deck[1..];
      (if CardsContain(toRemove, deck[0]) then [] else [deck[0]]) + RemoveCards(deck[1..], toRemove)
  }

  /** removeCards keeps every copy of a card it does not remove, and no copy of one it removes. */
  lemma {:induction false} RemoveCardsCount(deck: seq<Card>, toRemove: seq<Card>, c: Card)
    ensures multiset(RemoveCards(deck, toRemove))[c] == if c in toRemove then 0 else multiset(deck)[c]
  {
    if |deck| > 0 {
      RemoveCardsCount(deck[1..], toRemove, c);
      assert deck == [deck[0]] + deck[1..];
    }
  }

  /** removeCards of a concatenation is the concatenation of the two removals. */
  lemma {:induction false} RemoveCardsAppend(a: seq<Card>, b: seq<Card>, toRemove: seq<Card>)
    ensures RemoveCards(a + b, toRemove) == RemoveCards(a, toRemove) + RemoveCards(b, toRemove)
  {
    if |a| > 0 {
      var head := if CardsContain(toRemove, a[0]) then [] else [a[0]];
      assert (a + b)[0] == a[0] && (a + b)[1..] == a[1..] + b;
      assert RemoveCards(a + b, toRemove) == head + RemoveCards(a[1..] + b, toRemove);
      RemoveCardsAppend(a[1..], b, toRemove);
      assert RemoveCards(a, toRemove) == head + RemoveCards(a[1..], toRemove);
    } else {
      assert a + b == b;
    }
  }

  /** removeCards keeps a deck without repetitions free of them. */
  lemma RemoveCardsNoDup(deck: seq<Card>, toRemove: seq<Card>)
    requires NoDup(deck)
    ensures NoDup(RemoveCards(deck, toRemove))
  {
    forall c ensures multiset(RemoveCards(deck, toRemove))[c] <= 1 {
      RemoveCardsCount(deck, toRemove, c);
      NoDupMultiplicity(deck, c);
    }
    NoDupOfMultiplicity(RemoveCards(deck, toRemove));
  }

  /** Removing cards from a deck without repetitions loses at most one card per card removed. */
  lemma RemoveCardsSize(deck: seq<Card>, toRemove: seq<Card>)
    requires NoDup(deck)
    ensures |RemoveCards(deck, toRemove)| >= |deck| - |toRemove|
  {
    var r := RemoveCards(deck, toRemove);
    RemoveCardsNoDup(deck, toRemove);
    NoDupSetCard(r);
    NoDupSetCard(deck);
    SetCardBound(toRemove);
    var sd, st := set x | x in deck, set x | x in toRemove;
    assert (set x | x in r) == sd - st;
    assert sd <= (sd - st) + st;
    assert |sd| <= |(sd - st) + st| <= |sd - st| + |st|;
  }

  /** Every draw is a value Math.random can return. */
  predicate UnitDraws(draws: seq<real>)
  {
    forall k :: 0 <= k < |draws| ==> 0.0 <= draws[k] < 1.0
  }

  /** Math.floor(r * n) for a draw r in [0, 1): an index below n. */
  function RandomIndex(r: real, n: nat): (k: nat)
    requires 0.0 <= r < 1.0 && n > 0
    ensures k < n
  {
    assert 0.0 <= r * n as real < n as real by {
      assert r * n as real <= 1.0 * n as real;
    }
    (r * n as real).Floor
  }

  /** The array after the destructuring assignment that swaps positions i and j. */
  function Swap(s: seq<Card>, i: nat, j: nat): (r: seq<Card>)
    requires i < |s| && j < |s|
    ensures |r| == |s|
  {
    s[i := s[j]][j := s[i]]
  }

  /** Swapping two positions rearranges the cards without changing them. */
  lemma SwapPermutes(s: seq<Card>, i: nat, j: nat)
    requires i < |s| && j < |s|
    ensures multiset(Swap(s, i, j)) == multiset(s)
    ensures Swap(s, i, j)[i] == s[j] && Swap(s, i, j)[j] == s[i]
  {
  }

  /**
   * The array once the shuffle loop has run its steps from the last index
   * down to i + 1: step k swaps position k with the index that the draw
   * for that step picks among 0..k.
   */
  function ShuffledTo(deck: seq<Card>, draws: seq<real>, i: nat): (r: seq<Card>)
    requires i < |deck| && UnitDraws(draws) && |draws| >= |deck| - 1
    ensures |r| == |deck|
    decreases |deck| - i
  {
    if i == |deck| - 1 then deck
    else Swap(ShuffledTo(deck, draws, i + 1), i + 1, RandomIndex(draws[|deck| - 2 - i], i + 2))
  }

  /** What shuffleDeck returns when Math.random returns draws[0], draws[1], ... in turn. */
  function Shuffle(deck: seq<Card>, draws: seq<real>): seq<Card>
    requires UnitDraws(draws) && |draws| >= |deck| - 1
  {
    if |deck| == 0 then deck else ShuffledTo(deck, draws, 0)
  }

  lemma {:induction false} ShuffledToPermutes(deck: seq<Card>, draws: seq<real>, i: nat)
    requires i < |deck| && UnitDraws(draws) && |draws| >= |deck| - 1
    ensures multiset(ShuffledTo(deck, draws, i)) == multiset(deck)
    decreases |deck| - i
  {
    if i < |deck| - 1 {
      ShuffledToPermutes(deck, draws, i + 1);
      SwapPermutes(ShuffledTo(deck, draws, i + 1), i + 1, RandomIndex(draws[|deck| - 2 - i], i + 2));
    }
  }

  /** shuffleDeck returns a permutation of the deck, whatever the draws. */
  lemma ShufflePermutes(deck: seq<Card>, draws: seq<real>)
    requires UnitDraws(draws) && |draws| >= |deck| - 1
    ensures |Shuffle(deck, draws)| == |deck|
    ensures multiset(Shuffle(deck, draws)) == multiset(deck)
  {
    if |deck| > 0 {
      ShuffledToPermutes(deck, draws, 0);
    }
  }

  /**
   * shuffleDeck: Fisher-Yates on a copy of the deck, so the deck passed in
   * is left as it is; the k-th call of Math.random returns draws[k].
   */
  method ShuffleDeck(deck: seq<Card>, draws: seq<real>) returns (shuffled: seq<Card>)
    requires UnitDraws(draws) && |draws| >= |deck| - 1
    ensures shuffled == Shuffle(deck, draws)
  {
    if |deck| == 0 {
      return deck;
    }
    var a := new Card[|deck|](k requires 0 <= k < |deck| => deck[k]);
    assert a[..] == deck;
    var i := |deck| - 1;
    while i > 0
      invariant 0 <= i < a.Length == |deck|
      invariant a[..] == ShuffledTo(deck, draws, i)
      decreases i
    {
      var j := RandomIndex(draws[|deck| - 1 - i], i + 1);
      ghost var before := a[..];
      a[i], a[j] := a[j], a[i];
      assert a[..] == Swap(before, i, j);
      i := i - 1;
    }
    shuffled := a[..];
  }
}
