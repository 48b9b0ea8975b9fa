/**
 * components/RangeMatrix.tsx: the notation of each cell of the 13 by 13
 * grid (pairs on the diagonal, suited above it, offsuit below) and the
 * colour class of a cell's range action.
 */
module RangeMatrix {
  import opened Types
  import opened Cards
  import opened RangeTable
  import opened Ranges

  /** The hand and type getHandFromMatrix returns. */
  datatype MatrixCell = MatrixCell(hand: string, handType: HandType)

  /**
   * getHandFromMatrix: RANKS[row] and RANKS[col] as they stand on the
   * diagonal and above it (plus "s" above it), swapped and followed by "o"
   * below it.
   */
  function GetHandFromMatrix(row: nat, col: nat): (cell: MatrixCell)
    requires row < 13 && col < 13
    ensures cell.handType == Pair <==> row == col
    ensures cell.handType == Suited <==> row < col
    ensures |cell.hand| == 2 + |TypeSuffix(cell.handType)| && cell.hand[2..] == TypeSuffix(cell.handType)
  {
    var rank1 := RankChar(Ranks[row]);
    var rank2 := RankChar(Ranks[col]);
    if row == col then MatrixCell([rank1, rank2], Pair)
    else if row < col then MatrixCell([rank1, rank2] + "s", Suited)
    else MatrixCell([rank2, rank1] + "o", Offsuit)
  }

  /** Every cell's notation is what getHandNotation writes for the row's and the column's rank. */
  lemma MatrixNotation(row: nat, col: nat)
    requires row < 13 && col < 13
    ensures var cell := GetHandFromMatrix(row, col);
      cell.hand == GetHandNotation(Ranks[row], Ranks[col], cell.handType)
  {
    RanksFacts();
  }

  /**
   * The diagonal holds the pair of RANKS[row]; off it the first character
   * is the rank of the smaller index, which RANKS orders highest first.
   */
  lemma MatrixShape(row: nat, col: nat)
    requires row < 13 && col < 13
    ensures var cell := GetHandFromMatrix(row, col);
      && (row == col ==> cell.hand == [RankChar(Ranks[row]), RankChar(Ranks[row])])
      && (row < col ==> cell.hand[0] == RankChar(Ranks[row]) && cell.hand[1] == RankChar(Ranks[col]) && cell.handType == Suited)
      && (row > col ==> cell.hand[0] == RankChar(Ranks[col]) && cell.hand[1] == RankChar(Ranks[row]) && cell.handType == Offsuit)
      && (row != col ==> RankValue(CharToRank(cell.hand[0]).value) > RankValue(CharToRank(cell.hand[1]).value))
  {
    RanksFacts();
    MatrixNotation(row, col);
    var cell := GetHandFromMatrix(row, col);
    if row != col {
      var lo := if row < col then row else col;
      var hi := if row < col then col else row;
      RankCharRoundTrip(Ranks[lo]);
      RankCharRoundTrip(Ranks[hi]);
      assert cell.hand[0] == RankChar(Ranks[lo]) && cell.hand[1] == RankChar(Ranks[hi]);
    }
  }

  /** Two cells never share a notation: the grid shows 169 distinct hands. */
  lemma MatrixInjective(r1: nat, c1: nat, r2: nat, c2: nat)
    requires r1 < 13 && c1 < 13 && r2 < 13 && c2 < 13
    requires GetHandFromMatrix(r1, c1).hand == GetHandFromMatrix(r2, c2).hand
    ensures r1 == r2 && c1 == c2
  {
    var a := GetHandFromMatrix(r1, c1);
    var b := GetHandFromMatrix(r2, c2);
    RanksFacts();
    assert a.handType == b.handType by {
      if |a.hand| == 2 {
        assert a.handType == Pair && b.handType == Pair;
      } else {
        assert a.hand[2] == b.hand[2];
        assert a.hand[2..][0] == a.hand[2] && b.hand[2..][0] == b.hand[2];
      }
    }
    MatrixShape(r1, c1);
    MatrixShape(r2, c2);
    forall i, j | 0 <= i < 13 && 0 <= j < 13 && RankChar(Ranks[i]) == RankChar(Ranks[j]) ensures i == j {
      RankCharRoundTrip(Ranks[i]);
      RankCharRoundTrip(Ranks[j]);
    }
  }

  /** Every canonical notation has a cell. */
  lemma MatrixCovers(h: string)
    requires Canonical(h)
    ensures exists row: nat, col: nat :: row < 13 && col < 13 && GetHandFromMatrix(row, col).hand == h
  {
    CanonicalRewrites(h);
    var r1 := CharToRank(h[0]).value;
    var r2 := CharToRank(h[1]).value;
    var t := NotationType(h);
    var i, j := RankIndex(r1), RankIndex(r2);
    RanksFacts();
    RankValueInjective(r1, r2);
    var row, col := if t == Offsuit then j else i, if t == Offsuit then i else j;
    assert RankValue(r1) >= RankValue(r2) by {
      CharValueOfRank(h[0]);
      CharValueOfRank(h[1]);
    }
    MatrixNotation(row, col);
    GetHandNotationSymmetric(r1, r2, t);
  }

  /** Mirror cells show the same two ranks in the same order, one suited and one offsuit. */
  lemma MirrorCells(row: nat, col: nat)
    requires row < 13 && col < 13 && row != col
    ensures var a := GetHandFromMatrix(row, col);
      var b := GetHandFromMatrix(col, row);
      a.hand[..2] == b.hand[..2] && {a.handType, b.handType} == {Suited, Offsuit}
  {
  }

  /** The colour classes getCellColor returns. */
  datatype CellColor =
    | FoldGray       // 'bg-gray-600 text-gray-400'
    | RaiseGreen     // 'bg-green-500 text-white'
    | MostlyRaise    // 'bg-green-400 text-gray-900'
    | SometimesRaise // 'bg-green-300 text-gray-900'
    | CallBlue       // 'bg-blue-500 text-white'
    | MostlyCall     // 'bg-blue-400 text-white'
    | SometimesCall  // 'bg-blue-300 text-gray-900'
    | MixedRaise     // 'bg-yellow-400 text-gray-900'
    | MixedCall      // 'bg-orange-400 text-gray-900'

  /** getCellColor: the cases tested in turn on the raise and call frequencies. */
  function GetCellColor(action: RangeAction): (c: CellColor)
    ensures c == FoldGray <==> action.raise + action.call == 0
    ensures c == RaiseGreen <==> action.raise + action.call != 0 && action.raise >= 100
    ensures c in {MostlyRaise, SometimesRaise} <==>
      action.raise + action.call != 0 && 0 < action.raise < 100 && action.call == 0
  {
    var raiseFreq := action.raise;
    var callFreq := action.call;
    var totalFreq := raiseFreq + callFreq;
    if totalFreq == 0 then FoldGray
    else if raiseFreq >= 100 then RaiseGreen
    else if raiseFreq > 0 && callFreq == 0 then (if raiseFreq >= 50 then MostlyRaise else SometimesRaise)
    else if callFreq >= 100 then CallBlue
    else if callFreq > 0 && raiseFreq == 0 then (if callFreq >= 50 then MostlyCall else SometimesCall)
    else if raiseFreq >= callFreq then MixedRaise
    else MixedCall
  }

  /**
   * With frequencies that are never negative each colour names one region:
   * gray is out of range, green raises only, blue calls only, and yellow or
   * orange mixes the two, yellow when the raise is at least the call.
   */
  lemma CellColorRegions(action: RangeAction)
    requires NonNegative(action)
    ensures var c := GetCellColor(action);
      var raise, call := action.raise, action.call;
      && (c == FoldGray <==> raise == 0 && call == 0)
      && (c == RaiseGreen <==> raise >= 100)
      && (c == MostlyRaise <==> 50 <= raise < 100 && call == 0)
      && (c == SometimesRaise <==> 0 < raise < 50 && call == 0)
      && (c == CallBlue <==> raise < 100 && call >= 100)
      && (c == MostlyCall <==> raise == 0 && 50 <= call < 100)
      && (c == SometimesCall <==> raise == 0 && 0 < call < 50)
      && (c == MixedRaise <==> 0 < call <= raise < 100)
      && (c == MixedCall <==> 0 < raise < call < 100)
  {
  }

  /** A cell is coloured exactly when isHandInRange holds for its hand. */
  lemma CellColorInRange(book: RangeBook, position: Position, hand: string)
    requires NonNegative(GetHandAction(book, position, hand))
    ensures GetCellColor(GetHandAction(book, position, hand)) != FoldGray <==> IsHandInRange(book, position, hand)
  {
  }

  /** In the UTG and MP tables only the green shades and gray occur, the shade set by the raise. */
  lemma RaiseOrFoldColors(e: RangeEntry)
    requires RaiseOrFoldEntry(e)
    ensures var c := GetCellColor(e.action);
      && (e.action.raise == 100 ==> c == RaiseGreen)
      && (e.action.raise == 50 || e.action.raise == 75 ==> c == MostlyRaise)
      && (e.action.raise == 25 ==> c == SometimesRaise)
  {
  }
}
