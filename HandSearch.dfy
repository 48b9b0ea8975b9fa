/**
 * evaluateHand and getCombinations (lib/handStrength.ts): every 5-card
 * subset of hole cards plus board is evaluated, and the first subset whose
 * category score beats every earlier one is kept.
 */
module HandSearch {
  import opened Types
  import opened Sequences
  import opened Cards
  import opened Evaluator

  // ----- getCombinations -----

  /** The selections `combine(start, combo)` pushes, in push order. */
  function Selections(arr: seq<Card>, size: nat, start: nat, combo: seq<Card>): seq<seq<Card>>
    requires start <= |arr|
    decreases |arr| - start, 1
  {
    if |combo| == size then [combo] else SelectionsFrom(arr, size, start, combo)
  }

  /** What the loop of `combine`, from index i on, pushes. */
  function SelectionsFrom(arr: seq<Card>, size: nat, i: nat, combo: seq<Card>): seq<seq<Card>>
    requires i <= |arr|
    decreases |arr| - i, 0
  {
    if i == |arr| then []
    else Selections(arr, size, i + 1, combo + [arr[i]]) + SelectionsFrom(arr, size, i + 1, combo)
  }

  /** getCombinations(arr, size). */
  function Combinations(arr: seq<Card>, size: nat): seq<seq<Card>>
  {
    Selections(arr, size, 0, [])
  }

  /** The closure state of getCombinations: the shared `combo` stack and the `result` list. */
  class CombinationBuilder {
    const arr: seq<Card>
    const size: nat
    var result: seq<seq<Card>>
    var combo: seq<Card>

    constructor (arr: seq<Card>, size: nat)
      ensures this.arr == arr && this.size == size
      ensures result == [] && combo == []
    {
      this.arr := arr;
      this.size := size;
      result := [];
      combo := [];
    }

    /** combine(start): pushes a copy of each completed selection, and leaves the stack as it found it. */
    method Combine(start: nat)
      requires start <= |arr|
      modifies this
      ensures result == old(result) + Selections(arr, size, start, old(combo))
      ensures combo == old(combo)
      decreases |arr| - start
    {
      if |combo| == size {
        result := result + [combo];
        return;
      }
      for i := start to |arr|
        invariant combo == old(combo)
        invariant result + SelectionsFrom(arr, size, i, combo) == old(result) + SelectionsFrom(arr, size, start, combo)
      {
        ghost var before := result;
        combo := combo + [arr[i]];
        Combine(i + 1);
        combo := combo[..|combo| - 1];
        assert combo == old(combo);
        assert result == before + Selections(arr, size, i + 1, combo + [arr[i]]);
      }
    }
  }

  method GetCombinations(arr: seq<Card>, size: nat) returns (r: seq<seq<Card>>)
    ensures r == Combinations(arr, size)
  {
    var b := new CombinationBuilder(arr, size);
    b.Combine(0);
    r := b.result;
  }

  // ----- what getCombinations returns -----

  /** n choose k, by Pascal's rule. */
  function Binomial(n: nat, k: nat): nat
  {
    if k == 0 then 1 else if n == 0 then 0 else Binomial(n - 1, k - 1) + Binomial(n - 1, k)
  }

  lemma {:induction false} SelectionsCount(arr: seq<Card>, size: nat, start: nat, combo: seq<Card>)
    requires start <= |arr| && |combo| <= size
    ensures |Selections(arr, size, start, combo)| == Binomial(|arr| - start, size - |combo|)
    decreases |arr| - start, 1
  {
    if |combo| < size {
      SelectionsFromCount(arr, size, start, combo);
    }
  }

  lemma {:induction false} SelectionsFromCount(arr: seq<Card>, size: nat, i: nat, combo: seq<Card>)
    requires i <= |arr| && |combo| < size
    ensures |SelectionsFrom(arr, size, i, combo)| == Binomial(|arr| - i, size - |combo|)
    decreases |arr| - i, 0
  {
    if i < |arr| {
      SelectionsCount(arr, size, i + 1, combo + [arr[i]]);
      SelectionsFromCount(arr, size, i + 1, combo);
    }
  }

  /** getCombinations(arr, k) returns C(|arr|, k) selections. */
  lemma CombinationsCount(arr: seq<Card>, k: nat)
    ensures |Combinations(arr, k)| == Binomial(|arr|, k)
  {
    SelectionsCount(arr, k, 0, []);
  }

  /** Positions strictly increasing and inside the array. */
  predicate IncreasingIndices(idx: seq<nat>, n: nat)
  {
    (forall j :: 0 <= j < |idx| ==> idx[j] < n) &&
    (forall j, k :: 0 <= j < k < |idx| ==> idx[j] < idx[k])
  }

  /** The cards at the given positions. */
  function Pick(arr: seq<Card>, idx: seq<nat>): (r: seq<Card>)
    requires forall j :: 0 <= j < |idx| ==> idx[j] < |arr|
    ensures |r| == |idx|
  {
    seq(|idx|, j requires 0 <= j < |idx| => arr[idx[j]])
  }

  lemma {:induction false} SelectionsFromComplete(arr: seq<Card>, size: nat, i: nat, combo: seq<Card>, rest: seq<nat>)
    requires IncreasingIndices(rest, |arr|) && |rest| >= 1 && i <= rest[0]
    requires |combo| + |rest| == size
    ensures combo + Pick(arr, rest) in SelectionsFrom(arr, size, i, combo)
    decreases |rest|, rest[0] - i
  {
    var next := combo + [arr[i]];
    if rest[0] == i {
      if |rest| == 1 {
        assert combo + Pick(arr, rest) == next;
        assert Selections(arr, size, i + 1, next) == [next];
      } else {
        var tail := rest[1..];
        assert IncreasingIndices(tail, |arr|) by {
          forall j, k | 0 <= j < k < |tail| ensures tail[j] < tail[k] {
            assert tail[j] == rest[j + 1] && tail[k] == rest[k + 1];
          }
        }
        assert rest[0] < rest[1];
        SelectionsFromComplete(arr, size, i + 1, next, tail);
        assert combo + Pick(arr, rest) == next + Pick(arr, tail);
      }
    } else {
      SelectionsFromComplete(arr, size, i + 1, combo, rest);
    }
  }

  /** Every choice of k positions, taken in increasing order, is among the selections. */
  lemma CombinationsComplete(arr: seq<Card>, k: nat, idx: seq<nat>)
    requires IncreasingIndices(idx, |arr|) && |idx| == k
    ensures Pick(arr, idx) in Combinations(arr, k)
  {
    if k == 0 {
      assert Pick(arr, idx) == [];
    } else {
      SelectionsFromComplete(arr, k, 0, [], idx);
      assert [] + Pick(arr, idx) == Pick(arr, idx);
    }
  }

  /** A selection made from position start on, after the prefix already on the stack. */
  predicate Extends(arr: seq<Card>, size: nat, start: nat, combo: seq<Card>, sel: seq<Card>)
    requires start <= |arr|
  {
    |sel| == size && |combo| <= size && sel[..|combo|] == combo &&
    multiset(sel[|combo|..]) <= multiset(arr[start..])
  }

  lemma {:induction false} SelectionsShape(arr: seq<Card>, size: nat, start: nat, combo: seq<Card>)
    requires start <= |arr| && |combo| <= size
    ensures forall sel :: sel in Selections(arr, size, start, combo) ==> Extends(arr, size, start, combo, sel)
    decreases |arr| - start, 1
  {
    if |combo| == size {
      assert Extends(arr, size, start, combo, combo) by { assert combo[|combo|..] == []; }
    } else {
      SelectionsFromShape(arr, size, start, combo);
    }
  }

  lemma {:induction false} SelectionsFromShape(arr: seq<Card>, size: nat, i: nat, combo: seq<Card>)
    requires i <= |arr| && |combo| < size
    ensures forall sel :: sel in SelectionsFrom(arr, size, i, combo) ==>
      Extends(arr, size, i, combo, sel) && sel[|combo|] in arr[i..]
    decreases |arr| - i, 0
  {
    if i < |arr| {
      var next := combo + [arr[i]];
      SelectionsShape(arr, size, i + 1, next);
      SelectionsFromShape(arr, size, i + 1, combo);
      assert arr[i..] == [arr[i]] + arr[i + 1..];
      forall sel | sel in Selections(arr, size, i + 1, next)
        ensures Extends(arr, size, i, combo, sel) && sel[|combo|] in arr[i..]
      {
        assert sel[..|next|] == next;
        assert sel[|combo|] == next[|combo|] == arr[i];
        assert sel[..|combo|] == sel[..|next|][..|combo|];
        assert sel[|combo|..] == [arr[i]] + sel[|next|..];
      }
      forall sel | sel in SelectionsFrom(arr, size, i + 1, combo)
        ensures Extends(arr, size, i, combo, sel) && sel[|combo|] in arr[i..]
      {
        assert multiset(arr[i + 1..]) <= multiset(arr[i..]);
      }
    }
  }

  /** Each selection has k cards, all taken from the array (as many copies as it holds). */
  lemma CombinationsShape(arr: seq<Card>, k: nat)
    ensures forall sel :: sel in Combinations(arr, k) ==> |sel| == k && multiset(sel) <= multiset(arr)
  {
    SelectionsShape(arr, k, 0, []);
    assert arr[0..] == arr;
    forall sel | sel in Combinations(arr, k) ensures |sel| == k && multiset(sel) <= multiset(arr) {
      assert sel[0..] == sel;
    }
  }

  lemma {:induction false} SelectionsNoDup(arr: seq<Card>, size: nat, start: nat, combo: seq<Card>)
    requires NoDup(arr) && start <= |arr| && |combo| <= size
    ensures NoDup(Selections(arr, size, start, combo))
    decreases |arr| - start, 1
  {
    if |combo| < size {
      SelectionsFromNoDup(arr, size, start, combo);
    }
  }

  lemma {:induction false} SelectionsFromNoDup(arr: seq<Card>, size: nat, i: nat, combo: seq<Card>)
    requires NoDup(arr) && i <= |arr| && |combo| < size
    ensures NoDup(SelectionsFrom(arr, size, i, combo))
    decreases |arr| - i, 0
  {
    if i < |arr| {
      var next := combo + [arr[i]];
      var taken := Selections(arr, size, i + 1, next);
      var skipped := SelectionsFrom(arr, size, i + 1, combo);
      SelectionsNoDup(arr, size, i + 1, next);
      SelectionsFromNoDup(arr, size, i + 1, combo);
      SelectionsShape(arr, size, i + 1, next);
      SelectionsFromShape(arr, size, i + 1, combo);
      var later := arr[i + 1..];
      assert arr[i] !in later by {
        forall k | 0 <= k < |later| ensures later[k] != arr[i] {
          assert later[k] == arr[i + 1 + k];
        }
      }
      forall sel | sel in taken ensures sel !in skipped {
        assert sel[..|next|] == next;
        assert sel[|combo|] == arr[i];
      }
      NoDupAppend(taken, skipped);
    }
  }

  /** Distinct cards give distinct selections, so no selection is listed twice. */
  lemma CombinationsNoDup(arr: seq<Card>, k: nat)
    requires NoDup(arr)
    ensures NoDup(Combinations(arr, k))
  {
    SelectionsNoDup(arr, k, 0, []);
  }

  // ----- evaluateHand -----

  /** A candidate of evaluateHand's search: a hand and its category score. */
  datatype Search = Search(hand: HandStrength, score: int)

  /** The category score of a five-card selection. */
  function ComboScore(combo: seq<Card>): int
    requires |combo| == 5
  {
    GetHandScore(EvaluateFive(combo))
  }

  predicate AllFive(combos: seq<seq<Card>>)
  {
    forall j :: 0 <= j < |combos| ==> |combos[j]| == 5
  }

  /** Each selection paired with its evaluation. */
  function Scored(combos: seq<seq<Card>>): (r: seq<Search>)
    requires AllFive(combos)
    ensures |r| == |combos|
    ensures forall j :: 0 <= j < |r| ==> r[j] == Search(EvaluateFive(combos[j]), ComboScore(combos[j]))
  {
    seq(|combos|, j requires 0 <= j < |combos| => Search(EvaluateFive(combos[j]), ComboScore(combos[j])))
  }

  /**
   * The search state after the first n candidates: it starts at high card
   * with score 0 and a candidate replaces it only on a strictly higher score.
   */
  function Scan(cands: seq<Search>, n: nat): Search
    requires n <= |cands|
  {
    if n == 0 then Search(HandStrength(HighCard, []), 0)
    else
      var s := Scan(cands, n - 1);
      if cands[n - 1].score > s.score then cands[n - 1] else s
  }

  /** The hand evaluateHand returns. */
  function BestHand(holeCards: seq<Card>, board: seq<Card>): HandStrength
  {
    var all := holeCards + board;
    if |all| < 5 then HandStrength(HighCard, [])
    else
      CombinationsShape(all, 5);
      var combos := Combinations(all, 5);
      Scan(Scored(combos), |combos|).hand
  }

  /** evaluateHand. */
  method EvaluateHand(holeCards: seq<Card>, board: seq<Card>) returns (best: HandStrength)
    ensures best == BestHand(holeCards, board)
  {
    var all := holeCards + board;
    if |all| < 5 {
      return HandStrength(HighCard, []);
    }
    var combos := GetCombinations(all, 5);
    CombinationsShape(all, 5);
    ghost var cands := Scored(combos);
    best := HandStrength(HighCard, []);
    var bestScore := 0;
    for k := 0 to |combos|
      invariant Search(best, bestScore) == Scan(cands, k)
    {
      var hand := EvaluateFive(combos[k]);
      var score := GetHandScore(hand);
      if score > bestScore {
        bestScore := score;
        best := hand;
      }
    }
  }

  /** After n candidates the score is at least that of each of them. */
  lemma {:induction false} ScanDominates(cands: seq<Search>, n: nat)
    requires n <= |cands|
    ensures forall j :: 0 <= j < n ==> cands[j].score <= Scan(cands, n).score
  {
    if n > 0 {
      ScanDominates(cands, n - 1);
    }
  }

  /**
   * When every score is positive, after n > 0 candidates the state is the
   * first candidate that reached the top score.
   */
  lemma {:induction false} ScanKeepsFirst(cands: seq<Search>, n: nat)
    requires 0 < n <= |cands|
    requires forall j :: 0 <= j < |cands| ==> cands[j].score > 0
    ensures exists j :: (0 <= j < n && Scan(cands, n) == cands[j]
      && (forall i :: 0 <= i < j ==> cands[i].score < cands[j].score))
  {
    if n == 1 {
      assert Scan(cands, 1) == cands[0];
    } else {
      ScanKeepsFirst(cands, n - 1);
      if cands[n - 1].score > Scan(cands, n - 1).score {
        ScanDominates(cands, n - 1);
      }
    }
  }

  /** With five or more cards there is at least one selection. */
  lemma CombinationsNonEmpty(all: seq<Card>)
    requires |all| >= 5
    ensures |Combinations(all, 5)| > 0
  {
    var idx: seq<nat> := [0, 1, 2, 3, 4];
    CombinationsComplete(all, 5, idx);
  }

  /** Fewer than five cards give high card with no kickers. */
  lemma IncompleteHand(holeCards: seq<Card>, board: seq<Card>)
    requires |holeCards| + |board| < 5
    ensures BestHand(holeCards, board) == HandStrength(HighCard, [])
  {
  }

  /** With five or more cards, the returned hand is the final scan state over the selections. */
  lemma BestHandScan(holeCards: seq<Card>, board: seq<Card>)
    requires |holeCards + board| >= 5
    ensures AllFive(Combinations(holeCards + board, 5))
    ensures |Combinations(holeCards + board, 5)| > 0
    ensures var combos := Combinations(holeCards + board, 5);
      var final := Scan(Scored(combos), |combos|);
      BestHand(holeCards, board) == final.hand && GetHandScore(final.hand) == final.score
  {
    var all := holeCards + board;
    CombinationsShape(all, 5);
    CombinationsNonEmpty(all);
    ScanScores(Combinations(all, 5));
  }

  /** No five-card subset scores above the returned hand. */
  lemma BestHandDominates(holeCards: seq<Card>, board: seq<Card>, idx: seq<nat>)
    requires |holeCards + board| >= 5
    requires IncreasingIndices(idx, |holeCards + board|) && |idx| == 5
    ensures GetHandScore(EvaluateFive(Pick(holeCards + board, idx))) <= GetHandScore(BestHand(holeCards, board))
  {
    var all := holeCards + board;
    var combos := Combinations(all, 5);
    BestHandScan(holeCards, board);
    CombinationsComplete(all, 5, idx);
    var cands := Scored(combos);
    ScanDominates(cands, |combos|);
    var j :| 0 <= j < |combos| && Pick(all, idx) == combos[j];
    assert cands[j].score == GetHandScore(EvaluateFive(combos[j]));
  }

  /** The scan over evaluated selections carries the score of the hand it holds. */
  lemma ScanScores(combos: seq<seq<Card>>)
    requires AllFive(combos) && |combos| > 0
    ensures forall j :: 0 <= j < |combos| ==> Scored(combos)[j].score > 0
    ensures Scan(Scored(combos), |combos|).score == GetHandScore(Scan(Scored(combos), |combos|).hand)
  {
    var cands := Scored(combos);
    forall j | 0 <= j < |combos| ensures cands[j].score > 0 {
      assert cands[j].score == GetHandScore(EvaluateFive(combos[j]));
    }
    ScanKeepsFirst(cands, |combos|);
  }

  /** The returned hand is the evaluation of the first selection with the top score. */
  lemma BestHandIsFirstBest(holeCards: seq<Card>, board: seq<Card>)
    requires |holeCards + board| >= 5
    ensures AllFive(Combinations(holeCards + board, 5))
    ensures exists j :: (0 <= j < |Combinations(holeCards + board, 5)|
      && BestHand(holeCards, board) == EvaluateFive(Combinations(holeCards + board, 5)[j])
      && (forall i :: 0 <= i < j ==> ComboScore(Combinations(holeCards + board, 5)[i]) < GetHandScore(BestHand(holeCards, board))))
  {
    var all := holeCards + board;
    var combos := Combinations(all, 5);
    BestHandScan(holeCards, board);
    var cands := Scored(combos);
    ScanScores(combos);
    ScanKeepsFirst(cands, |combos|);
    var j :| 0 <= j < |combos| && Scan(cands, |combos|) == cands[j]
      && (forall i :: 0 <= i < j ==> cands[i].score < cands[j].score);
    var best := BestHand(holeCards, board);
    assert best == cands[j].hand == EvaluateFive(combos[j]);
    assert GetHandScore(best) == cands[j].score;
    forall i | 0 <= i < j ensures ComboScore(combos[i]) < GetHandScore(best) {
      assert ComboScore(combos[i]) == cands[i].score;
    }
  }
}
