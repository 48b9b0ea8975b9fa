/**
 * mpRange (lib/ranges/mp.ts): the middle-position opening table, in the
 * order JavaScript enumerates its keys, and how it widens the UTG table.
 */
module Mp {
  import opened Types
  import opened RangeTable
  import opened Utg

  /** Pocket pairs. */
  const MpPairs: PositionRange := [
    RangeEntry("44", RangeAction(25, 0, 75)),
    RangeEntry("55", RangeAction(50, 0, 50)),
    RangeEntry("66", RangeAction(75, 0, 25)),
    RangeEntry("77", RangeAction(100, 0, 0)),
    RangeEntry("88", RangeAction(100, 0, 0)),
    RangeEntry("99", RangeAction(100, 0, 0)),
    RangeEntry("AA", RangeAction(100, 0, 0)),
    RangeEntry("KK", RangeAction(100, 0, 0)),
    RangeEntry("QQ", RangeAction(100, 0, 0)),
    RangeEntry("JJ", RangeAction(100, 0, 0)),
    RangeEntry("TT", RangeAction(100, 0, 0))]

  /** Suited aces, the first part of the suited broadways. */
  const MpSuitedAces: PositionRange := [
    RangeEntry("AKs", RangeAction(100, 0, 0)),
    RangeEntry("AQs", RangeAction(100, 0, 0)),
    RangeEntry("AJs", RangeAction(100, 0, 0)),
    RangeEntry("ATs", RangeAction(100, 0, 0)),
    RangeEntry("A9s", RangeAction(75, 0, 25)),
    RangeEntry("A8s", RangeAction(50, 0, 50)),
    RangeEntry("A5s", RangeAction(75, 0, 25)),
    RangeEntry("A4s", RangeAction(50, 0, 50)),
    RangeEntry("A3s", RangeAction(25, 0, 75))]

  /** The rest of the suited broadways and suited connectors. */
  const MpSuitedBroadways: PositionRange := [
    RangeEntry("KQs", RangeAction(100, 0, 0)),
    RangeEntry("KJs", RangeAction(100, 0, 0)),
    RangeEntry("KTs", RangeAction(100, 0, 0)),
    RangeEntry("K9s", RangeAction(25, 0, 75)),
    RangeEntry("QJs", RangeAction(100, 0, 0)),
    RangeEntry("QTs", RangeAction(75, 0, 25)),
    RangeEntry("Q9s", RangeAction(25, 0, 75)),
    RangeEntry("JTs", RangeAction(100, 0, 0)),
    RangeEntry("J9s", RangeAction(25, 0, 75)),
    RangeEntry("T9s", RangeAction(50, 0, 50))]

  /** Offsuit broadways. */
  const MpBroadwayOffsuit: PositionRange := [
    RangeEntry("AKo", RangeAction(100, 0, 0)),
    RangeEntry("AQo", RangeAction(100, 0, 0)),
    RangeEntry("AJo", RangeAction(100, 0, 0)),
    RangeEntry("ATo", RangeAction(75, 0, 25)),
    RangeEntry("KQo", RangeAction(100, 0, 0)),
    RangeEntry("KJo", RangeAction(50, 0, 50)),
    RangeEntry("QJo", RangeAction(25, 0, 75))]

  const MpRange: PositionRange := MpPairs + MpSuitedAces + MpSuitedBroadways + MpBroadwayOffsuit

  lemma MpPairsWellFormed()
    ensures RaiseOrFoldTable(MpPairs)
  {
  }

  lemma MpPairsWeight()
    ensures WeightedCombos(MpPairs) == 5700
  {
    assert WeightedCombos(MpPairs[11..]) == 0;
    assert WeightedCombos(MpPairs[10..]) == 600;
    assert WeightedCombos(MpPairs[9..]) == 1200;
    assert WeightedCombos(MpPairs[8..]) == 1800;
    assert WeightedCombos(MpPairs[7..]) == 2400;
    assert WeightedCombos(MpPairs[6..]) == 3000;
    assert WeightedCombos(MpPairs[5..]) == 3600;
    assert WeightedCombos(MpPairs[4..]) == 4200;
    assert WeightedCombos(MpPairs[3..]) == 4800;
    assert WeightedCombos(MpPairs[2..]) == 5250;
    assert WeightedCombos(MpPairs[1..]) == 5550;
    assert WeightedCombos(MpPairs[0..]) == 5700;
    assert MpPairs[0..] == MpPairs;
  }

  lemma MpSuitedAcesWellFormed()
    ensures RaiseOrFoldTable(MpSuitedAces)
  {
  }

  lemma MpSuitedAcesWeight()
    ensures WeightedCombos(MpSuitedAces) == 2700
  {
    assert WeightedCombos(MpSuitedAces[9..]) == 0;
    assert WeightedCombos(MpSuitedAces[8..]) == 100;
    assert WeightedCombos(MpSuitedAces[7..]) == 300;
    assert WeightedCombos(MpSuitedAces[6..]) == 600;
    assert WeightedCombos(MpSuitedAces[5..]) == 800;
    assert WeightedCombos(MpSuitedAces[4..]) == 1100;
    assert WeightedCombos(MpSuitedAces[3..]) == 1500;
    assert WeightedCombos(MpSuitedAces[2..]) == 1900;
    assert WeightedCombos(MpSuitedAces[1..]) == 2300;
    assert WeightedCombos(MpSuitedAces[0..]) == 2700;
    assert MpSuitedAces[0..] == MpSuitedAces;
  }

  lemma MpSuitedBroadwaysWellFormed()
    ensures RaiseOrFoldTable(MpSuitedBroadways)
  {
  }

  lemma MpSuitedBroadwaysWeight()
    ensures WeightedCombos(MpSuitedBroadways) == 2800
  {
    assert WeightedCombos(MpSuitedBroadways[10..]) == 0;
    assert WeightedCombos(MpSuitedBroadways[9..]) == 200;
    assert WeightedCombos(MpSuitedBroadways[8..]) == 300;
    assert WeightedCombos(MpSuitedBroadways[7..]) == 700;
    assert WeightedCombos(MpSuitedBroadways[6..]) == 800;
    assert WeightedCombos(MpSuitedBroadways[5..]) == 1100;
    assert WeightedCombos(MpSuitedBroadways[4..]) == 1500;
    assert WeightedCombos(MpSuitedBroadways[3..]) == 1600;
    assert WeightedCombos(MpSuitedBroadways[2..]) == 2000;
    assert WeightedCombos(MpSuitedBroadways[1..]) == 2400;
    assert WeightedCombos(MpSuitedBroadways[0..]) == 2800;
    assert MpSuitedBroadways[0..] == MpSuitedBroadways;
  }

  lemma MpBroadwayOffsuitWellFormed()
    ensures RaiseOrFoldTable(MpBroadwayOffsuit)
  {
  }

  lemma MpBroadwayOffsuitWeight()
    ensures WeightedCombos(MpBroadwayOffsuit) == 6600
  {
    assert WeightedCombos(MpBroadwayOffsuit[7..]) == 0;
    assert WeightedCombos(MpBroadwayOffsuit[6..]) == 300;
    assert WeightedCombos(MpBroadwayOffsuit[5..]) == 900;
    assert WeightedCombos(MpBroadwayOffsuit[4..]) == 2100;
    assert WeightedCombos(MpBroadwayOffsuit[3..]) == 3000;
    assert WeightedCombos(MpBroadwayOffsuit[2..]) == 4200;
    assert WeightedCombos(MpBroadwayOffsuit[1..]) == 5400;
    assert WeightedCombos(MpBroadwayOffsuit[0..]) == 6600;
    assert MpBroadwayOffsuit[0..] == MpBroadwayOffsuit;
  }

  lemma MpPairsKeys()
    ensures PrefixesDistinct(MpPairs)
  {
  }

  lemma MpSuitedAcesKeys()
    ensures PrefixesDistinct(MpSuitedAces)
  {
  }

  lemma MpSuitedBroadwaysKeys()
    ensures PrefixesDistinct(MpSuitedBroadways)
  {
  }

  lemma MpBroadwayOffsuitKeys()
    ensures PrefixesDistinct(MpBroadwayOffsuit)
  {
  }

  lemma MpGroupTypes()
    ensures AllOfType(MpPairs, Pair)
    ensures AllOfType(MpSuitedAces, Suited)
    ensures AllOfType(MpSuitedBroadways, Suited)
    ensures AllOfType(MpBroadwayOffsuit, Offsuit)
  {
  }

  /** Pairs, suited and offsuit keys name different hand types; suited aces and suited broadways differ in the first rank. */
  lemma MpGroupsApart()
    ensures KeysApart(MpPairs, MpSuitedAces)
    ensures KeysApart(MpPairs, MpSuitedBroadways)
    ensures KeysApart(MpPairs, MpBroadwayOffsuit)
    ensures KeysApart(MpSuitedAces, MpSuitedBroadways)
    ensures KeysApart(MpSuitedAces, MpBroadwayOffsuit)
    ensures KeysApart(MpSuitedBroadways, MpBroadwayOffsuit)
  {
    MpGroupTypes();
    ApartByType(MpPairs, MpSuitedAces, Pair, Suited);
    ApartByType(MpPairs, MpSuitedBroadways, Pair, Suited);
    ApartByType(MpPairs, MpBroadwayOffsuit, Pair, Offsuit);
    ApartByType(MpSuitedAces, MpBroadwayOffsuit, Suited, Offsuit);
    ApartByType(MpSuitedBroadways, MpBroadwayOffsuit, Suited, Offsuit);
    ApartByChar(MpSuitedAces, MpSuitedBroadways, 0, {'A'}, {'K', 'Q', 'J', 'T'});
  }

  /** No key of the MP table occurs twice. */
  lemma MpKeysDistinct()
    ensures KeysDistinct(MpRange)
  {
    MpPairsKeys();
    MpSuitedAcesKeys();
    MpSuitedBroadwaysKeys();
    MpBroadwayOffsuitKeys();
    DistinctByPrefix(MpPairs);
    DistinctByPrefix(MpSuitedAces);
    DistinctByPrefix(MpSuitedBroadways);
    DistinctByPrefix(MpBroadwayOffsuit);
    MpGroupsApart();
    KeysDistinctAppend(MpPairs, MpSuitedAces);
    KeysApartAppend(MpPairs, MpSuitedAces, MpSuitedBroadways);
    KeysDistinctAppend(MpPairs + MpSuitedAces, MpSuitedBroadways);
    KeysApartAppend(MpPairs, MpSuitedAces, MpBroadwayOffsuit);
    KeysApartAppend(MpPairs + MpSuitedAces, MpSuitedBroadways, MpBroadwayOffsuit);
    KeysDistinctAppend(MpPairs + MpSuitedAces + MpSuitedBroadways, MpBroadwayOffsuit);
  }

  /**
   * Every entry of the MP table adds up to 100, never calls, raises a
   * quarter step, and has a canonical key, and no key occurs twice.
   */
  lemma MpWellFormed()
    ensures RaiseOrFoldTable(MpRange)
    ensures KeysDistinct(MpRange)
  {
    MpKeysDistinct();
    MpPairsWellFormed();
    MpSuitedAcesWellFormed();
    MpSuitedBroadwaysWellFormed();
    MpBroadwayOffsuitWellFormed();
    RaiseOrFoldAppend(MpPairs, MpSuitedAces);
    RaiseOrFoldAppend(MpPairs + MpSuitedAces, MpSuitedBroadways);
    RaiseOrFoldAppend(MpPairs + MpSuitedAces + MpSuitedBroadways, MpBroadwayOffsuit);
  }

  /** The MP table weighs 178 combos, in hundredths. */
  lemma MpWeight()
    ensures WeightedCombos(MpRange) == 17800
  {
    MpPairsWeight();
    MpSuitedAcesWeight();
    MpSuitedBroadwaysWeight();
    MpBroadwayOffsuitWeight();
    WeightedCombosAppend(MpPairs, MpSuitedAces);
    WeightedCombosAppend(MpPairs + MpSuitedAces, MpSuitedBroadways);
    WeightedCombosAppend(MpPairs + MpSuitedAces + MpSuitedBroadways, MpBroadwayOffsuit);
  }

  /** `large` holds an entry under the key of `e` raising at least as often. */
  predicate Covered(e: RangeEntry, large: PositionRange)
  {
    exists k :: 0 <= k < |large| && large[k].hand == e.hand && large[k].action.raise >= e.action.raise
  }

  /** Each entry of `small` is covered by `large`. */
  predicate Widens(small: PositionRange, large: PositionRange)
  {
    forall i :: 0 <= i < |small| ==> Covered(small[i], large)
  }

  lemma WidensAppend(a: PositionRange, b: PositionRange, large: PositionRange)
    requires Widens(a, large) && Widens(b, large)
    ensures Widens(a + b, large)
  {
    forall i | 0 <= i < |a + b| ensures Covered((a + b)[i], large) {
      if i < |a| {
        assert (a + b)[i] == a[i];
      } else {
        assert (a + b)[i] == b[i - |a|];
      }
    }
  }

  lemma UtgPairsWidened()
    ensures Widens(UtgPairs, MpRange)
  {
    var at: seq<nat> := [1, 2, 3, 4, 5, 6, 7, 8, 9, 10];
    forall i | 0 <= i < |UtgPairs|
      ensures Covered(UtgPairs[i], MpRange)
    {
      assert MpRange[at[i]].hand == UtgPairs[i].hand;
    }
  }

  lemma UtgBroadwaySuitedWidened()
    ensures Widens(UtgBroadwaySuited, MpRange)
  {
    var at: seq<nat> := [11, 12, 13, 14, 20, 21, 22, 24, 25, 27];
    forall i | 0 <= i < |UtgBroadwaySuited|
      ensures Covered(UtgBroadwaySuited[i], MpRange)
    {
      assert MpRange[at[i]].hand == UtgBroadwaySuited[i].hand;
    }
  }

  lemma UtgSuitedAcesWidened()
    ensures Widens(UtgSuitedAces, MpRange)
  {
    var at: seq<nat> := [15, 16, 17, 18];
    forall i | 0 <= i < |UtgSuitedAces|
      ensures Covered(UtgSuitedAces[i], MpRange)
    {
      assert MpRange[at[i]].hand == UtgSuitedAces[i].hand;
    }
  }

  lemma UtgBroadwayOffsuitWidened()
    ensures Widens(UtgBroadwayOffsuit, MpRange)
  {
    var at: seq<nat> := [30, 31, 32, 33, 34];
    forall i | 0 <= i < |UtgBroadwayOffsuit|
      ensures Covered(UtgBroadwayOffsuit[i], MpRange)
    {
      assert MpRange[at[i]].hand == UtgBroadwayOffsuit[i].hand;
    }
  }

  /** "Slightly wider than UTG": every UTG key is in the MP table with a raise frequency at least as high. */
  lemma MpWidensUtg()
    ensures Widens(UtgRange, MpRange)
  {
    UtgPairsWidened();
    UtgBroadwaySuitedWidened();
    UtgSuitedAcesWidened();
    UtgBroadwayOffsuitWidened();
    WidensAppend(UtgPairs, UtgBroadwaySuited, MpRange);
    WidensAppend(UtgPairs + UtgBroadwaySuited, UtgSuitedAces, MpRange);
    WidensAppend(UtgPairs + UtgBroadwaySuited + UtgSuitedAces, UtgBroadwayOffsuit, MpRange);
  }
}
