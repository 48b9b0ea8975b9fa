/**
 * utgRange (lib/ranges/utg.ts): the under-the-gun opening table, in the
 * order JavaScript enumerates its keys (integer-like keys such as "55"
 * first, ascending, then the rest as written).
 */
module Utg {
  import opened Types
  import opened RangeTable
  import opened Cards

  /** Pocket pairs. */
  const UtgPairs: PositionRange := [
    RangeEntry("55", RangeAction(25, 0, 75)),
    RangeEntry("66", RangeAction(50, 0, 50)),
    RangeEntry("77", RangeAction(100, 0, 0)),
    RangeEntry("88", RangeAction(100, 0, 0)),
    RangeEntry("99", RangeAction(100, 0, 0)),
    RangeEntry("AA", RangeAction(100, 0, 0)),
    RangeEntry("KK", RangeAction(100, 0, 0)),
    RangeEntry("QQ", RangeAction(100, 0, 0)),
    RangeEntry("JJ", RangeAction(100, 0, 0)),
    RangeEntry("TT", RangeAction(100, 0, 0))]

  /** Suited broadways. */
  const UtgBroadwaySuited: PositionRange := [
    RangeEntry("AKs", RangeAction(100, 0, 0)),
    RangeEntry("AQs", RangeAction(100, 0, 0)),
    RangeEntry("AJs", RangeAction(100, 0, 0)),
    RangeEntry("ATs", RangeAction(100, 0, 0)),
    RangeEntry("KQs", RangeAction(100, 0, 0)),
    RangeEntry("KJs", RangeAction(100, 0, 0)),
    RangeEntry("KTs", RangeAction(75, 0, 25)),
    RangeEntry("QJs", RangeAction(100, 0, 0)),
    RangeEntry("QTs", RangeAction(50, 0, 50)),
    RangeEntry("JTs", RangeAction(100, 0, 0))]

  /** Suited aces. */
  const UtgSuitedAces: PositionRange := [
    RangeEntry("A9s", RangeAction(50, 0, 50)),
    RangeEntry("A8s", RangeAction(25, 0, 75)),
    RangeEntry("A5s", RangeAction(50, 0, 50)),
    RangeEntry("A4s", RangeAction(25, 0, 75))]

  /** Offsuit broadways. */
  const UtgBroadwayOffsuit: PositionRange := [
    RangeEntry("AKo", RangeAction(100, 0, 0)),
    RangeEntry("AQo", RangeAction(100, 0, 0)),
    RangeEntry("AJo", RangeAction(100, 0, 0)),
    RangeEntry("ATo", RangeAction(50, 0, 50)),
    RangeEntry("KQo", RangeAction(75, 0, 25))]

  const UtgRange: PositionRange := UtgPairs + UtgBroadwaySuited + UtgSuitedAces + UtgBroadwayOffsuit

  lemma UtgPairsWellFormed()
    ensures RaiseOrFoldTable(UtgPairs)
  {
  }

  lemma UtgPairsWeight()
    ensures WeightedCombos(UtgPairs) == 5250
  {
    assert WeightedCombos(UtgPairs[10..]) == 0;
    assert WeightedCombos(UtgPairs[9..]) == 600;
    assert WeightedCombos(UtgPairs[8..]) == 1200;
    assert WeightedCombos(UtgPairs[7..]) == 1800;
    assert WeightedCombos(UtgPairs[6..]) == 2400;
    assert WeightedCombos(UtgPairs[5..]) == 3000;
    assert WeightedCombos(UtgPairs[4..]) == 3600;
    assert WeightedCombos(UtgPairs[3..]) == 4200;
    assert WeightedCombos(UtgPairs[2..]) == 4800;
    assert WeightedCombos(UtgPairs[1..]) == 5100;
    assert WeightedCombos(UtgPairs[0..]) == 5250;
    assert UtgPairs[0..] == UtgPairs;
  }

  lemma UtgBroadwaySuitedWellFormed()
    ensures RaiseOrFoldTable(UtgBroadwaySuited)
  {
  }

  lemma UtgBroadwaySuitedWeight()
    ensures WeightedCombos(UtgBroadwaySuited) == 3700
  {
    assert WeightedCombos(UtgBroadwaySuited[10..]) == 0;
    assert WeightedCombos(UtgBroadwaySuited[9..]) == 400;
    assert WeightedCombos(UtgBroadwaySuited[8..]) == 600;
    assert WeightedCombos(UtgBroadwaySuited[7..]) == 1000;
    assert WeightedCombos(UtgBroadwaySuited[6..]) == 1300;
    assert WeightedCombos(UtgBroadwaySuited[5..]) == 1700;
    assert WeightedCombos(UtgBroadwaySuited[4..]) == 2100;
    assert WeightedCombos(UtgBroadwaySuited[3..]) == 2500;
    assert WeightedCombos(UtgBroadwaySuited[2..]) == 2900;
    assert WeightedCombos(UtgBroadwaySuited[1..]) == 3300;
    assert WeightedCombos(UtgBroadwaySuited[0..]) == 3700;
    assert UtgBroadwaySuited[0..] == UtgBroadwaySuited;
  }

  lemma UtgSuitedAcesWellFormed()
    ensures RaiseOrFoldTable(UtgSuitedAces)
  {
  }

  lemma UtgSuitedAcesWeight()
    ensures WeightedCombos(UtgSuitedAces) == 600
  {
    assert WeightedCombos(UtgSuitedAces[4..]) == 0;
    assert WeightedCombos(UtgSuitedAces[3..]) == 100;
    assert WeightedCombos(UtgSuitedAces[2..]) == 300;
    assert WeightedCombos(UtgSuitedAces[1..]) == 400;
    assert WeightedCombos(UtgSuitedAces[0..]) == 600;
    assert UtgSuitedAces[0..] == UtgSuitedAces;
  }

  lemma UtgBroadwayOffsuitWellFormed()
    ensures RaiseOrFoldTable(UtgBroadwayOffsuit)
  {
  }

  lemma UtgBroadwayOffsuitWeight()
    ensures WeightedCombos(UtgBroadwayOffsuit) == 5100
  {
    assert WeightedCombos(UtgBroadwayOffsuit[5..]) == 0;
    assert WeightedCombos(UtgBroadwayOffsuit[4..]) == 900;
    assert WeightedCombos(UtgBroadwayOffsuit[3..]) == 1500;
    assert WeightedCombos(UtgBroadwayOffsuit[2..]) == 2700;
    assert WeightedCombos(UtgBroadwayOffsuit[1..]) == 3900;
    assert WeightedCombos(UtgBroadwayOffsuit[0..]) == 5100;
    assert UtgBroadwayOffsuit[0..] == UtgBroadwayOffsuit;
  }

  lemma UtgPairsKeys()
    ensures PrefixesDistinct(UtgPairs)
  {
  }

  lemma UtgBroadwaySuitedKeys()
    ensures PrefixesDistinct(UtgBroadwaySuited)
  {
  }

  lemma UtgSuitedAcesKeys()
    ensures PrefixesDistinct(UtgSuitedAces)
  {
  }

  lemma UtgBroadwayOffsuitKeys()
    ensures PrefixesDistinct(UtgBroadwayOffsuit)
  {
  }

  lemma UtgGroupTypes()
    ensures AllOfType(UtgPairs, Pair)
    ensures AllOfType(UtgBroadwaySuited, Suited)
    ensures AllOfType(UtgSuitedAces, Suited)
    ensures AllOfType(UtgBroadwayOffsuit, Offsuit)
  {
  }

  /** Pairs, suited and offsuit keys name different hand types; suited broadways and suited aces differ in the second rank. */
  lemma UtgGroupsApart()
    ensures KeysApart(UtgPairs, UtgBroadwaySuited)
    ensures KeysApart(UtgPairs, UtgSuitedAces)
    ensures KeysApart(UtgPairs, UtgBroadwayOffsuit)
    ensures KeysApart(UtgBroadwaySuited, UtgSuitedAces)
    ensures KeysApart(UtgBroadwaySuited, UtgBroadwayOffsuit)
    ensures KeysApart(UtgSuitedAces, UtgBroadwayOffsuit)
  {
    UtgGroupTypes();
    ApartByType(UtgPairs, UtgBroadwaySuited, Pair, Suited);
    ApartByType(UtgPairs, UtgSuitedAces, Pair, Suited);
    ApartByType(UtgPairs, UtgBroadwayOffsuit, Pair, Offsuit);
    ApartByType(UtgBroadwaySuited, UtgBroadwayOffsuit, Suited, Offsuit);
    ApartByType(UtgSuitedAces, UtgBroadwayOffsuit, Suited, Offsuit);
    ApartByChar(UtgBroadwaySuited, UtgSuitedAces, 1, {'K', 'Q', 'J', 'T'}, {'9', '8', '5', '4'});
  }

  /** No key of the UTG table occurs twice. */
  lemma UtgKeysDistinct()
    ensures KeysDistinct(UtgRange)
  {
    UtgPairsKeys();
    UtgBroadwaySuitedKeys();
    UtgSuitedAcesKeys();
    UtgBroadwayOffsuitKeys();
    DistinctByPrefix(UtgPairs);
    DistinctByPrefix(UtgBroadwaySuited);
    DistinctByPrefix(UtgSuitedAces);
    DistinctByPrefix(UtgBroadwayOffsuit);
    UtgGroupsApart();
    KeysDistinctAppend(UtgPairs, UtgBroadwaySuited);
    KeysApartAppend(UtgPairs, UtgBroadwaySuited, UtgSuitedAces);
    KeysDistinctAppend(UtgPairs + UtgBroadwaySuited, UtgSuitedAces);
    KeysApartAppend(UtgPairs, UtgBroadwaySuited, UtgBroadwayOffsuit);
    KeysApartAppend(UtgPairs + UtgBroadwaySuited, UtgSuitedAces, UtgBroadwayOffsuit);
    KeysDistinctAppend(UtgPairs + UtgBroadwaySuited + UtgSuitedAces, UtgBroadwayOffsuit);
  }

  /**
   * Every entry of the UTG table adds up to 100, never calls, raises a
   * quarter step, and has a canonical key, and no key occurs twice.
   */
  lemma UtgWellFormed()
    ensures RaiseOrFoldTable(UtgRange)
    ensures KeysDistinct(UtgRange)
  {
    UtgKeysDistinct();
    UtgPairsWellFormed();
    UtgBroadwaySuitedWellFormed();
    UtgSuitedAcesWellFormed();
    UtgBroadwayOffsuitWellFormed();
    RaiseOrFoldAppend(UtgPairs, UtgBroadwaySuited);
    RaiseOrFoldAppend(UtgPairs + UtgBroadwaySuited, UtgSuitedAces);
    RaiseOrFoldAppend(UtgPairs + UtgBroadwaySuited + UtgSuitedAces, UtgBroadwayOffsuit);
  }

  /** The UTG table weighs 146.5 combos, in hundredths. */
  lemma UtgWeight()
    ensures WeightedCombos(UtgRange) == 14650
  {
    UtgPairsWeight();
    UtgBroadwaySuitedWeight();
    UtgSuitedAcesWeight();
    UtgBroadwayOffsuitWeight();
    WeightedCombosAppend(UtgPairs, UtgBroadwaySuited);
    WeightedCombosAppend(UtgPairs + UtgBroadwaySuited, UtgSuitedAces);
    WeightedCombosAppend(UtgPairs + UtgBroadwaySuited + UtgSuitedAces, UtgBroadwayOffsuit);
  }

  /** The lowest second rank UTG opens with is the 4 of A4s. */
  lemma UtgLowCards()
    ensures LowCardAtLeast(UtgRange, 4)
  {
    assert LowCardAtLeast(UtgPairs, 4);
    assert LowCardAtLeast(UtgBroadwaySuited, 4);
    assert LowCardAtLeast(UtgSuitedAces, 4);
    assert LowCardAtLeast(UtgBroadwayOffsuit, 4);
    LowCardAppend(UtgPairs, UtgBroadwaySuited, 4);
    LowCardAppend(UtgPairs + UtgBroadwaySuited, UtgSuitedAces, 4);
    LowCardAppend(UtgPairs + UtgBroadwaySuited + UtgSuitedAces, UtgBroadwayOffsuit, 4);
  }
}
