# Poker range analyzer: a verified model of its core

This project models, in Dafny, the core of a preflop/postflop poker study tool written in TypeScript. The modelled parts are:

- the card and deck library (`lib/cards.ts`): parsing and printing cards, classifying two hole cards into a notation such as `AKs`, listing the combos of a notation, building, shuffling and filtering the deck;
- the hand evaluator and board texture (`lib/handStrength.ts`): choosing the best five of up to seven cards, naming its category and kickers, and describing a board (paired, suit texture, connectivity, high card);
- the opening-range tables and their lookups (`lib/ranges/index.ts`, `utg.ts`, `mp.ts`);
- the Monte-Carlo equity simulator (`lib/equity.ts`). Its randomness is passed in as the sequence of values `Math.random` would return;
- the action recommendation rule (`components/AnalysisSummary.tsx` and its copy in `components/ActionAdvice.tsx`);
- the pure helpers of the UI: the range grid (`components/RangeMatrix.tsx`), the card picker's click rule (`components/CardPicker.tsx`) and the page's card selection state (`app/page.tsx`).

There is one Dafny module per source file, plus `RangeTable`, the part of `lib/ranges/index.ts` the tables share (the `range[hand]` lookup and getHandCombos), and two helper modules of sequence facts, `Sequences` and `Lists`. `Evaluator`, `HandSearch` and `Texture` together cover `lib/handStrength.ts`. Loops of the source are methods with loop invariants, and each is proved equal to a function that states its result. Examples are `GetAllCombos`, `CreateDeck`, `ShuffleDeck`, `GetCombinations`, `EvaluateHand`, `GetRankCounts`, `AnalyzeBoardTexture`, `CalculateEquityVsRange` and `GetRangePercentage`. The page's state is a class whose methods change its fields.

Points where the model follows the code rather than the prose that documents it:

- `evaluateHand` keeps the first five-card selection with the strictly highest category score. Kickers play no part in that choice, although the documentation describes the best hand as highest by category and then by kickers. `HandSearch.BestHandIsFirstBest` states the code's behaviour.
- A flush that is also a straight and holds an ace is called a royal flush. This includes the suited wheel A-2-3-4-5 (`Evaluator.SuitedWheelIsRoyal`).
- The UTG table plays 146.5 combos and the MP table 178 (about 11.0% and 13.4%), not the "~15%" and "~18%" of the files' header comments.
- `calculateEquityVsRange` skips a key only when its raise and call are both exactly 0. This is a different test from `isHandInRange` (raise > 0 or call > 0); the two differ only on negative frequencies.
- Object key order is JavaScript's. Integer-like keys (`'99'` … `'22'`) come first in ascending order, then the other keys in insertion order. The UTG and MP tables are written in that enumeration order. `getRankCounts` and `getKeyByValue` use the same order (`Evaluator.KeyOrder`).

## Model

| member | source | states |
|---|---|---|
| Types.PositionsAreSix | lib/types.ts:12 | Exactly six positions, listed once each. |
| Types.CategoriesAreTen | lib/types.ts:33-43 | Exactly ten made-hand categories, listed once each. |
| Cards.RanksFacts | lib/cards.ts:3-4 | RANKS lists all 13 ranks once, with values descending from 14 by one per place; SUITS lists all 4 suits once. |
| Cards.RankValue | lib/cards.ts:20-23 | RANK_VALUES lies in 2..14. |
| Cards.RankValueInjective | lib/cards.ts:20-23 | Two ranks with the same value are the same rank. |
| Cards.RankCharRoundTrip | lib/cards.ts:3 | Reading back a rank's character gives the rank. |
| Cards.SuitCharRoundTrip | lib/cards.ts:4 | Reading back a suit's character gives the suit. |
| Cards.CharToRank | lib/cards.ts:27-29 | A character names a rank exactly when it is in RANKS, and then it is that rank's character. |
| Cards.CharToSuit | lib/cards.ts:28-29 | A character names a suit exactly when it is in SUITS. |
| Cards.CardToString | lib/cards.ts:33-35 | Two characters: a rank character, then a suit character. |
| Cards.ParseCard | lib/cards.ts:25-31 | A card exactly when the string has length 2 and its upper-cased first and lower-cased second characters spell one; otherwise none. |
| Cards.ParseCardToString | lib/cards.ts:25-35 | parseCard(cardToString(c)) == c for every card. |
| Cards.ParseCardIgnoresCase | lib/cards.ts:27-28 | parseCard ignores the case of both characters. |
| Cards.IsSameCard | lib/cards.ts:41-43 | True exactly when the two cards are equal. |
| Cards.CardsContain | lib/cards.ts:45-47 | True exactly when the card is in the list. |
| Cards.GetHandNotation | lib/cards.ts:76-85 | Two rank characters of the given ranks, the higher value first, then the type suffix. |
| Cards.GetHandNotationSymmetric | lib/cards.ts:76-85 | The notation does not depend on the order of the two ranks. |
| Cards.CanonicalIsNotation | lib/cards.ts:76-85 | The canonical notations are exactly what getHandNotation writes for two ranks and a matching type. |
| Cards.ClassifyHoleCards | lib/cards.ts:49-74 | None exactly for absent cards. Otherwise: high rank ≥ low rank; they are the two cards' ranks; pair iff equal ranks; suited iff different ranks and equal suits; the notation is getHandNotation's. |
| Cards.ClassifySwap | lib/cards.ts:49-74 | Swapping the two cards gives the same classification. |
| Cards.GetAllCombos | lib/cards.ts:87-128 | The loops build exactly the combos CombosOf lists. |
| Cards.PairCombos | lib/cards.ts:90-100 | The pair loop pushes the suit pairs i < j in order. |
| Cards.SuitedCombos | lib/cards.ts:101-110 | The suited loop pushes one combo per suit. |
| Cards.OffsuitCombos | lib/cards.ts:111-125 | The offsuit loop pushes every ordered pair of distinct suits. |
| Cards.CombosOfNotation | lib/cards.ts:87-128 | For a notation of two ranks and a matching type: 6, 4 or 12 distinct combos, each classifying back to that notation. |
| Cards.CombosOfOther | lib/cards.ts:87-128 | A string not of length 2 and ending in neither "s" nor "o" has no combos. |
| Cards.PairCombosClassify | lib/cards.ts:90-100 | Six pair combos, each classifying to the pair notation. |
| Cards.SuitedCombosClassify | lib/cards.ts:101-110 | Four suited combos, each classifying to the suited notation. |
| Cards.OffsuitCombosClassify | lib/cards.ts:111-125 | Twelve offsuit combos, each classifying to the offsuit notation. |
| Cards.FullDeck | lib/cards.ts:130-138 | The deck has 52 cards. |
| Cards.CreateDeck | lib/cards.ts:130-138 | The nested loops build FullDeck. |
| Cards.FullDeckFacts | lib/cards.ts:130-138 | 52 distinct cards, containing every card; card k has rank RANKS[k % 13] and suit SUITS[k / 13] (suit-major). |
| Cards.RemoveCards | lib/cards.ts:149-151 | Keeps exactly the deck cards that are not in toRemove. |
| Cards.RemoveCardsCount | lib/cards.ts:149-151 | A kept card keeps all its copies; a removed card keeps none. |
| Cards.RemoveCardsAppend | lib/cards.ts:149-151 | Filtering distributes over concatenation, so the original order is kept. |
| Cards.RemoveCardsNoDup | lib/cards.ts:149-151 | Filtering a list of distinct cards keeps them distinct. |
| Cards.RemoveCardsSize | lib/cards.ts:149-151 | From a list of distinct cards, removing a list of k cards leaves at least all but k of them. |
| Cards.RandomIndex | lib/cards.ts:143 | Math.floor(r * n) is an index below n. |
| Cards.SwapPermutes | lib/cards.ts:144 | The swap exchanges positions i and j and keeps the multiset. |
| Cards.ShufflePermutes | lib/cards.ts:140-147 | The shuffle is a permutation of the deck whatever the draws. |
| Cards.ShuffleDeck | lib/cards.ts:140-147 | The in-place loop on a copied array returns Shuffle(deck, draws); the input deck is a value and so stays unchanged. |
| Evaluator.GetHandRankValue | lib/handStrength.ts:245-259 | A value in 1..10. |
| Evaluator.GetHandScore | lib/handStrength.ts:160-174 | A value in 1..10. |
| Evaluator.ScoreTables | lib/handStrength.ts:160-174 | getHandScore agrees with getHandRankValue, and the i-th category is worth i + 1. |
| Evaluator.ScoresStrictlyIncrease | lib/handStrength.ts:245-259 | The values are one-to-one and strictly increasing over the ten categories. |
| Evaluator.CheckStraight | lib/handStrength.ts:127-146 | The loop returns IsStraight: a five-wide window in the distinct values, or the wheel. |
| Evaluator.StraightMeansRun | lib/handStrength.ts:127-146 | checkStraight is true iff five consecutive values occur, or A, 5, 4, 3, 2 all occur. |
| Evaluator.DistinctDescMembers | lib/handStrength.ts:128 | The deduplicated sorted values hold exactly the input's values. |
| Evaluator.DistinctDescStrict | lib/handStrength.ts:128 | The deduplicated values are strictly descending. |
| Evaluator.GetRankCounts | lib/handStrength.ts:148-154 | The counting loop returns RankCounts. |
| Evaluator.KeyOrderFacts | lib/handStrength.ts:156-158 | Object key order lists each present rank exactly once. |
| Evaluator.KeyByValue | lib/handStrength.ts:156-158 | The first key with the count if there is one (it then has that count), and none only when no key has it. |
| Evaluator.FirstOther | lib/handStrength.ts:78 | ranks.find(r => r !== key): a rank other than the key, or none when all equal it. |
| Evaluator.FirstNotIn | lib/handStrength.ts:112 | ranks.find(r => !pairs.includes(r)): a rank outside the pairs, or none. |
| Evaluator.EvaluateFive | lib/handStrength.ts:55-125 | evaluateFiveCards: no contract of its own; EvaluateFiveCategory states its category for every five cards, and EvaluateKickers and TopCardLeftOut state its kickers. |
| Evaluator.EvaluateFiveCategory | lib/handStrength.ts:55-125 | For any five cards, each of the ten categories holds iff its condition holds, with the conditions in the source's priority order. The conditions are stated on one suit, a run of five values or the wheel, an ace, and how many ranks occur exactly 4, 3 or 2 times. Five identical cards are high card. |
| Evaluator.Cascade | lib/handStrength.ts:66-124 | The category tests in source order: no contract of its own; CascadeCategory states its category, and CascadeKickerCount, CascadeKickersSorted and CascadeKickersUnpaired state its kickers. |
| Evaluator.CascadeCategory | lib/handStrength.ts:62-124 | The same ten if-and-only-ifs over the cascade's own flush and straight flags and the multiset of ranks. The sorted counts of getRankCounts are tied to "some rank occurs k times" and "two ranks occur twice". |
| Evaluator.QuadsCount | lib/handStrength.ts:62-77 | counts[0] === 4 iff some rank occurs exactly four times. |
| Evaluator.TripsCount | lib/handStrength.ts:62-100 | counts[0] === 3 iff some rank occurs exactly three times. |
| Evaluator.FullHouseCount | lib/handStrength.ts:62-83 | Once counts[0] === 3, counts[1] === 2 iff some rank occurs exactly twice. |
| Evaluator.PairCount | lib/handStrength.ts:62-117 | counts[0] === 2 iff some rank occurs exactly twice and none three times. |
| Evaluator.TwoPairCount | lib/handStrength.ts:62-107 | counts[0] === 2 && counts[1] === 2 iff two different ranks occur exactly twice each. |
| Evaluator.StraightOfCards | lib/handStrength.ts:58-61 | checkStraight on the sorted values holds iff the hand's values hold a run of five or the wheel. |
| Evaluator.EvaluateKickers | lib/handStrength.ts:55-125 | Kickers are sorted descending, number 1/2/3/1/4/4/0 by category, and in paired categories each occurs once in the hand. |
| Evaluator.CascadeKickerCount | lib/handStrength.ts:76-124 | The kicker count matches the category. |
| Evaluator.CascadeKickersSorted | lib/handStrength.ts:91-124 | The kicker lists are sorted descending. |
| Evaluator.CascadeKickersUnpaired | lib/handStrength.ts:76-121 | For quads, trips, two pair and pair, every kicker is a singleton rank, so it is never the made rank. |
| Evaluator.TopCardLeftOut | lib/handStrength.ts:90-124 | For flush and high card the kickers are the hand minus its top card, and none is above it. |
| Evaluator.RoyalFlushIff | lib/handStrength.ts:60-68 | Royal flush iff one suit, a straight, and an ace among the values. |
| Evaluator.SuitedWheelIsRoyal | lib/handStrength.ts:60-68 | A suited A-2-3-4-5 is called a royal flush. |
| Evaluator.MixedWheelIsStraight | lib/handStrength.ts:94-97 | Any five cards showing A, 5, 4, 3 and 2 that are not all one suit make a straight. |
| Evaluator.WheelRanksDistinct | lib/handStrength.ts:139-143 | Five cards showing A, 5, 4, 3 and 2 hold five different ranks, so the wheel is never a paired hand. |
| HandSearch.CombinationBuilder.constructor | lib/handStrength.ts:36-37 | Starts with an empty result and an empty combo stack over the given cards and size. |
| HandSearch.CombinationBuilder.Combine | lib/handStrength.ts:39-50 | combine(start) appends to the result every completion of the current stack from start on, and leaves the stack as it found it. |
| HandSearch.GetCombinations | lib/handStrength.ts:36-53 | The backtracking returns Combinations(arr, size). |
| HandSearch.CombinationsCount | lib/handStrength.ts:36-53 | There are C(n, k) selections. |
| HandSearch.CombinationsComplete | lib/handStrength.ts:36-53 | Every index-increasing selection is among them. |
| HandSearch.CombinationsShape | lib/handStrength.ts:36-53 | Every selection has k cards drawn from arr. |
| HandSearch.CombinationsNoDup | lib/handStrength.ts:36-53 | Over distinct cards no selection appears twice. |
| HandSearch.EvaluateHand | lib/handStrength.ts:4-34 | The loop returns BestHand. |
| HandSearch.IncompleteHand | lib/handStrength.ts:7-13 | Fewer than five cards give high card with no kickers. |
| HandSearch.BestHandDominates | lib/handStrength.ts:24-31 | No five-card selection scores above the returned hand. |
| HandSearch.BestHandIsFirstBest | lib/handStrength.ts:16-33 | The returned hand is the evaluation of some selection, and every earlier selection scores strictly less. |
| Texture.CountSuits | lib/handStrength.ts:199-202 | The histogram loop returns SuitCounts. |
| Texture.MaxSuitCountFacts | lib/handStrength.ts:203 | The maximum suit count lies in 1..n, is reached by some suit, and bounds every suit. |
| Texture.DistinctAscFacts | lib/handStrength.ts:211 | The deduplicated sorted values hold exactly the board's values, strictly ascending. |
| Texture.LongestRun | lib/handStrength.ts:212-223 | The loop returns MaxConnected of the sorted values. |
| Texture.RunAfterFacts | lib/handStrength.ts:212-223 | The longest run is ≥ 2 iff some neighbours are within 2, and ≥ 3 iff two consecutive gaps are. |
| Texture.HighRankIsMax | lib/handStrength.ts:229-231 | The reduce returns a board rank of maximal value. |
| Texture.AnalyzeBoardTexture | lib/handStrength.ts:176-243 | The method returns TextureOf(board). |
| Texture.EmptyBoard | lib/handStrength.ts:177-188 | The empty board has every flag false, no high card, and is disconnected. |
| Texture.PairedIff | lib/handStrength.ts:195-196 | Paired iff two board cards share a rank. |
| Texture.SuitFlags | lib/handStrength.ts:203-208 | Monotone iff some suit occurs 3+ times; rainbow iff none occurs twice; two-tone iff 3+ cards, some suit exactly twice and none more; flush draw iff some suit occurs twice and fewer than 5 cards; for 3+ cards exactly one texture flag; never a flush draw on 5 cards. |
| Texture.ConnectivityIff | lib/handStrength.ts:211-226 | Connected, gapped and disconnected in terms of gaps ≤ 2 between distinct values; a straight draw iff not disconnected. |
| Texture.HighCardIsMax | lib/handStrength.ts:229-231 | The high card is a board rank of maximal value. |
| RangeTable.Lookup | lib/ranges/index.ts:24 | `range[hand]`: none iff no entry has the key; otherwise the action of an entry with that key (the first; the tables repeat no key, so this is the one JavaScript keeps). |
| RangeTable.LookupFirst | lib/ranges/index.ts:24 | An entry not shadowed by an earlier one is what the lookup returns. |
| RangeTable.LookupEvery | lib/ranges/index.ts:24 | In a table with no repeated key, the lookup of every entry's key returns that entry's action. |
| RangeTable.GetHandCombos | lib/ranges/index.ts:47-58 | getHandCombos: 6 for a two-character hand, else 4 for one ending in "s", else 12; HandCombosCountCombos ties it to getAllCombos. |
| RangeTable.HandCombosCountCombos | lib/ranges/index.ts:47-58 | On a canonical notation getHandCombos equals the number of combos getAllCombos lists (6, 4 or 12). |
| RangeTable.WeightedCombosBounds | lib/ranges/index.ts:36-41 | With non-negative frequencies whose raise + call ≤ 100, the weighted size lies in 0..1200 per entry. |
| Utg.UtgWellFormed | lib/ranges/utg.ts:5-42 | Every UTG entry sums to 100, has call 0 and raise in {25, 50, 75, 100}, and a canonical key; no key occurs twice. |
| Utg.UtgKeysDistinct | lib/ranges/utg.ts:5-42 | No two UTG entries share a key, so the object literal loses no entry and the lookup finds each. |
| Utg.UtgWeight | lib/ranges/utg.ts:5-42 | Σ combos × (raise + call) over UTG is 14650, i.e. 146.5 combos. |
| Utg.UtgPairsWeight | lib/ranges/utg.ts:6-16 | The pairs weigh 5250. |
| Utg.UtgBroadwaySuitedWeight | lib/ranges/utg.ts:18-28 | The suited broadways weigh 3700. |
| Utg.UtgSuitedAcesWeight | lib/ranges/utg.ts:30-34 | The suited aces weigh 600. |
| Utg.UtgBroadwayOffsuitWeight | lib/ranges/utg.ts:36-41 | The offsuit broadways weigh 5100. |
| Utg.UtgLowCards | lib/ranges/utg.ts:5-42 | Every UTG key's second rank is worth at least 4, so no key holds a 2 or 3. |
| Mp.MpWellFormed | lib/ranges/mp.ts:5-48 | Every MP entry sums to 100, has call 0 and raise in {25, 50, 75, 100}, and a canonical key; no key occurs twice. |
| Mp.MpKeysDistinct | lib/ranges/mp.ts:5-48 | No two MP entries share a key, so the object literal loses no entry and the lookup finds each. |
| Mp.MpWeight | lib/ranges/mp.ts:5-48 | Σ combos × (raise + call) over MP is 17800, i.e. 178 combos. |
| Mp.MpPairsWeight | lib/ranges/mp.ts:6-17 | The pairs weigh 5700. |
| Mp.MpSuitedAcesWeight | lib/ranges/mp.ts:19-28 | The suited aces weigh 2700. |
| Mp.MpSuitedBroadwaysWeight | lib/ranges/mp.ts:29-38 | The other suited hands weigh 2800. |
| Mp.MpBroadwayOffsuitWeight | lib/ranges/mp.ts:40-47 | The offsuit broadways weigh 6600. |
| Mp.MpWidensUtg | lib/ranges/mp.ts:3-48 | Every UTG entry's key is in MP with a raise at least as large. |
| Ranges.GetRangeForPosition | lib/ranges/index.ts:9-20 | UTG reads the UTG table and MP the MP table. |
| Ranges.GetHandAction | lib/ranges/index.ts:22-25 | getHandAction: no contract of its own; HandActionListed and UnlistedNotInRange state it is the listed action or all-fold. |
| Ranges.IsHandInRange | lib/ranges/index.ts:27-30 | isHandInRange (raise > 0 or call > 0): no contract of its own; InRangeIffListed, UnlistedNotInRange and CellColorInRange state its meaning. |
| Ranges.HandActionListed | lib/ranges/index.ts:22-25 | All-fold for an unlisted hand; otherwise the action of an entry listing it. |
| Ranges.UnlistedNotInRange | lib/ranges/index.ts:22-30 | An unlisted hand gets all-fold and is not in range. |
| Ranges.InRangeIffListed | lib/ranges/index.ts:22-30 | At UTG and MP a hand is in range iff the table lists it. |
| Ranges.SumInRangeCombos | lib/ranges/index.ts:34-41 | The loop's inRangeCombos is the weighted size divided by 100. |
| Ranges.GetRangePercentage | lib/ranges/index.ts:32-45 | The percentage is the weighted size over 1326 (exact arithmetic). |
| Ranges.RangePercentageBounds | lib/ranges/index.ts:32-45 | With sane frequencies the percentage is non-negative and bounded by the table size. |
| Ranges.PositionPercentages | lib/ranges/index.ts:32-45 | UTG gives 14650/1326 and MP 17800/1326. |
| Ranges.UtgAceKingSuited | lib/ranges/utg.ts:19 | UTG raises AKs 100%. |
| Ranges.UtgSevenTwoOffsuit | lib/ranges/index.ts:22-30 | UTG folds 72o, which is not in range. |
| Ranges.MpPlaysUtgHands | lib/ranges/mp.ts:3-48 | A hand in range at UTG is in range at MP, and MP lists it with a raise at least as large. |
| Equity.KickerOrder | lib/equity.ts:95-108 | The comparison is -1, 0 or 1. |
| Equity.CompareKickers | lib/equity.ts:95-108 | The loop returns KickerOrder. |
| Equity.KickerOrderMeaning | lib/equity.ts:101-107 | 0 iff the kickers agree up to the shorter length; 1 iff the hero's kicker is higher at the first difference within it. |
| Equity.KickerOrderAntisymmetric | lib/equity.ts:95-108 | Swapping the hands negates the result. |
| Equity.KickerOrderSelf | lib/equity.ts:95-108 | A kicker list compares equal to itself. |
| Equity.Outcome | lib/equity.ts:66-79 | The showdown: category values first, then compareKickers: no contract of its own; OutcomeSymmetric and NoKickerCategoriesTie state its properties. |
| Equity.OutcomeSymmetric | lib/equity.ts:66-79 | Hero wins iff villain would lose with seats swapped; ties are symmetric; a hand ties itself. |
| Equity.BestHandKickerCount | lib/equity.ts:63-73 | Evaluated hands carry as many kickers as their category prescribes. |
| Equity.NoKickerCategoriesTie | lib/equity.ts:69-78 | Two straights, full houses, straight flushes or royal flushes always tie. |
| Equity.Slice | lib/equity.ts:59 | `slice(0, end)` is a prefix, and exactly s[..end] for an end in range. |
| Equity.CountFacts | lib/equity.ts:45-81 | wins + ties ≤ trials, and the counts are the numbers of wins and ties. |
| Equity.Unblocked | lib/equity.ts:30-37 | Keeps exactly the combos sharing no card with the used cards. |
| Equity.VillainCombosMembers | lib/equity.ts:23-39 | A combo is a candidate iff it is unblocked and is a combo of a table key whose action is not raise 0 and call 0. |
| Equity.VillainCombosAvoidUsed | lib/equity.ts:30-37 | Candidates share no card with hero or board. |
| Equity.CollectVillainCombos | lib/equity.ts:23-39 | The key loop builds VillainCombos. |
| Equity.VisitKey | lib/equity.ts:25-38 | One key's step adds its unblocked combos, or nothing when the key is skipped. |
| Equity.PushUnblocked | lib/equity.ts:30-37 | The combo loop appends exactly the unblocked combos. |
| Equity.RunTrial | lib/equity.ts:50-79 | One trial's outcome is TrialOutcomeOf the draw. |
| Equity.RunTrials | lib/equity.ts:45-81 | samples == iterations, and wins and ties are the counts over the trial outcomes. |
| Equity.EquityVsRange | lib/equity.ts:8-93 | What calculateEquityVsRange returns before rounding: no contract of its own; NoHeroCards, NoVillainCombos, EquityCounts and TrialBoardFacts state its cases and bounds. |
| Equity.CalculateEquityVsRange | lib/equity.ts:8-93 | The method returns EquityVsRange (before rounding). |
| Equity.CalculatePreflopEquity | lib/equity.ts:110-116 | The same computation with an empty board. |
| Equity.NoHeroCards | lib/equity.ts:14-16 | No hero cards give 0, 0, 0 with 0 samples. |
| Equity.NoVillainCombos | lib/equity.ts:41-43 | No candidate gives 100, 100, 0 with 0 samples. |
| Equity.EquityCounts | lib/equity.ts:45-92 | Otherwise samples == iterations, win + tie ≤ 100, equity == win + tie / 2, and equity lies in 0..100. |
| Equity.RatesBounds | lib/equity.ts:83-85 | The rates lie in 0..100 and equity is win + tie / 2. |
| Equity.TrialBoardFacts | lib/equity.ts:19-60 | With distinct hero and board cards, each trial's final board is the board plus a runout: five distinct cards, disjoint from the hero and villain hands. |
| Equity.FinalBoardFacts | lib/equity.ts:54-60 | The same for any villain hand disjoint from hero and board. |
| AnalysisSummary.HandValue | components/AnalysisSummary.tsx:50-51 | getHandRankValue of evaluateHand lies in 1..10. |
| AnalysisSummary.ShortBoardValue | components/AnalysisSummary.tsx:50-51 | With fewer than three board cards the hand value is 1 (evaluateHand's incomplete hand). |
| AnalysisSummary.PreflopAdvice | components/AnalysisSummary.tsx:37-48 | Never check; fold iff no action or fold 100; call iff not folding and raise ≤ 0; high confidence iff folding or raise ≥ 75; a sizing iff raising. |
| AnalysisSummary.PostflopAdvice | components/AnalysisSummary.tsx:50-70 | Value ≥ 5 raises with high confidence; raise iff value ≥ 5 or equity ≥ 60; check iff value < 3 and 45 ≤ equity < 60; fold iff value < 5 and equity < 30; low confidence iff value < 5 and 30 ≤ equity < 45. |
| AnalysisSummary.GetActionRecommendation | components/AnalysisSummary.tsx:24-71 | No cards give fold/low; check iff there are cards, a board, a hand value below 3 and 45 ≤ equity < 60. |
| AnalysisSummary.PreflopCases | components/AnalysisSummary.tsx:37-47 | Fold 100: fold/high; raise ≥ 75: raise/"2.5-3x"/high; 0 < raise < 75: raise/"2.5x"/medium; raise ≤ 0: call/medium. |
| AnalysisSummary.PreflopUnlisted | components/AnalysisSummary.tsx:37-40 | A hand the hero's table does not list is folded with high confidence. |
| AnalysisSummary.PostflopCases | components/AnalysisSummary.tsx:50-70 | The full postflop threshold table, case by case, including the sizings. |
| AnalysisSummary.ShortBoardAdvice | components/AnalysisSummary.tsx:37-70 | A one- or two-card board takes the postflop path with value 1: raise iff equity ≥ 60, check iff 45 ≤ equity < 60. |
| AnalysisSummary.UtgOpensAceKingSuited | components/AnalysisSummary.tsx:37-43 | Suited ace-king at UTG opens 2.5-3x with high confidence. |
| AnalysisSummary.UtgFoldsSevenDeuceOffsuit | components/AnalysisSummary.tsx:37-40 | Offsuit seven-deuce at UTG is folded with high confidence. |
| ActionAdvice.GetActionRecommendation | components/ActionAdvice.tsx:17-64 | No cards give fold/low; check only with cards, a board and 45 ≤ equity < 60; a sizing iff raising. |
| ActionAdvice.CopiesAgree | components/ActionAdvice.tsx:17-64 | Returns the same action, sizing and confidence as the AnalysisSummary copy for every input. |
| RangeMatrix.GetHandFromMatrix | components/RangeMatrix.tsx:12-23 | Pair iff on the diagonal, suited iff above it; two rank characters then the type's suffix. |
| RangeMatrix.MatrixNotation | components/RangeMatrix.tsx:12-23 | Each cell's notation is getHandNotation(RANKS[row], RANKS[col], type). |
| RangeMatrix.MatrixShape | components/RangeMatrix.tsx:16-22 | The diagonal gives the pair of RANKS[row]; above it RANKS[row] comes first, below it RANKS[col]; off the diagonal the first rank is the higher. |
| RangeMatrix.MatrixInjective | components/RangeMatrix.tsx:12-23 | Two cells never share a notation, so the grid shows 169 distinct hands. |
| RangeMatrix.MatrixCovers | components/RangeMatrix.tsx:12-23 | Every canonical notation has a cell. |
| RangeMatrix.MirrorCells | components/RangeMatrix.tsx:18-22 | Mirror cells share both ranks in order, one suited and one offsuit. |
| RangeMatrix.GetCellColor | components/RangeMatrix.tsx:25-49 | Gray iff raise + call is 0; pure green iff raising 100+; a partial green iff 0 < raise < 100 with call 0. |
| RangeMatrix.CellColorRegions | components/RangeMatrix.tsx:25-49 | With non-negative frequencies each colour is one region of (raise, call); yellow iff 0 < call ≤ raise < 100, orange iff 0 < raise < call < 100. |
| RangeMatrix.CellColorInRange | components/RangeMatrix.tsx:25-32 | A cell is coloured iff isHandInRange holds for its hand. |
| RangeMatrix.RaiseOrFoldColors | components/RangeMatrix.tsx:35-40 | For UTG and MP entries: raise 100 is green-500, 50 or 75 green-400, 25 green-300. |
| CardPicker.HandleCardClick | components/CardPicker.tsx:25-37 | Deselect iff the card is selected; select iff it is neither selected nor disabled and fewer than maxCards are selected; otherwise nothing. |
| CardPicker.SelectStaysWithinCapacity | components/CardPicker.tsx:27-35 | A select never takes the selection past maxCards. |
| Page.SelectCard | app/page.tsx:24-42 | A hand card leaves the hand only; else a board card leaves the board only; else the card is appended to the hand iff mode is hand and it has < 2 cards, to the board iff mode is board and it has < 5, and otherwise nothing changes. |
| Page.ValidSelection | app/page.tsx:17-42 | The invariant of the page's card state (at most 2 hand and 5 board cards, no repeats, no card in both): SelectPreservesValid and the Home methods keep it. |
| Page.CurrentSelected | app/page.tsx:49 | currentSelected: the hand in hand mode, the board otherwise; used by PickerTouchesCurrentList. |
| Page.MaxCards | app/page.tsx:50 | maxCards: 2 in hand mode, 5 otherwise; used by PickerTouchesCurrentList. |
| Page.UsedCards | app/page.tsx:48 | usedCards: the hand then the board; used by PickerTouchesCurrentList. |
| Page.SelectPreservesValid | app/page.tsx:24-42 | ≤ 2 hand cards, ≤ 5 board cards, no duplicates and no card in both lists are preserved. |
| Page.SelectTwiceRestores | app/page.tsx:24-42 | Selecting a card the previous select just added removes it and restores the prior state. |
| Page.PickerTouchesCurrentList | app/page.tsx:24-50 | Through the picker, a deselect removes the card from the current list and a select appends it there; a card of the other list cannot be clicked. |
| Page.Home.constructor | app/page.tsx:18-20 | Starts with no cards, filling the hand. |
| Page.Home.HandleCardSelect | app/page.tsx:24-42 | The new state is SelectCard of the old one, and validity is kept. |
| Page.Home.SetSelectionMode | app/page.tsx:100-110 | Only the mode changes. |
| Page.Home.ClearHoleCards | app/page.tsx:54 | Empties the hand only. |
| Page.Home.ClearBoard | app/page.tsx:55 | Empties the board only. |
| Page.Home.ClearAll | app/page.tsx:56-60 | Empties both lists and resets the mode to hand. |
| Page.Home.CurrentHoleCards | app/page.tsx:44-46 | Present iff the hand has exactly two cards, and then they are those cards in order. |

## Left out

- Randomness: `Math.random` in `shuffleDeck` and in the villain pick is replaced by the sequence of values it would return (each in [0, 1)). Nothing about their distribution, and no statistical claim such as "AA beats a range 80% of the time", is modelled.
- Floating point: rates are exact rationals; the rounding `Math.round(x * 10) / 10` of the equity result is not modelled, nor is the float division in getRangePercentage.
- Equity.CalculateEquityVsRange: requires at least one iteration; with 0 iterations the source divides 0 by 0 and returns NaN, which has no counterpart here.
- estimateEV (lib/equity.ts:118-143): float-only arithmetic around a hard-coded fold equity; not modelled.
- The CO, BTN, SB and BB tables are not part of this model; `Ranges.RangeBook` takes them as a parameter, so every result about them holds for any tables.
- Keys that name Object.prototype properties (such as "constructor") as hand strings are not modelled; a lookup sees only the table's own entries.
- Cards.CombosOf: for a notation whose first two characters are not ranks the source builds combos whose rank is that non-rank character (the `as Rank` casts at lib/cards.ts:92, 103-104 and 113-114 check nothing), or undefined for the second rank of a one-character "s" or "o"; the model returns no combos.
- Equity.KickerOrder: the `|| 0` fallback in compareKickers never fires on kickers of the evaluator, whose entries are always ranks; it is not modelled.
- Ranges.MpPlaysUtgHands: states that MP lists every UTG hand with at least UTG's raise; it does not state the rest of the MP entry.
- Descriptions and reasoning strings (handStrength descriptions, recommendation reasoning) are not modelled; categories, kickers, actions, sizings and confidences are.
- React timing and rendering: the debouncing effects, the JSX and the Tailwind class strings beyond the colour cases.
- Page: the hero position selector and the range sheet toggle are not modelled; the villain is always BB in the source, while the equity model takes any position.
- Several inline loops of the source are methods of their own here (Equity.RunTrial, Equity.RunTrials, Equity.PushUnblocked, Equity.VisitKey, Equity.CollectVillainCombos, Texture.LongestRun); each is called exactly where its loop stood.
