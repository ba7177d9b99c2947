# Coffee-break spell-slot calculator, modelled in Dafny

The calculator answers one question for a Warlock/Sorcerer multiclass character taking a rest
of `sleepHours` hours. It asks which combinations of universal spell slots (levels 1 to 5) the
character can end the rest with, while keeping at least `minimumSorceryPoints` sorcery points
and `minimumWarlockSlots` Warlock pact slots.

During each hour the character may do the following, in any order and as often as the guards
allow:
- turn a pact slot into sorcery points (clamped to the pool size);
- buy a universal slot of any level with sorcery points, at the prices 2, 3, 5, 6 and 7;
- drink the Blood Well Vial once (up to 5 points);
- use the Pact Keeper Rod once (one slot back).

The hour then ends and the pact slots come back. At the end of the rest the slots come back
once more. Every number of them down to the slot floor is tried as a trade for points, and a
greedy converter spends the points highest level first without going below the point floor.
Every outcome that meets both floors is collected in a set. Results are equal when their five
counts and two remaining resources are equal, whatever their action logs.

The results are then post-processed in two ways:
- sorted by a list of criteria (per-level counts, most first, or the total, fewest first), with
  the shorter action log first on a tie;
- filtered down to the "optimal" ones, dropping every result that another result dominates
  level by level, or that is "similar" to a result that is higher in the top-down comparison.

The Dafny modules follow the C# files:

| module | file | C# source |
|---|---|---|
| `Wrappers` | wrappers.dfy | `Option`, used for the nullable fields |
| `Constants` | constants.dfy | `Constants.cs`: the cost table and the item gains |
| `Character` | character.dfy | `Character.cs`: the level-bracket lookups |
| `CoffeeResults` | results.dfy | `CoffeeBreakResults.cs`: the result record, `Equals`, `GetHashCode`, `Clone` |
| `CoffeeState` | state.dfy | `CoffeeBreakState.cs`: the search state and `CloneState` |
| `ResultSet` | resultset.dfy | the `HashSet` of results, as a sequence without two equal values |
| `Transitions` | transitions.dfy | the four guarded branches and the hour advance of `SimulateActions` |
| `Greedy` | greedy.dfy | `ConvertSorceryPointsToSpellSlots` |
| `Calculator` | calculator.dfy | `CalculateSpellSlots`, `CanGenerateAtLeastOneSlot`, `SearchCombinations`, `SimulateActions`, `PerformEndOfRestBonusActions` |
| `SearchOutcomes` | outcomes.dfy | what the search reports, given as plain sets and as timelines |
| `PreCheck` | precheck.dfy | what the feasibility estimate bounds, and an input it rejects wrongly |
| `SourceExample` | example.dfy | the valid input of the repository's test, on which the entry point reports results |
| `CorrectedEstimate` | estimate.dfy | the estimate with the starting slots counted, and the entry point using it |
| `Sorter` | sorter.dfy | `CoffeeBreakResultsComparer.Compare` and `SortResults` |
| `Filter` | filter.dfy | `FilterOptimalResults` with `IsBetterOrEqualInAllLevels`, `AreSimilar` and `ExtendedComparison` |

Some C# constructs are modelled differently:
- Every clone-then-mutate step is a pure function on an immutable `RestState`.
- The shared `HashSet` is a sequence of results threaded through the recursion. Its `Add`
  appends a result only when no stored result has the same value, as `HashSet.Add` does.
- The recursion of `SimulateActions` is a group of mutually recursive functions.
  - `Simulate` is the cut-off followed by the branches.
  - `Explore` is one guarded branch.
  - `ConvertTiers` is the `for` loop over the levels.
  - They terminate on the order (hours left, rod unused, vial unused, slots, points).
- Nothing is executed here. Every statement below is a contract that Dafny proves for all inputs.

## Model

| member | source | states |
|---|---|---|
| Constants.GetSpellSlotCost | DnD.Coffee.Core/Constants.cs:5-17 | a level outside 1..5 is excluded, where the source throws; the cost is at least 2, 2 at level 1, and more than the level |
| Constants.CostTable | DnD.Coffee.Core/Constants.cs:5-16 | the five levels cost 2, 3, 5, 6 and 7 points |
| Constants.CostStrictlyIncreasing | DnD.Coffee.Core/Constants.cs:5 | a higher level always costs strictly more, so level 1 is the cheapest |
| Character.GetWarlockSlotNumberTotal | DnD.Coffee.Core/Character.cs:8-14 | the number of pact slots is always in 1..4, and is 1 for Warlock level 1 or less |
| Character.SlotNumberCountsThresholds | DnD.Coffee.Core/Character.cs:8-14 | the number of pact slots is one plus the number of the thresholds 2, 11 and 17 that the level reaches |
| Character.SlotNumberMonotone | DnD.Coffee.Core/Character.cs:8-14 | more Warlock levels never mean fewer pact slots |
| Character.GetWarlockSlotLevel | DnD.Coffee.Core/Character.cs:16-26 | the pact slot level is always in 1..8, and is 8 both for every level of 0 or less and for every level of 18 or more |
| Character.SlotLevelMatchesFormula | DnD.Coffee.Core/Character.cs:16-26 | for levels 1..17 the slot level follows a formula: one slot level per two class levels up to 8, then one per three |
| Character.SlotLevelMonotone | DnD.Coffee.Core/Character.cs:16-26 | from level 1 upward the slot level never decreases |
| Character.GetSorceryPointsTotal | DnD.Coffee.Core/Character.cs:28-32 | the point pool is never negative; it is the Sorcerer level or 0, and positive exactly from Sorcerer level 2 |
| CoffeeResults.SameCountsIsSameLevels | DnD.Coffee.Core/CoffeeBreakResultsSorter.cs:168-176 | two results agree on their five counts exactly when their count vectors are equal, and exactly when the per-level lookups agree on levels 1..5 |
| CoffeeResults.TotalIsSumOfLevels | DnD.Coffee.Core/CoffeeBreakResults.cs:11 | the total is the sum of the count vector |
| CoffeeResults.AddSpell | DnD.Coffee.Core/Calculator.cs:221-238 | adding one slot of a level raises that level's count by one and leaves every other count and field unchanged; the total rises by 1 and the points paid rise by that level's cost |
| CoffeeResults.SameValueIsKeyEquality | DnD.Coffee.Core/CoffeeBreakResults.cs:53-64 | two records are `Equals` exactly when they agree once their action logs are erased; the log never matters |
| CoffeeResults.SameValueIsEquivalence | DnD.Coffee.Core/CoffeeBreakResults.cs:53-66 | `Equals` is reflexive, symmetric and transitive |
| CoffeeResults.EqualsOnlyResults | DnD.Coffee.Core/CoffeeBreakResults.cs:53-66 | `Equals` holds exactly when the object is a result record whose value is the same; it is false for any other kind of object |
| CoffeeResults.HashRespectsEquals | DnD.Coffee.Core/CoffeeBreakResults.cs:50-51 | results that are `Equals` have the same hash code, whatever their logs |
| CoffeeResults.CopyActions | DnD.Coffee.Core/CoffeeBreakResults.cs:31-38 | the copied log has the same length as the original, and each entry is a field-wise copy of the entry at the same position |
| CoffeeResults.CloneIsFaithful | DnD.Coffee.Core/CoffeeBreakResults.cs:20-40 | a clone is `Equals` to its original and carries the same log entries in the same order |
| CoffeeState.CloneState | DnD.Coffee.Core/CoffeeBreakState.cs:13-32 | the clone keeps the hour, both pools, both flags, the five counts and the log; its remaining-resource fields are 0 and its result log is missing |
| CoffeeState.CloneStateFixesCleanStates | DnD.Coffee.Core/CoffeeBreakState.cs:13-32 | cloning returns the same state exactly when the state carries nothing beyond the five counts; a clone always carries nothing more, so cloning twice is cloning once |
| ResultSet.KeysOfAppend | DnD.Coffee.Core/Calculator.cs:38 | appending a result adds exactly its value to the set of stored values |
| ResultSet.Add | DnD.Coffee.Core/Calculator.cs:189 | the stored values gain exactly the new value; the old sequence is a prefix of the new one; it grows by one exactly when the value is new, and then ends with the result; no value is ever stored twice |
| ResultSet.AddIdempotent | DnD.Coffee.Core/Calculator.cs:189-197 | adding a second result of the same value changes nothing |
| ResultSet.DistinctCount | DnD.Coffee.Core/Calculator.cs:38 | a collection without repeated values has as many values as entries |
| Transitions.Apply | DnD.Coffee.Core/Calculator.cs:289-453 | only the hour advance moves the clock, by one; an item's flag is raised by its own move and never lowered; both pools stay within their totals, and within 0 when the slot level is non-negative; every move but the hour advance adds exactly one log entry; the counts carry nothing beyond the five levels |
| Transitions.ApplyEffect | DnD.Coffee.Core/Calculator.cs:289-442 | what each branch does to the pools and counts: a slot becomes clamped points; a slot purchase costs its price and adds one slot; the vial adds clamped points; the rod adds a clamped slot; the hour advance restores the slots |
| Transitions.MoveDecreasesMeasure | DnD.Coffee.Core/Calculator.cs:289-453 | every branch strictly decreases (hours left, rod unused, vial unused, slots, points) in the lexicographic order, so the search terminates |
| Transitions.ItemsUsedAtMostOnce | DnD.Coffee.Core/Calculator.cs:373-403 | along any timeline the rod and the vial are each used at most once, and never when their flag is already set; each flag ends set exactly when it started set or the item was used |
| Transitions.RunHour | DnD.Coffee.Core/Calculator.cs:429-430 | the clock moves only on hour advances, by exactly one each |
| Transitions.RunStaysBounded | DnD.Coffee.Core/Calculator.cs:289-300 | for a non-negative slot level, starting with both pools within 0 and their totals, every prefix of a timeline is itself a timeline and ends within those bounds |
| Greedy.FirstAffordable | DnD.Coffee.Core/Calculator.cs:213-216 | the level chosen by the inner `for` can be paid without going below the floor, and no higher level can; 0 means none can |
| Greedy.ConvertSorceryPointsToSpellSlots | DnD.Coffee.Core/Calculator.cs:203-254 | the final points plus the price of the slots made equal the initial points; a pool on or above the floor stays there; on exit not even a level-1 slot is affordable; no count falls; one log entry per slot made; slots, hour and flags are untouched |
| Greedy.GreedyStep | DnD.Coffee.Core/Calculator.cs:207-253 | each step of the converter takes the highest affordable level, and the converter stops exactly when none is affordable |
| Greedy.ConverterClosedForm | DnD.Coffee.Core/Calculator.cs:203-254 | the converter matches a closed form on the excess `e` of points over the floor: `e / 7` level-5 slots, then one level-4, level-3, level-2 or level-1 slot for a remainder of 6, 5, 3-4 or 2, leaving 1 point above the floor for a remainder of 4 or 1 and none otherwise; below the floor nothing changes |
| Greedy.ConvertLoop | DnD.Coffee.Core/Calculator.cs:203-254 | the `while` loop with its inner `for` and `break` computes the same state as the recursive converter |
| Calculator.CanGenerateAtLeastOneSlot | DnD.Coffee.Core/Calculator.cs:65-84 | the estimate as written; with nothing negative in the character, it passes whenever the points already held cover the floor plus a level-1 slot |
| Calculator.EstimateMonotone | DnD.Coffee.Core/Calculator.cs:77-83 | with non-negative totals and slot level, more hours or an extra item never turn a passing estimate into a failing one |
| Calculator.Report | DnD.Coffee.Core/Calculator.cs:185-188 | the reported result has the state's five counts, its remaining points and slots, and its log |
| Calculator.Emit | DnD.Coffee.Core/Calculator.cs:181-198 | the two emit blocks together add exactly the state's value when both floors are met, with or without a slot made, and nothing otherwise |
| Calculator.EmitAddsWhenFloorsMet | DnD.Coffee.Core/Calculator.cs:181-198 | the two emit blocks act together as one set insert of the state's value when both floors are met, and do nothing otherwise; a new value is appended at the end |
| Calculator.Trade | DnD.Coffee.Core/Calculator.cs:154-175 | trading `spend` slots removes exactly those slots; the points rise by `spend` times the slot level, clamped to the pool size; the log records the points actually gained |
| Calculator.SpendAndConvert | DnD.Coffee.Core/Calculator.cs:153-178 | spending `spend` slots of the restored state leaves exactly that many fewer slots and at most the pool size in points; spending none never adds points; the hour is kept and the log only grows |
| Calculator.Restored | DnD.Coffee.Core/Calculator.cs:136-145 | at the end of the rest the slots are raised to the total when below it; the points, the hour and the counts are kept, and the log only grows |
| Calculator.EndOfRestBelowSlotFloor | DnD.Coffee.Core/Calculator.cs:148-151 | with fewer restored slots than the slot floor, no spend choice runs and nothing is added |
| Calculator.SpendLoop | DnD.Coffee.Core/Calculator.cs:148-199 | the loop over spend choices only appends results, never stores a value twice, and every result it adds meets both floors and, from a state within the totals, stays within them |
| Calculator.EndOfRest | DnD.Coffee.Core/Calculator.cs:126-200 | the resolver only adds results, never stores a value twice, and every result it adds meets both floors; from a state within the totals, the results stay within them |
| Calculator.Simulate | DnD.Coffee.Core/Calculator.cs:256-454 | the search only adds results, never stores a value twice, and every result it adds meets both floors; from a state within the totals, the results stay within them |
| Calculator.Explore | DnD.Coffee.Core/Calculator.cs:289-453 | one guarded branch of the search only adds results, never stores a value twice, and every result it adds meets both floors; from a state within the totals, the results stay within them |
| Calculator.ConvertTiers | DnD.Coffee.Core/Calculator.cs:323-370 | the `for` over slot levels, each a guarded purchase branch, has the same guarantees: it only adds results, never stores a value twice, meets both floors, and from a state within the totals stays within them |
| Calculator.SearchCombinations | DnD.Coffee.Core/Calculator.cs:87-123 | the dispatch between the end of the rest and the hour's actions only adds results, never stores a value twice, and every result it adds meets both floors; from a state within the totals, the results stay within them |
| Calculator.CalculateSpellSlots | DnD.Coffee.Core/Calculator.cs:8-63 | a rest under one hour, or a failed estimate, gives no results; no value is reported twice; every result meets both floors; with both pools starting within their totals, every result stays within them |
| SearchOutcomes.CollectedSplit | DnD.Coffee.Core/Calculator.cs:151 | the values of the choices `0..hi` are the value of choice `hi`, if any, together with those of `0..hi-1` |
| SearchOutcomes.SpendChosen | DnD.Coffee.Core/Calculator.cs:151-198 | every spend choice in range that meets the floors has its value reported |
| SearchOutcomes.SpendChoice | DnD.Coffee.Core/Calculator.cs:151-198 | every reported value comes from a spend choice in range that meets the floors |
| SearchOutcomes.SpendLoopKeys | DnD.Coffee.Core/Calculator.cs:151-199 | the spend loop stores exactly the values of its choices |
| SearchOutcomes.EndOfRestKeys | DnD.Coffee.Core/Calculator.cs:126-200 | the resolver stores exactly the values of the spend choices from the restored state |
| SearchOutcomes.BranchKeys | DnD.Coffee.Core/Calculator.cs:289-453 | one guarded branch stores exactly what the search from the moved state reports, and nothing when its guard fails |
| SearchOutcomes.TiersKeys | DnD.Coffee.Core/Calculator.cs:323-370 | the loop over slot levels stores exactly the union of what each level's purchase branch reports |
| SearchOutcomes.SimulateKeys | DnD.Coffee.Core/Calculator.cs:256-454 | the search stores exactly the union of what its branches report, given as a set independent of branch order and of which log is kept for a value |
| SearchOutcomes.SearchRunIsRun | DnD.Coffee.Core/Calculator.cs:289-453 | a timeline explored by the search is a valid timeline of the moves, and ends in the same state |
| SearchOutcomes.Extend | DnD.Coffee.Core/Calculator.cs:271-289 | an enabled move from a state the search explores, followed by an explored timeline, is an explored timeline |
| SearchOutcomes.Prepend | DnD.Coffee.Core/Calculator.cs:271-289 | an enabled move from a state the search does not cut off, followed by a timeline explored from the moved state, is a timeline explored from the first state, and ends in the same state |
| SearchOutcomes.OutcomeHasTimeline | DnD.Coffee.Core/Calculator.cs:256-454 | every reported value is the end-of-rest outcome of a timeline the search explores |
| SearchOutcomes.TimelineHasOutcome | DnD.Coffee.Core/Calculator.cs:256-454 | the end-of-rest outcome of every explored timeline is reported |
| SearchOutcomes.OutcomesAreTimelineOutcomes | DnD.Coffee.Core/Calculator.cs:256-454 | a value is reported if and only if it ends an explored timeline |
| SearchOutcomes.CalculateSpellSlotsReportsTimelines | DnD.Coffee.Core/Calculator.cs:8-63 | once the estimate passes, the entry point reports, one result per value, exactly the end-of-rest outcomes of the timelines explored from the initial state |
| PreCheck.MoveKeepsBudget | DnD.Coffee.Core/Calculator.cs:289-453 | no move increases the points held, plus the points paid for slots, plus what the remaining hours and items could still add |
| PreCheck.TimelineKeepsBudget | DnD.Coffee.Core/Calculator.cs:289-453 | along any explored timeline, states stay within bounds and that budget never grows |
| PreCheck.InitialBudget | DnD.Coffee.Core/Calculator.cs:78-80 | at the start, the budget is at most the current points plus the estimate |
| PreCheck.EstimateBoundsTimelines | DnD.Coffee.Core/Calculator.cs:77-80 | every explored timeline ends holding, plus what it paid for slots, at most what the start held plus the estimate |
| PreCheck.PrecheckRejectsWitness | DnD.Coffee.Core/Calculator.cs:20-35 | one held level-2 slot, 10 points at most, none held, no items, one hour and a point floor of 2: the estimate fails and the entry point reports nothing |
| PreCheck.WitnessTimeline | DnD.Coffee.Core/Calculator.cs:289-320 | from that input, converting the held slot and then ending the hour is a timeline the search explores; it ends the rest with one slot and 2 points, no slot made yet |
| PreCheck.EstimateMissesStartingSlots | DnD.Coffee.Core/Calculator.cs:65-84 | for that input, a timeline the search explores still ends with one level-1 slot made and 2 points left |
| SourceExample.ExampleTimeline | DnD.Coffee.Core/Calculator.cs:256-454 | on the repository test's input, drinking the vial and ending four hours is a timeline the search explores; it completes with 5 points and both slots |
| SourceExample.ExampleOutcome | DnD.Coffee.Core/Calculator.cs:126-200 | from 5 points and both slots, the end of the rest reports a result keeping 5 points and 2 slots |
| SourceExample.ExampleReachable | DnD.Coffee.Core/Calculator.cs:256-454 | on that input, a result keeping 5 points and 2 slots is the outcome of an explored timeline |
| SourceExample.ExampleReportsResults | DnD.Coffee.Tests/CoffeeBreakTests.cs:39-75 | the entry point as written reports a non-empty list for the test's input (2, 0, 2, 5, 0, true, true, 4, 5, 2), and it contains a result with 5 points and 2 slots left |
| CorrectedEstimate.CalculateSpellSlotsCorrected | DnD.Coffee.Core/Calculator.cs:8-63 | the entry point with the corrected estimate: a rest under one hour gives nothing; a result means the corrected estimate passed; no value is reported twice; both floors are met |
| CorrectedEstimate.MoveKeepsNonneg | DnD.Coffee.Core/Calculator.cs:289-453 | no move makes a slot count negative |
| CorrectedEstimate.EndOutcomeWithinTrade | DnD.Coffee.Core/Calculator.cs:136-198 | an end-of-rest outcome keeps the point floor, and holds plus has paid at most what the state held plus a full set of traded slots |
| CorrectedEstimate.InitialBudgetCorrected | DnD.Coffee.Core/Calculator.cs:39-48 | the budget at the start plus the final restore is exactly the current points plus the corrected estimate |
| CorrectedEstimate.OutcomesWithinCorrectedEstimate | DnD.Coffee.Core/Calculator.cs:65-84 | every reachable outcome holds, plus has paid, at most the starting points plus the corrected estimate |
| CorrectedEstimate.CorrectedEstimateIsSound | DnD.Coffee.Core/Calculator.cs:65-84 | from a sane start, whenever a timeline reaches an outcome with a slot made, the corrected estimate passes |
| CorrectedEstimate.RejectedMeansUnreachable | DnD.Coffee.Core/Calculator.cs:65-84 | when the corrected estimate fails, no outcome with a slot made is reachable |
| CorrectedEstimate.RejectedReportsNothing | DnD.Coffee.Core/Calculator.cs:20-35 | the corrected entry point reports nothing only where nothing with a slot made is reachable |
| CorrectedEstimate.AcceptedReportsReachable | DnD.Coffee.Core/Calculator.cs:8-63 | once the corrected estimate passes, the corrected entry point reports exactly the reachable values, one result each |
| CorrectedEstimate.CalculateSpellSlotsCorrectedIsComplete | DnD.Coffee.Core/Calculator.cs:8-63 | for every input with pools within their totals, a value with a slot made is reported if and only if it is reachable |
| CorrectedEstimate.CorrectedReportsWhatAsWrittenRejects | DnD.Coffee.Core/Calculator.cs:65-84 | on the input of the finding below, the as-written entry point reports nothing and the corrected one reports something |
| Sorter.CompareTo | DnD.Coffee.Core/CoffeeBreakResultsSorter.cs:28-43 | `CompareTo` is 0 exactly on equal integers, negative exactly when the first is smaller, and within -1..1 |
| Sorter.CompareResults | DnD.Coffee.Core/CoffeeBreakResultsSorter.cs:17-56 | the comparer on two present results always answers -1, 0 or 1; which of them is given by `Sorter.CompareIsLexOnKeys` |
| Sorter.CriterionIsKeyOrder | DnD.Coffee.Core/CoffeeBreakResultsSorter.cs:25-44 | each criterion compares results by the natural order of one key: minus the level count, or the total |
| Sorter.CompareIsLexOnKeys | DnD.Coffee.Core/CoffeeBreakResultsSorter.cs:22-55 | the comparer is the lexicographic order of the key vectors (the criteria's keys, then the log length) |
| Sorter.LexZeroIffEqual | DnD.Coffee.Core/CoffeeBreakResultsSorter.cs:22-55 | the lexicographic comparison is 0 exactly on equal vectors |
| Sorter.LexAntisymmetric | DnD.Coffee.Core/CoffeeBreakResultsSorter.cs:22-55 | swapping the arguments of the lexicographic comparison negates it |
| Sorter.LexTransitive | DnD.Coffee.Core/CoffeeBreakResultsSorter.cs:22-55 | the lexicographic comparison is transitive, and strictly so when either step is strict |
| Sorter.CompareIsTotalPreorder | DnD.Coffee.Core/CoffeeBreakResultsSorter.cs:22-55 | `Compare(x, x)` is 0; swapping the arguments negates the result; 0 exactly when the key vectors agree; the order is transitive, strictly so when either step is strict |
| Sorter.CompareTieBreak | DnD.Coffee.Core/CoffeeBreakResultsSorter.cs:19-20 | with no criterion left to decide, the shorter log comes first, a missing log counting as empty; a missing result compares equal to anything |
| Sorter.CriterionDirection | DnD.Coffee.Core/CoffeeBreakResultsSorter.cs:27-50 | a level criterion puts more slots of that level first; the total criterion puts fewer slots first; only a tie passes to the next criterion |
| Sorter.Insert | DnD.Coffee.Core/CoffeeBreakResultsSorter.cs:66 | inserting adds exactly one occurrence of the element |
| Sorter.InsertSorted | DnD.Coffee.Core/CoffeeBreakResultsSorter.cs:66 | inserting into a sorted sequence keeps it sorted |
| Sorter.SortResults | DnD.Coffee.Core/CoffeeBreakResultsSorter.cs:61-67 | the output is a permutation of the input |
| Sorter.SortResultsSorted | DnD.Coffee.Core/CoffeeBreakResultsSorter.cs:61-67 | the output is in non-decreasing comparer order and is a permutation of the input |
| Sorter.InsertTies | DnD.Coffee.Core/CoffeeBreakResultsSorter.cs:66 | an inserted element goes before the elements it ties with |
| Sorter.SortResultsStable | DnD.Coffee.Core/CoffeeBreakResultsSorter.cs:61-67 | the sort is stable: results that compare equal keep their input order |
| Filter.DominatesIsStrictOrder | DnD.Coffee.Core/CoffeeBreakResultsSorter.cs:106-122 | domination is irreflexive, asymmetric and transitive |
| Filter.IsBetterOrEqualInAllLevels | DnD.Coffee.Core/CoffeeBreakResultsSorter.cs:106-122 | the level scan with its early exit returns true exactly when `x` has at least `y`'s count at every level and more at one |
| Filter.AreSimilar | DnD.Coffee.Core/CoffeeBreakResultsSorter.cs:124-145 | the scan returns true exactly when the totals agree and the counts agree at the highest level either result uses |
| Filter.SimilarIsSymmetric | DnD.Coffee.Core/CoffeeBreakResultsSorter.cs:124-145 | similarity is reflexive and symmetric |
| Filter.ExtendedComparisonIsLex | DnD.Coffee.Core/CoffeeBreakResultsSorter.cs:147-166 | the extended comparison is the lexicographic order of the counts from level 5 down to level 1 |
| Filter.ExtendedComparisonIsTotalPreorder | DnD.Coffee.Core/CoffeeBreakResultsSorter.cs:147-166 | swapping the arguments negates the comparison; it is 0 exactly when all five counts agree; two steps that never go down, one of them strictly up, go strictly up |
| Filter.DominatesIsExtendedGreater | DnD.Coffee.Core/CoffeeBreakResultsSorter.cs:86-96 | a dominating result is strictly greater in the extended comparison |
| Filter.BeatsIsExtendedGreater | DnD.Coffee.Core/CoffeeBreakResultsSorter.cs:86-96 | either reason for dropping a result names a strictly greater one, so no result drops itself |
| Filter.FilterOptimalResults | DnD.Coffee.Core/CoffeeBreakResultsSorter.cs:69-104 | the nested scan with `continue` and `break` returns, in list order, the entries that pass the keep test of the inner loop |
| Filter.KeptIsUnbeaten | DnD.Coffee.Core/CoffeeBreakResultsSorter.cs:79-97 | an entry is kept exactly when no entry of the list beats it |
| Filter.SurvivorsMembers | DnD.Coffee.Core/CoffeeBreakResultsSorter.cs:74-101 | what survives among the first `n` entries is exactly what they contain that is unbeaten in the whole list |
| Filter.FilterKeepsExactlyUnbeaten | DnD.Coffee.Core/CoffeeBreakResultsSorter.cs:69-104 | the filter keeps exactly the unbeaten entries and never grows the list |
| Filter.AllKeptSurvive | DnD.Coffee.Core/CoffeeBreakResultsSorter.cs:74-101 | when no entry is beaten, the filter returns the list unchanged |
| Filter.SurvivorsIsSubsequence | DnD.Coffee.Core/CoffeeBreakResultsSorter.cs:74-101 | the output is a subsequence of the input, in the input's order |
| Filter.SurvivorsUndominated | DnD.Coffee.Core/CoffeeBreakResultsSorter.cs:79-90 | no input entry dominates a kept entry, so no two kept entries dominate each other |
| Filter.ExtendedMaximum | DnD.Coffee.Core/CoffeeBreakResultsSorter.cs:147-166 | every non-empty list has an entry that no entry exceeds in the extended comparison |
| Filter.FilterKeepsOne | DnD.Coffee.Core/CoffeeBreakResultsSorter.cs:69-104 | a non-empty input gives a non-empty output |
| Filter.FilterIdempotent | DnD.Coffee.Core/CoffeeBreakResultsSorter.cs:69-104 | filtering the filtered list changes nothing |

## Left out

- The Telegram bot, the console driver and `ToString`: user interface, I/O and string rendering only. The action log is carried as data. It never affects the search or equality; its length is the sorter's final tie-break.
- `CoffeeSpellsComparer`, the comparer given to the `HashSet` at Calculator.cs:38, is not part of this model. The set is taken to compare results by the seven fields of `CoffeeBreakResults.Equals`.
- CoffeeResults.GetHashCode: the value of `HashCode.Combine` is not modelled. A polynomial over the same seven fields stands in for it, and only "equal values hash alike" is stated.
- 32-bit wrap-around of `int`: not modelled, because the game's values are small. All arithmetic is on unbounded integers.
- `Constants.Level1Cost` is used at Calculator.cs:83 but Constants.cs does not declare it; it is taken to be the level-1 price, 2.
- The unknown-criterion exception at CoffeeBreakResultsSorter.cs:45-46 is not modelled. `Sorter.SortingCriterion` has only the six named values. A C# cast such as `(SortingCriteria)6` would reach the default arm and throw `ArgumentException` once every earlier criterion ties. The only caller in the repository, DnD.Coffee.Telegram/Program.cs:325-331, passes six named values.
- The null arguments of `Compare` are modelled as `Option` values. `SortResults` and `FilterOptimalResults` take sequences of present results.
- `OrderBy` is modelled as a stable insertion sort. Only its observable contract is claimed: sorted, a permutation, and stable.
- The `Hash` property and object identity: with value semantics, mutating a clone can never change its original, so no separate statement is made.
- Calculator.CanGenerateAtLeastOneSlot: the estimate is kept as written, both at the entry point and inside the search, where the *used* flags are passed as the items' availability and the floor is 0 (Calculator.cs:271). The finding below corrects only the entry point's test, so reachability in `CorrectedEstimate` is still relative to the as-written cut-off inside the search.
- Timing, memoization and concurrency: the source has none of these in its core.

## Findings

| source | as written | input that shows it | evidently intended | confidence | as-written member | corrected member |
|---|---|---|---|---|---|---|
| DnD.Coffee.Core/Calculator.cs:65-84 | The estimate of the "maximum number of Sorcery Points that can be generated" counts a full set of pact slots per hour plus the items. It does not count the slots held at the start, and does not even take their number as a parameter, although the end of the rest restores a full set on top of them. | total 1 pact slot of level 2, 1 held, pool 10, 0 points held, no rod, no vial, 1 hour, point floor 2, slot floor 0. The estimate is 0 + 2 < 2 + 2, so the entry point reports nothing. Yet trading the held slot gives 2 points; the hour restores the slot; trading it again at the end gives 4 points; converting buys one level-1 slot and leaves 2 points. | The estimate also counts `warlockSlotNumberCurrent * warlockSlotLevel`. That corrected estimate is sound: it passes whenever some timeline makes a slot. | medium, not executed | Calculator.CanGenerateAtLeastOneSlot, PreCheck.PrecheckRejectsWitness, PreCheck.EstimateMissesStartingSlots | CorrectedEstimate.CanGenerateAtLeastOneSlotCorrected, CorrectedEstimate.CorrectedEstimateIsSound, CorrectedEstimate.CalculateSpellSlotsCorrectedIsComplete, CorrectedEstimate.CorrectedReportsWhatAsWrittenRejects |
