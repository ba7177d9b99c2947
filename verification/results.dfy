/**
  The outcome record of one rest timeline: universal slots produced per level, the resources
  left over, and the log of actions that led there. The log is carried along for reporting
  only; value equality and hashing ignore it.
 */
module CoffeeResults {
  import opened Wrappers
  import opened Constants

  datatype ActionType =
    | StartRest
    | ConvertWarlockSlotIntoSorceryPoints
    | ConvertSorceryPointsIntoSpellSlot
    | UsePactRod
    | UseBloodVial
    | RestoreWarlockSlots
    | EndOfRestBonusConversion

  /** One entry of the action log; the three optional fields are C#'s `int?`. */
  datatype Action = Action(
    actionType: ActionType,
    hour: int,
    spellSlotLevel: Option<int>,
    sorceryPointsChanged: Option<int>,
    warlockSlotsChanged: Option<int>)

  datatype CoffeeResult = CoffeeResult(
    level1: int,
    level2: int,
    level3: int,
    level4: int,
    level5: int,
    remainingSorceryPoints: int,
    remainingWarlockSlots: int,
    actionsTaken: Option<seq<Action>>)

  /** A freshly constructed record: every counter 0 and no action log. */
  const EmptyResult: CoffeeResult := CoffeeResult(0, 0, 0, 0, 0, 0, 0, None)

  /** The count for a level; any other level reads as 0. */
  function GetSlotsForLevel(r: CoffeeResult, level: int): int {
    match level
    case 1 => r.level1
    case 2 => r.level2
    case 3 => r.level3
    case 4 => r.level4
    case 5 => r.level5
    case _ => 0
  }

  /** The five counts as a vector, level 1 first. */
  function Levels(r: CoffeeResult): (v: seq<int>)
    ensures |v| == 5
    ensures forall k :: 0 <= k < 5 ==> v[k] == GetSlotsForLevel(r, k + 1)
  {
    [r.level1, r.level2, r.level3, r.level4, r.level5]
  }

  /** The five counts of `a` and `b` agree; the remaining resources and the log may differ. */
  predicate SameCounts(a: CoffeeResult, b: CoffeeResult) {
    a.level1 == b.level1 && a.level2 == b.level2 && a.level3 == b.level3
    && a.level4 == b.level4 && a.level5 == b.level5
  }

  /** Agreeing counts are agreeing vectors, level by level. */
  lemma SameCountsIsSameLevels(a: CoffeeResult, b: CoffeeResult)
    ensures SameCounts(a, b) <==> Levels(a) == Levels(b)
    ensures SameCounts(a, b) <==> forall l :: 1 <= l <= 5 ==> GetSlotsForLevel(a, l) == GetSlotsForLevel(b, l)
  {
    if Levels(a) == Levels(b) {
      assert Levels(a)[0] == Levels(b)[0] && Levels(a)[1] == Levels(b)[1] && Levels(a)[2] == Levels(b)[2];
      assert Levels(a)[3] == Levels(b)[3] && Levels(a)[4] == Levels(b)[4];
    }
    if forall l :: 1 <= l <= 5 ==> GetSlotsForLevel(a, l) == GetSlotsForLevel(b, l) {
      assert GetSlotsForLevel(a, 1) == GetSlotsForLevel(b, 1) && GetSlotsForLevel(a, 2) == GetSlotsForLevel(b, 2);
      assert GetSlotsForLevel(a, 3) == GetSlotsForLevel(b, 3) && GetSlotsForLevel(a, 4) == GetSlotsForLevel(b, 4);
      assert GetSlotsForLevel(a, 5) == GetSlotsForLevel(b, 5);
    }
  }

  function TotalSpellSlots(r: CoffeeResult): int {
    r.level1 + r.level2 + r.level3 + r.level4 + r.level5
  }

  /** Sum of a vector, used as an independent description of the total. */
  function Sum(v: seq<int>): int {
    if v == [] then 0 else v[0] + Sum(v[1..])
  }

  lemma TotalIsSumOfLevels(r: CoffeeResult)
    ensures TotalSpellSlots(r) == Sum(Levels(r))
  {
    var v := Levels(r);
    assert Sum(v[4..]) == r.level5 by { assert v[4..][1..] == []; }
    assert Sum(v[3..]) == r.level4 + r.level5 by { assert v[3..][1..] == v[4..]; }
    assert Sum(v[2..]) == r.level3 + r.level4 + r.level5 by { assert v[2..][1..] == v[3..]; }
    assert Sum(v[1..]) == r.level2 + r.level3 + r.level4 + r.level5 by { assert v[1..][1..] == v[2..]; }
  }

  /** Points spent to produce the counts of `r`, at the table's prices. */
  function SpentPoints(r: CoffeeResult): int {
    GetSpellSlotCost(1) * r.level1 + GetSpellSlotCost(2) * r.level2 + GetSpellSlotCost(3) * r.level3
    + GetSpellSlotCost(4) * r.level4 + GetSpellSlotCost(5) * r.level5
  }

  /** The `switch (level)` of the converters: one more slot of `level`, nothing else touched. */
  function AddSpell(r: CoffeeResult, level: int): (r': CoffeeResult)
    requires IsSpellLevel(level)
    ensures forall l :: 1 <= l <= 5 ==> GetSlotsForLevel(r', l) == GetSlotsForLevel(r, l) + (if l == level then 1 else 0)
    ensures TotalSpellSlots(r') == TotalSpellSlots(r) + 1
    ensures SpentPoints(r') == SpentPoints(r) + GetSpellSlotCost(level)
    ensures r'.remainingSorceryPoints == r.remainingSorceryPoints
    ensures r'.remainingWarlockSlots == r.remainingWarlockSlots
    ensures r'.actionsTaken == r.actionsTaken
  {
    r.(level1 := r.level1 + (if level == 1 then 1 else 0),
       level2 := r.level2 + (if level == 2 then 1 else 0),
       level3 := r.level3 + (if level == 3 then 1 else 0),
       level4 := r.level4 + (if level == 4 then 1 else 0),
       level5 := r.level5 + (if level == 5 then 1 else 0))
  }

  /** True when at least one universal slot has been produced. */
  predicate AnySpell(r: CoffeeResult) {
    r.level1 > 0 || r.level2 > 0 || r.level3 > 0 || r.level4 > 0 || r.level5 > 0
  }

  /** `Equals` between two records: the five counts and both remaining resources. */
  predicate SameValue(a: CoffeeResult, b: CoffeeResult) {
    && a.level1 == b.level1
    && a.level2 == b.level2
    && a.level3 == b.level3
    && a.level4 == b.level4
    && a.level5 == b.level5
    && a.remainingSorceryPoints == b.remainingSorceryPoints
    && a.remainingWarlockSlots == b.remainingWarlockSlots
  }

  /** The value key: the record with its action log erased. */
  function Key(r: CoffeeResult): CoffeeResult {
    r.(actionsTaken := None)
  }

  /** `Equals` is exactly equality of keys: an equivalence that ignores the action log. */
  lemma SameValueIsKeyEquality(a: CoffeeResult, b: CoffeeResult)
    ensures SameValue(a, b) <==> Key(a) == Key(b)
    ensures SameValue(a, a.(actionsTaken := b.actionsTaken))
  {
  }

  lemma SameValueIsEquivalence(a: CoffeeResult, b: CoffeeResult, c: CoffeeResult)
    ensures SameValue(a, a)
    ensures SameValue(a, b) ==> SameValue(b, a)
    ensures SameValue(a, b) && SameValue(b, c) ==> SameValue(a, c)
  {
  }

  /** The argument of `Equals(object?)`: a result record, or anything else (including null). */
  datatype Object = ResultObject(result: CoffeeResult) | OtherObject

  predicate Equals(a: CoffeeResult, obj: Object) {
    match obj
    case ResultObject(other) => SameValue(a, other)
    case OtherObject => false
  }

  lemma EqualsOnlyResults(a: CoffeeResult, obj: Object)
    ensures Equals(a, obj) <==> obj.ResultObject? && Key(obj.result) == Key(a)
  {
  }

  /** A stand-in for `HashCode.Combine` over the same seven fields `Equals` compares. */
  function GetHashCode(r: CoffeeResult): int {
    var fields := [r.level1, r.level2, r.level3, r.level4, r.level5,
                   r.remainingSorceryPoints, r.remainingWarlockSlots];
    Combine(fields)
  }

  function Combine(fields: seq<int>): int {
    if fields == [] then 17 else Combine(fields[..|fields| - 1]) * 31 + fields[|fields| - 1]
  }

  /** Equal values hash alike, whatever their action logs. */
  lemma HashRespectsEquals(a: CoffeeResult, b: CoffeeResult)
    requires SameValue(a, b)
    ensures GetHashCode(a) == GetHashCode(b)
  {
  }

  /** Field-wise copy of one log entry. */
  function CopyAction(a: Action): Action {
    Action(a.actionType, a.hour, a.spellSlotLevel, a.sorceryPointsChanged, a.warlockSlotsChanged)
  }

  function CopyActions(xs: seq<Action>): (ys: seq<Action>)
    ensures |ys| == |xs|
    ensures forall i :: 0 <= i < |xs| ==> ys[i] == CopyAction(xs[i])
  {
    if xs == [] then [] else [CopyAction(xs[0])] + CopyActions(xs[1..])
  }

  function Clone(r: CoffeeResult): CoffeeResult {
    CoffeeResult(r.level1, r.level2, r.level3, r.level4, r.level5,
                 r.remainingSorceryPoints, r.remainingWarlockSlots,
                 match r.actionsTaken
                 case None => None
                 case Some(xs) => Some(CopyActions(xs)))
  }

  /** A clone equals its original and carries the same log entries in the same order. */
  lemma CloneIsFaithful(r: CoffeeResult)
    ensures SameValue(Clone(r), r)
    ensures Clone(r) == r
  {
    match r.actionsTaken
    case None =>
    case Some(xs) =>
      assert CopyActions(xs) == xs;
  }
}
