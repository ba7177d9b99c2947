/**
  The end-of-rest converter: turn sorcery points into universal slots, always taking the
  highest level still affordable without going below the floor, until none is.
 */
module Greedy {
  import opened Wrappers
  import opened Constants
  import opened CoffeeResults
  import opened CoffeeState

  /** The inner `for` over levels `level` down to 1: the first affordable one, or 0. */
  function FirstAffordable(points: int, minimum: int, level: int): (l: int)
    requires 0 <= level <= MaxSpellLevel
    ensures 0 <= l <= level
    ensures l > 0 ==> points - GetSpellSlotCost(l) >= minimum
    ensures forall k :: l < k <= level ==> points - GetSpellSlotCost(k) < minimum
    decreases level
  {
    if level == 0 then 0
    else if points - GetSpellSlotCost(level) >= minimum then level
    else FirstAffordable(points, minimum, level - 1)
  }

  /** One conversion, applied to the state in place (no clone), with its log entry. */
  function ConvertOnce(s: RestState, level: int): RestState
    requires IsSpellLevel(level)
  {
    var cost := GetSpellSlotCost(level);
    s.(sorceryPoints := s.sorceryPoints - cost,
       spells := AddSpell(s.spells, level),
       actions := s.actions + [Action(ConvertSorceryPointsIntoSpellSlot, s.hour, Some(level), Some(cost), None)])
  }

  /** Points left after the converter, relative to the floor, cannot pay for even a level-1 slot. */
  predicate Exhausted(points: int, minimum: int) {
    points - Level1Cost < minimum
  }

  function ConvertSorceryPointsToSpellSlots(s: RestState, minimum: int): (t: RestState)
    // conservation: every point that left the pool is paid for by a produced slot
    ensures t.sorceryPoints + SpentPoints(t.spells) == s.sorceryPoints + SpentPoints(s.spells)
    // the floor is respected when the pool started on or above it
    ensures s.sorceryPoints >= minimum ==> t.sorceryPoints >= minimum
    ensures t.sorceryPoints <= s.sorceryPoints
    // on exit no level is affordable any more
    ensures Exhausted(t.sorceryPoints, minimum)
    ensures forall l :: 1 <= l <= 5 ==> GetSlotsForLevel(t.spells, l) >= GetSlotsForLevel(s.spells, l)
    ensures TotalSpellSlots(t.spells) - TotalSpellSlots(s.spells) == |t.actions| - |s.actions|
    ensures t.hour == s.hour && t.warlockSlots == s.warlockSlots
    ensures t.pactKeeperRodUsed == s.pactKeeperRodUsed && t.bloodWellVialUsed == s.bloodWellVialUsed
    ensures t.spells.remainingSorceryPoints == s.spells.remainingSorceryPoints
    ensures t.spells.remainingWarlockSlots == s.spells.remainingWarlockSlots
    ensures t.spells.actionsTaken == s.spells.actionsTaken
    ensures s.actions <= t.actions
    decreases s.sorceryPoints - minimum
  {
    var level := FirstAffordable(s.sorceryPoints, minimum, MaxSpellLevel);
    if level == 0 then s
    else ConvertSorceryPointsToSpellSlots(ConvertOnce(s, level), minimum)
  }

  /** Each step of the converter takes the highest affordable level. */
  lemma GreedyStep(s: RestState, minimum: int)
    ensures var l := FirstAffordable(s.sorceryPoints, minimum, MaxSpellLevel);
      && (l == 0 <==> Exhausted(s.sorceryPoints, minimum))
      && (l == 0 ==> ConvertSorceryPointsToSpellSlots(s, minimum) == s)
      && (l > 0 ==> s.sorceryPoints - GetSpellSlotCost(l) >= minimum
                    && (forall k :: l < k <= MaxSpellLevel ==> s.sorceryPoints - GetSpellSlotCost(k) < minimum)
                    && ConvertSorceryPointsToSpellSlots(s, minimum)
                       == ConvertSorceryPointsToSpellSlots(ConvertOnce(s, l), minimum))
  {
  }

  /**
    Reference: how many slots of `level` the converter produces from an excess `e` over the
    floor. Highest level first means as many level-5 slots as the excess allows; the remainder
    (0..6 points) then pays for at most one smaller slot: 6 for level 4, 5 for level 3, 3 or 4
    for level 2, 2 for level 1.
   */
  function GreedyCount(e: int, level: int): int
    requires e >= 0
  {
    var r := e % 7;
    if level == 5 then e / 7
    else if level == 4 then (if r == 6 then 1 else 0)
    else if level == 3 then (if r == 5 then 1 else 0)
    else if level == 2 then (if r == 3 || r == 4 then 1 else 0)
    else if level == 1 then (if r == 2 then 1 else 0)
    else 0
  }

  /** Reference: what is left over the floor after the conversion, always 0 or 1. */
  function GreedyLeftover(e: int): int
    requires e >= 0
  {
    var r := e % 7;
    if r == 4 || r == 1 then 1 else 0
  }

  /** The closed form's statement about one state: counts added and points left over the floor. */
  predicate MatchesClosedForm(s: RestState, t: RestState, minimum: int) {
    var e := s.sorceryPoints - minimum;
    if e < 0 then t == s
    else
      && (forall level :: 1 <= level <= 5 ==>
            GetSlotsForLevel(t.spells, level) == GetSlotsForLevel(s.spells, level) + GreedyCount(e, level))
      && t.sorceryPoints == minimum + GreedyLeftover(e)
  }

  /** Seven more points of excess mean exactly one more level-5 slot. */
  lemma GreedyCountsPlusSeven(e: int)
    requires e >= 7
    ensures forall k :: 1 <= k <= 5 ==> GreedyCount(e, k) == GreedyCount(e - 7, k) + (if k == 5 then 1 else 0)
    ensures GreedyLeftover(e) == GreedyLeftover(e - 7)
  {
    var q, r := e / 7, e % 7;
    assert e - 7 == 7 * (q - 1) + r;
    assert (e - 7) / 7 == q - 1 && (e - 7) % 7 == r;
  }

  /** Below seven, the level the converter picks is determined by the excess alone. */
  lemma HighestAffordableBelowSeven(e: int, level: int)
    requires IsSpellLevel(level) && e - GetSpellSlotCost(level) >= 0 && e < 7
    requires forall k :: level < k <= MaxSpellLevel ==> e - GetSpellSlotCost(k) < 0
    ensures level == (if e == 6 then 4 else if e == 5 then 3 else if e >= 3 then 2 else 1)
  {
    CostTable();
    assert level < 5;
    if level < 4 { assert e - GetSpellSlotCost(4) < 0; }
    if level < 3 { assert e - GetSpellSlotCost(3) < 0; }
    if level < 2 { assert e - GetSpellSlotCost(2) < 0; }
  }

  /** Taking the highest affordable level first peels exactly that slot off the closed form. */
  lemma GreedyCountsStep(e: int, level: int)
    requires IsSpellLevel(level) && e - GetSpellSlotCost(level) >= 0
    requires forall k :: level < k <= MaxSpellLevel ==> e - GetSpellSlotCost(k) < 0
    ensures forall k :: 1 <= k <= 5 ==>
      GreedyCount(e, k) == GreedyCount(e - GetSpellSlotCost(level), k) + (if k == level then 1 else 0)
    ensures GreedyLeftover(e) == GreedyLeftover(e - GetSpellSlotCost(level))
  {
    if e >= 7 {
      GreedyCountsStepLarge(e, level);
    } else {
      GreedyCountsStepSmall(e, level);
    }
  }

  lemma GreedyCountsStepLarge(e: int, level: int)
    requires e >= 7
    requires IsSpellLevel(level) && e - GetSpellSlotCost(level) >= 0
    requires forall k :: level < k <= MaxSpellLevel ==> e - GetSpellSlotCost(k) < 0
    ensures level == 5
    ensures forall k :: 1 <= k <= 5 ==>
      GreedyCount(e, k) == GreedyCount(e - GetSpellSlotCost(level), k) + (if k == level then 1 else 0)
    ensures GreedyLeftover(e) == GreedyLeftover(e - GetSpellSlotCost(level))
  {
    CostTable();
    GreedyCountsPlusSeven(e);
  }

  lemma GreedyCountsStepSmall(e: int, level: int)
    requires e < 7
    requires IsSpellLevel(level) && e - GetSpellSlotCost(level) >= 0
    requires forall k :: level < k <= MaxSpellLevel ==> e - GetSpellSlotCost(k) < 0
    ensures forall k :: 1 <= k <= 5 ==>
      GreedyCount(e, k) == GreedyCount(e - GetSpellSlotCost(level), k) + (if k == level then 1 else 0)
    ensures GreedyLeftover(e) == GreedyLeftover(e - GetSpellSlotCost(level))
  {
    CostTable();
    HighestAffordableBelowSeven(e, level);
    if e == 6 {
    } else if e == 5 {
    } else if e == 4 {
    } else if e == 3 {
    } else {
    }
  }

  /** When nothing is affordable the converter stops, and the closed form agrees. */
  lemma ClosedFormStop(s: RestState, minimum: int)
    requires FirstAffordable(s.sorceryPoints, minimum, MaxSpellLevel) == 0
    ensures MatchesClosedForm(s, ConvertSorceryPointsToSpellSlots(s, minimum), minimum)
  {
    var e := s.sorceryPoints - minimum;
    if e >= 0 {
      CostTable();
      assert e < 2;
      assert e % 7 == e;
    }
  }

  /** A run that starts with an affordable level first converts that level, then carries on. */
  lemma GreedyUnfold(s: RestState, minimum: int, level: int)
    requires IsSpellLevel(level) && level == FirstAffordable(s.sorceryPoints, minimum, MaxSpellLevel)
    ensures ConvertSorceryPointsToSpellSlots(s, minimum) == ConvertSorceryPointsToSpellSlots(ConvertOnce(s, level), minimum)
    ensures ConvertOnce(s, level).sorceryPoints - minimum == s.sorceryPoints - minimum - GetSpellSlotCost(level) >= 0
  {
  }

  /** One conversion adds one slot of its own level and no other. */
  lemma ConvertOnceCounts(s: RestState, level: int)
    requires IsSpellLevel(level)
    ensures forall k :: 1 <= k <= 5 ==>
      GetSlotsForLevel(ConvertOnce(s, level).spells, k) == GetSlotsForLevel(s.spells, k) + (if k == level then 1 else 0)
  {
  }

  /** The closed form of the state after one conversion extends to the state before it. */
  lemma ClosedFormCombine(s: RestState, s': RestState, t: RestState, minimum: int, level: int)
    requires IsSpellLevel(level) && s.sorceryPoints - GetSpellSlotCost(level) >= minimum
    requires forall k :: level < k <= MaxSpellLevel ==> s.sorceryPoints - GetSpellSlotCost(k) < minimum
    requires s'.sorceryPoints == s.sorceryPoints - GetSpellSlotCost(level)
    requires forall k :: 1 <= k <= 5 ==>
      GetSlotsForLevel(s'.spells, k) == GetSlotsForLevel(s.spells, k) + (if k == level then 1 else 0)
    requires MatchesClosedForm(s', t, minimum)
    ensures MatchesClosedForm(s, t, minimum)
  {
    var e := s.sorceryPoints - minimum;
    var e' := s'.sorceryPoints - minimum;
    assert e' == e - GetSpellSlotCost(level) >= 0;
    GreedyCountsStep(e, level);
    CountsCombine(s.spells, s'.spells, t.spells, e, e', level);
  }

  lemma CountsCombine(a: CoffeeResult, a': CoffeeResult, b: CoffeeResult, e: int, e': int, level: int)
    requires e >= 0 && e' >= 0
    requires forall k :: 1 <= k <= 5 ==> GetSlotsForLevel(a', k) == GetSlotsForLevel(a, k) + (if k == level then 1 else 0)
    requires forall k :: 1 <= k <= 5 ==> GetSlotsForLevel(b, k) == GetSlotsForLevel(a', k) + GreedyCount(e', k)
    requires forall k :: 1 <= k <= 5 ==> GreedyCount(e, k) == GreedyCount(e', k) + (if k == level then 1 else 0)
    ensures forall k :: 1 <= k <= 5 ==> GetSlotsForLevel(b, k) == GetSlotsForLevel(a, k) + GreedyCount(e, k)
  {
    forall k | 1 <= k <= 5
      ensures GetSlotsForLevel(b, k) == GetSlotsForLevel(a, k) + GreedyCount(e, k)
    {
      assert GetSlotsForLevel(b, k) == GetSlotsForLevel(a', k) + GreedyCount(e', k);
    }
  }

  /** One conversion followed by the rest of the run keeps agreeing with the closed form. */
  lemma ClosedFormStep(s: RestState, minimum: int, level: int)
    requires IsSpellLevel(level) && level == FirstAffordable(s.sorceryPoints, minimum, MaxSpellLevel)
    requires MatchesClosedForm(ConvertOnce(s, level), ConvertSorceryPointsToSpellSlots(ConvertOnce(s, level), minimum), minimum)
    ensures MatchesClosedForm(s, ConvertSorceryPointsToSpellSlots(s, minimum), minimum)
  {
    GreedyUnfold(s, minimum, level);
    ConvertOnceCounts(s, level);
    ClosedFormCombine(s, ConvertOnce(s, level), ConvertSorceryPointsToSpellSlots(ConvertOnce(s, level), minimum), minimum, level);
  }

  /** The converter agrees with the closed form; below the floor it changes nothing. */
  lemma {:induction false} ConverterClosedForm(s: RestState, minimum: int)
    ensures MatchesClosedForm(s, ConvertSorceryPointsToSpellSlots(s, minimum), minimum)
    decreases s.sorceryPoints - minimum
  {
    var level := FirstAffordable(s.sorceryPoints, minimum, MaxSpellLevel);
    if level == 0 {
      ClosedFormStop(s, minimum);
    } else {
      ConverterClosedForm(ConvertOnce(s, level), minimum);
      ClosedFormStep(s, minimum, level);
    }
  }

  /** The `while (conversionMade)` loop with its inner `for` and `break`, as written. */
  method ConvertLoop(s: RestState, minimum: int) returns (t: RestState)
    ensures t == ConvertSorceryPointsToSpellSlots(s, minimum)
  {
    t := s;
    var conversionMade := true;
    while conversionMade
      invariant conversionMade ==> ConvertSorceryPointsToSpellSlots(t, minimum) == ConvertSorceryPointsToSpellSlots(s, minimum)
      invariant !conversionMade ==> t == ConvertSorceryPointsToSpellSlots(s, minimum)
      decreases if conversionMade then 1 + (if t.sorceryPoints >= minimum then t.sorceryPoints - minimum else 0) else 0
    {
      conversionMade := false;
      var level := MaxSpellLevel;
      ghost var t0 := t;
      while level >= 1
        invariant 0 <= level <= MaxSpellLevel
        invariant !conversionMade ==> t == t0 && forall k :: level < k <= MaxSpellLevel ==> t.sorceryPoints - GetSpellSlotCost(k) < minimum
        invariant conversionMade ==> t0.sorceryPoints >= t.sorceryPoints + Level1Cost && t.sorceryPoints >= minimum
        invariant conversionMade ==> ConvertSorceryPointsToSpellSlots(t, minimum) == ConvertSorceryPointsToSpellSlots(t0, minimum)
        decreases level
      {
        var cost := GetSpellSlotCost(level);
        if t.sorceryPoints - cost >= minimum {
          assert FirstAffordable(t.sorceryPoints, minimum, MaxSpellLevel) == level;
          t := ConvertOnce(t, level);
          conversionMade := true;
          break;
        }
        level := level - 1;
      }
      if !conversionMade {
        assert FirstAffordable(t.sorceryPoints, minimum, MaxSpellLevel) == 0;
      }
    }
  }
}
