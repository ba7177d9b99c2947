/** The fixed conversion table: point cost of a universal slot per level, and item gains. */
module Constants {

  /** Sorcery-point cost of a universal spell slot of level 1..5, indexed by level - 1. */
  const SpellSlotCosts: seq<int> := [2, 3, 5, 6, 7]

  /** Warlock slots recovered by the Pact Keeper Rod. */
  const PactRodSpellSlotsGain: int := 1

  /** Sorcery points recovered by the Blood Well Vial. */
  const BloodVialSorceryPointsGain: int := 5

  /** Highest level a universal slot can have. */
  const MaxSpellLevel: int := |SpellSlotCosts|

  predicate IsSpellLevel(level: int) {
    1 <= level <= MaxSpellLevel
  }

  /** The cost of one universal slot; a level outside 1..5 is a caller error (the source throws). */
  function GetSpellSlotCost(level: int): (cost: int)
    requires IsSpellLevel(level)
    ensures cost >= 2
    ensures cost >= level + 1
    ensures level == 1 ==> cost == 2
  {
    SpellSlotCosts[level - 1]
  }

  /** The cheapest slot cost, used by the feasibility test. */
  const Level1Cost: int := GetSpellSlotCost(1)

  /** The table, level by level. */
  lemma CostTable()
    ensures GetSpellSlotCost(1) == 2 && GetSpellSlotCost(2) == 3 && GetSpellSlotCost(3) == 5
    ensures GetSpellSlotCost(4) == 6 && GetSpellSlotCost(5) == 7
  {
  }

  /** A higher level always costs strictly more, so level 1 is the cheapest. */
  lemma CostStrictlyIncreasing(a: int, b: int)
    requires IsSpellLevel(a) && IsSpellLevel(b) && a < b
    ensures GetSpellSlotCost(a) < GetSpellSlotCost(b)
    ensures Level1Cost <= GetSpellSlotCost(a)
  {
  }
}
