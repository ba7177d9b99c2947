/** Level-bracket lookups that turn a character's class levels into resource totals. */
module Character {

  datatype Character = Character(warlockLevel: int, sorcererLevel: int)

  /** Number of Warlock pact slots: 1, 2 (levels 2-10), 3 (11-16) or 4 (17+). */
  function GetWarlockSlotNumberTotal(c: Character): (n: int)
    ensures 1 <= n <= 4
    ensures c.warlockLevel <= 1 ==> n == 1
  {
    if 2 <= c.warlockLevel <= 10 then 2
    else if 11 <= c.warlockLevel <= 16 then 3
    else if c.warlockLevel >= 17 then 4
    else 1
  }

  /** Level of the Warlock pact slots; anything below level 1 or above level 17 falls to the default arm (8). */
  function GetWarlockSlotLevel(c: Character): (l: int)
    ensures 1 <= l <= 8
    ensures c.warlockLevel <= 0 ==> l == 8
    ensures c.warlockLevel >= 18 ==> l == 8
  {
    if 1 <= c.warlockLevel <= 2 then 1
    else if 3 <= c.warlockLevel <= 4 then 2
    else if 5 <= c.warlockLevel <= 6 then 3
    else if 7 <= c.warlockLevel <= 8 then 4
    else if 9 <= c.warlockLevel <= 11 then 5
    else if 12 <= c.warlockLevel <= 14 then 6
    else if 15 <= c.warlockLevel <= 17 then 7
    else 8
  }

  /** Sorcery-point pool: the Sorcerer level itself from level 2 on, none before. */
  function GetSorceryPointsTotal(c: Character): (p: int)
    ensures p >= 0
    ensures p == 0 || p == c.sorcererLevel
    ensures c.sorcererLevel >= 2 <==> p > 0
  {
    if c.sorcererLevel > 1 then c.sorcererLevel else 0
  }

  /** Reference: one slot, plus one for each of the thresholds 2, 11 and 17 reached. */
  function ThresholdsReached(level: int): int {
    1 + (if level >= 2 then 1 else 0) + (if level >= 11 then 1 else 0) + (if level >= 17 then 1 else 0)
  }

  lemma SlotNumberCountsThresholds(c: Character)
    ensures GetWarlockSlotNumberTotal(c) == ThresholdsReached(c.warlockLevel)
  {
  }

  /** More Warlock levels never mean fewer pact slots. */
  lemma SlotNumberMonotone(a: Character, b: Character)
    requires a.warlockLevel <= b.warlockLevel
    ensures GetWarlockSlotNumberTotal(a) <= GetWarlockSlotNumberTotal(b)
  {
  }

  /** Reference for levels 1..17: one slot level per two class levels up to 8, then one per three. */
  function SlotLevelByFormula(level: int): int
    requires 1 <= level <= 17
  {
    if level <= 8 then (level + 1) / 2 else 5 + (level - 9) / 3
  }

  lemma SlotLevelMatchesFormula(c: Character)
    requires 1 <= c.warlockLevel <= 17
    ensures GetWarlockSlotLevel(c) == SlotLevelByFormula(c.warlockLevel)
  {
  }

  /** From level 1 upward the slot level never decreases (levels <= 0 are the exception: 8). */
  lemma SlotLevelMonotone(a: Character, b: Character)
    requires 1 <= a.warlockLevel <= b.warlockLevel
    ensures GetWarlockSlotLevel(a) <= GetWarlockSlotLevel(b)
  {
  }
}
