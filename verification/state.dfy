/** The snapshot of one point on one rest timeline. */
module CoffeeState {
  import opened Wrappers
  import opened CoffeeResults

  /**
    `spells` counts the universal slots produced so far; its remaining-resource fields and its
    action log are only filled in when a timeline is reported. `actions` is the timeline's log.
   */
  datatype RestState = RestState(
    hour: int,
    warlockSlots: int,
    sorceryPoints: int,
    pactKeeperRodUsed: bool,
    bloodWellVialUsed: bool,
    spells: CoffeeResult,
    actions: seq<Action>)

  /**
    An independent copy: scalars and the five counts are copied, the log keeps the same entries
    in the same order (a copy, under value semantics), and the two remaining-resource fields and
    the result's log are not copied at all.
   */
  function CloneState(s: RestState): (c: RestState)
    ensures c.hour == s.hour && c.warlockSlots == s.warlockSlots && c.sorceryPoints == s.sorceryPoints
    ensures c.pactKeeperRodUsed == s.pactKeeperRodUsed && c.bloodWellVialUsed == s.bloodWellVialUsed
    ensures SameCounts(c.spells, s.spells)
    ensures c.spells.remainingSorceryPoints == 0 && c.spells.remainingWarlockSlots == 0
    ensures c.spells.actionsTaken == None
    ensures c.actions == s.actions
  {
    RestState(
      s.hour, s.warlockSlots, s.sorceryPoints, s.pactKeeperRodUsed, s.bloodWellVialUsed,
      CoffeeResult(s.spells.level1, s.spells.level2, s.spells.level3, s.spells.level4, s.spells.level5,
                   0, 0, None),
      s.actions)
  }

  /** A state whose `spells` carries nothing beyond the five counts. */
  predicate Clean(s: RestState) {
    s.spells.remainingSorceryPoints == 0 && s.spells.remainingWarlockSlots == 0 && s.spells.actionsTaken == None
  }

  /** Cloning loses nothing exactly on clean states, and always yields a clean state. */
  lemma CloneStateFixesCleanStates(s: RestState)
    ensures CloneState(s) == s <==> Clean(s)
    ensures Clean(CloneState(s))
    ensures CloneState(CloneState(s)) == CloneState(s)
  {
  }
}
