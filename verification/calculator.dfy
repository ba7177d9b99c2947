/**
  The rest search of `Calculator`: the entry point with its two early exits, the mid-rest
  exploration of every action order hour by hour, and the end-of-rest resolver that restores
  the Warlock slots, tries every number of them to spend and reports what the greedy converter
  makes of each choice. Each C# clone-then-mutate step is a pure function on a `RestState`; the
  shared `HashSet` is threaded through the recursion as a `ResultSet` value.
 */
module Calculator {
  import opened Wrappers
  import opened Constants
  import opened CoffeeResults
  import opened CoffeeState
  import opened ResultSet
  import opened Transitions
  import opened Greedy

  /** The most points the rest could add: every slot of every hour, the rod's slot, the vial. */
  function PotentialPoints(
    warlockSlotNumberTotal: int, warlockSlotLevel: int, sorceryPointsTotal: int,
    pactKeeperRod: bool, bloodWellVial: bool, sleepHours: int): int
  {
    sleepHours * warlockSlotNumberTotal * warlockSlotLevel
      + (if pactKeeperRod then warlockSlotLevel * PactRodSpellSlotsGain else 0)
      // capped by the pool size, not by the room left in the pool
      + (if bloodWellVial then Min(BloodVialSorceryPointsGain, sorceryPointsTotal) else 0)
  }

  /** The feasibility estimate: the floor plus one level-1 slot must be within reach. */
  predicate CanGenerateAtLeastOneSlot(
    warlockSlotNumberTotal: int, warlockSlotLevel: int, sorceryPointsTotal: int,
    sorceryPointsCurrent: int, pactKeeperRod: bool, bloodWellVial: bool,
    sleepHours: int, minimumSorceryPoints: int): (ok: bool)
    // with nothing negative in the character, points already covering the floor and a level-1 slot pass
    ensures (&& warlockSlotNumberTotal >= 0 && warlockSlotLevel >= 0 && sorceryPointsTotal >= 0 && sleepHours >= 0
             && sorceryPointsCurrent >= minimumSorceryPoints + Level1Cost) ==> ok
  {
    sorceryPointsCurrent + PotentialPoints(warlockSlotNumberTotal, warlockSlotLevel, sorceryPointsTotal,
                                           pactKeeperRod, bloodWellVial, sleepHours)
      >= minimumSorceryPoints + Level1Cost
  }

  /** More hours, or an item in hand, never turn a passing estimate into a failing one. */
  lemma EstimateMonotone(
    warlockSlotNumberTotal: int, warlockSlotLevel: int, sorceryPointsTotal: int,
    sorceryPointsCurrent: int, pactKeeperRod: bool, bloodWellVial: bool,
    sleepHours: int, minimumSorceryPoints: int,
    pactKeeperRod': bool, bloodWellVial': bool, sleepHours': int)
    requires warlockSlotNumberTotal >= 0 && warlockSlotLevel >= 0 && sorceryPointsTotal >= 0
    requires sleepHours <= sleepHours'
    requires (pactKeeperRod ==> pactKeeperRod') && (bloodWellVial ==> bloodWellVial')
    requires CanGenerateAtLeastOneSlot(warlockSlotNumberTotal, warlockSlotLevel, sorceryPointsTotal,
                                       sorceryPointsCurrent, pactKeeperRod, bloodWellVial,
                                       sleepHours, minimumSorceryPoints)
    ensures CanGenerateAtLeastOneSlot(warlockSlotNumberTotal, warlockSlotLevel, sorceryPointsTotal,
                                      sorceryPointsCurrent, pactKeeperRod', bloodWellVial',
                                      sleepHours', minimumSorceryPoints)
  {
    var perHour := warlockSlotNumberTotal * warlockSlotLevel;
    assert perHour >= 0;
    assert sleepHours * perHour <= sleepHours' * perHour;
    assert sleepHours * warlockSlotNumberTotal * warlockSlotLevel == sleepHours * perHour;
    assert sleepHours' * warlockSlotNumberTotal * warlockSlotLevel == sleepHours' * perHour;
  }

  /**
    The mid-rest cut-off, as called: the state's *used* flags go where the estimate expects
    the items to be *available*, the hours are those left, and the floor is 0.
   */
  predicate Pruned(s: RestState, cfg: Config) {
    !CanGenerateAtLeastOneSlot(cfg.warlockSlotNumberTotal, cfg.warlockSlotLevel, cfg.sorceryPointsTotal,
                               s.sorceryPoints, s.pactKeeperRodUsed, s.bloodWellVialUsed,
                               cfg.sleepHours - s.hour, 0)
  }

  /** Both end-of-rest floors are met. */
  predicate MeetsFloors(n: RestState, cfg: Config) {
    n.sorceryPoints >= cfg.minimumSorceryPoints && n.warlockSlots >= cfg.minimumWarlockSlots
  }

  /** The state's `Spells`, filled in with what is left and the timeline's log. */
  function Report(n: RestState): (r: CoffeeResult)
    ensures SameCounts(r, n.spells)
    ensures r.remainingSorceryPoints == n.sorceryPoints && r.remainingWarlockSlots == n.warlockSlots
    ensures r.actionsTaken == Some(n.actions)
  {
    n.spells.(remainingSorceryPoints := n.sorceryPoints,
              remainingWarlockSlots := n.warlockSlots,
              actionsTaken := Some(n.actions))
  }

  /** Every result stored from position `from` on meets both floors. */
  predicate NewMeetFloors(rs: seq<CoffeeResult>, from: int, cfg: Config) {
    forall i :: 0 <= from <= i < |rs| ==>
      rs[i].remainingSorceryPoints >= cfg.minimumSorceryPoints
      && rs[i].remainingWarlockSlots >= cfg.minimumWarlockSlots
  }

  /** Every result stored from position `from` on is within both totals. */
  predicate NewWithinTotals(rs: seq<CoffeeResult>, from: int, cfg: Config) {
    forall i :: 0 <= from <= i < |rs| ==>
      rs[i].remainingSorceryPoints <= cfg.sorceryPointsTotal
      && rs[i].remainingWarlockSlots <= cfg.warlockSlotNumberTotal
  }

  /** The two `results.Add` blocks: the first needs a produced slot, the second does not. */
  function Emit(n: RestState, acc: seq<CoffeeResult>, cfg: Config): (rs: seq<CoffeeResult>)
    ensures Keys(rs) == Keys(acc) + (if MeetsFloors(n, cfg) then {Key(Report(n))} else {})
    ensures acc <= rs && |rs| <= |acc| + 1
    ensures Distinct(acc) ==> Distinct(rs)
    ensures |rs| == |acc| + 1 ==> rs[|acc|] == Report(n) && MeetsFloors(n, cfg)
  {
    var withSlot := if MeetsFloors(n, cfg) && AnySpell(n.spells) then Add(acc, Report(n)) else acc;
    if MeetsFloors(n, cfg) then Add(withSlot, Report(n)) else withSlot
  }

  /** Trading `spend` restored slots for points, clamped to the pool size, with its log entry. */
  function Trade(c: RestState, spend: int, cfg: Config): (n: RestState)
    requires spend > 0
    ensures n.warlockSlots == c.warlockSlots - spend
    ensures n.sorceryPoints == Min(c.sorceryPoints + spend * cfg.warlockSlotLevel, cfg.sorceryPointsTotal)
    // the log records the points actually gained, after the clamp, and the slots spent
    ensures n.actions == c.actions + [Action(EndOfRestBonusConversion, c.hour, None,
                                             Some(n.sorceryPoints - c.sorceryPoints), Some(-spend))]
    ensures n.hour == c.hour && n.spells == c.spells
    ensures n.pactKeeperRodUsed == c.pactKeeperRodUsed && n.bloodWellVialUsed == c.bloodWellVialUsed
  {
    var raw := c.sorceryPoints + spend * cfg.warlockSlotLevel;
    var gained := if raw > cfg.sorceryPointsTotal then spend * cfg.warlockSlotLevel - (raw - cfg.sorceryPointsTotal)
                  else spend * cfg.warlockSlotLevel;
    c.(warlockSlots := c.warlockSlots - spend,
       sorceryPoints := if raw > cfg.sorceryPointsTotal then cfg.sorceryPointsTotal else raw,
       actions := c.actions + [Action(EndOfRestBonusConversion, c.hour, None, Some(gained), Some(-spend))])
  }

  /** Together the two blocks add the result exactly when the floors are met, units or not. */
  lemma EmitAddsWhenFloorsMet(n: RestState, acc: seq<CoffeeResult>, cfg: Config)
    ensures Emit(n, acc, cfg) == if MeetsFloors(n, cfg) then Add(acc, Report(n)) else acc
    ensures MeetsFloors(n, cfg) && Key(Report(n)) !in Keys(acc) ==> Emit(n, acc, cfg) == acc + [Report(n)]
  {
    if MeetsFloors(n, cfg) && AnySpell(n.spells) {
      AddIdempotent(acc, Report(n), Report(n));
    }
  }

  /** One spend choice: clone, trade `spend` slots for points when there are any, convert. */
  function SpendAndConvert(u: RestState, spend: int, cfg: Config): (n: RestState)
    ensures n.warlockSlots == u.warlockSlots - (if spend > 0 then spend else 0)
    ensures spend > 0 ==> n.sorceryPoints <= cfg.sorceryPointsTotal
    ensures spend <= 0 ==> n.sorceryPoints <= u.sorceryPoints
    ensures n.hour == u.hour
    ensures u.actions <= n.actions
  {
    var c := CloneState(u);
    var traded := if spend > 0 then Trade(c, spend, cfg) else c;
    ConvertSorceryPointsToSpellSlots(traded, cfg.minimumSorceryPoints)
  }

  /** The `for` over spend choices, from `spend` down to 0. */
  function SpendLoop(u: RestState, spend: int, acc: seq<CoffeeResult>, cfg: Config): (rs: seq<CoffeeResult>)
    ensures acc <= rs
    ensures Distinct(acc) ==> Distinct(rs)
    ensures NewMeetFloors(rs, |acc|, cfg)
    ensures WithinTotals(u, cfg) ==> NewWithinTotals(rs, |acc|, cfg)
    decreases spend
  {
    if spend < 0 then acc
    else SpendLoop(u, spend - 1, Emit(SpendAndConvert(u, spend, cfg), acc, cfg), cfg)
  }

  /** The state once the Warlock slots are back, with the log entry when any were missing. */
  function Restored(s: RestState, cfg: Config): (u: RestState)
    ensures u.warlockSlots == if s.warlockSlots < cfg.warlockSlotNumberTotal then cfg.warlockSlotNumberTotal
                              else s.warlockSlots
    ensures u.sorceryPoints == s.sorceryPoints && u.hour == s.hour && u.spells == s.spells
    ensures s.actions <= u.actions
  {
    if s.warlockSlots < cfg.warlockSlotNumberTotal then
      s.(warlockSlots := cfg.warlockSlotNumberTotal,
         actions := s.actions + [Action(RestoreWarlockSlots, s.hour, None, None, Some(cfg.warlockSlotNumberTotal))])
    else s
  }

  /** With fewer restored slots than the slot floor no spend choice is tried. */
  lemma EndOfRestBelowSlotFloor(s: RestState, acc: seq<CoffeeResult>, cfg: Config)
    requires Restored(s, cfg).warlockSlots < cfg.minimumWarlockSlots
    ensures EndOfRest(s, acc, cfg) == acc
  {
  }

  /** `PerformEndOfRestBonusActions`: restore, then try spending down to the slot floor. */
  function EndOfRest(s: RestState, acc: seq<CoffeeResult>, cfg: Config): (rs: seq<CoffeeResult>)
    ensures acc <= rs
    ensures Distinct(acc) ==> Distinct(rs)
    ensures NewMeetFloors(rs, |acc|, cfg)
    ensures WithinTotals(s, cfg) ==> NewWithinTotals(rs, |acc|, cfg)
  {
    var u := Restored(s, cfg);
    SpendLoop(u, u.warlockSlots - cfg.minimumWarlockSlots, acc, cfg)
  }

  /**
    `SimulateActions`: the cut-off, then either the end of the rest or, in this order, a slot
    into points, a unit of each affordable level from 5 down, the vial, the rod, and the hour
    advance; each branch explores a clone and adds to the same collection.
   */
  function Simulate(s: RestState, acc: seq<CoffeeResult>, cfg: Config): (rs: seq<CoffeeResult>)
    ensures acc <= rs
    ensures Distinct(acc) ==> Distinct(rs)
    ensures NewMeetFloors(rs, |acc|, cfg)
    ensures WithinTotals(s, cfg) ==> NewWithinTotals(rs, |acc|, cfg)
    decreases cfg.sleepHours - s.hour, if s.pactKeeperRodUsed then 0 else 1,
              if s.bloodWellVialUsed then 0 else 1, s.warlockSlots, s.sorceryPoints, 7
  {
    if Pruned(s, cfg) then acc
    else if s.hour >= cfg.sleepHours then EndOfRest(s, acc, cfg)
    else
      var afterSlot := Explore(s, ConvertSlot, acc, cfg);
      var afterSpells := ConvertTiers(s, MaxSpellLevel, afterSlot, cfg);
      var afterVial := Explore(s, DrinkVial, afterSpells, cfg);
      var afterRod := Explore(s, UseRod, afterVial, cfg);
      Explore(s, AdvanceHour, afterRod, cfg)
  }

  /** One guarded branch: when the move's guard holds, explore the clone it produces. */
  function Explore(s: RestState, m: Move, acc: seq<CoffeeResult>, cfg: Config): (rs: seq<CoffeeResult>)
    ensures acc <= rs
    ensures Distinct(acc) ==> Distinct(rs)
    ensures NewMeetFloors(rs, |acc|, cfg)
    ensures WithinTotals(s, cfg) ==> NewWithinTotals(rs, |acc|, cfg)
    decreases cfg.sleepHours - s.hour, if s.pactKeeperRodUsed then 0 else 1,
              if s.bloodWellVialUsed then 0 else 1, s.warlockSlots, s.sorceryPoints, 0
  {
    if Enabled(s, m, cfg) then Simulate(Apply(s, m, cfg), acc, cfg) else acc
  }

  /** The `for` over levels `level` down to 1 in `SimulateActions`, one unit each. */
  function ConvertTiers(s: RestState, level: int, acc: seq<CoffeeResult>, cfg: Config): (rs: seq<CoffeeResult>)
    requires 0 <= level <= MaxSpellLevel
    ensures acc <= rs
    ensures Distinct(acc) ==> Distinct(rs)
    ensures NewMeetFloors(rs, |acc|, cfg)
    ensures WithinTotals(s, cfg) ==> NewWithinTotals(rs, |acc|, cfg)
    decreases cfg.sleepHours - s.hour, if s.pactKeeperRodUsed then 0 else 1,
              if s.bloodWellVialUsed then 0 else 1, s.warlockSlots, s.sorceryPoints, level + 1
  {
    if level == 0 then acc
    else ConvertTiers(s, level - 1, Explore(s, CreateSpell(level), acc, cfg), cfg)
  }

  /** `SearchCombinations`: the end of the rest when it has come, the hour's actions otherwise. */
  function SearchCombinations(s: RestState, acc: seq<CoffeeResult>, cfg: Config): (rs: seq<CoffeeResult>)
    ensures acc <= rs
    ensures Distinct(acc) ==> Distinct(rs)
    ensures NewMeetFloors(rs, |acc|, cfg)
    ensures WithinTotals(s, cfg) ==> NewWithinTotals(rs, |acc|, cfg)
  {
    if s.hour >= cfg.sleepHours then EndOfRest(s, acc, cfg) else Simulate(s, acc, cfg)
  }

  /** The state the search starts from: hour 0, the current pools, items marked used when absent. */
  function InitialState(warlockSlotNumberCurrent: int, sorceryPointsCurrent: int,
                        pactKeeperRod: bool, bloodWellVial: bool): RestState
  {
    RestState(0, warlockSlotNumberCurrent, sorceryPointsCurrent, !pactKeeperRod, !bloodWellVial,
              EmptyResult, [Action(StartRest, 0, None, None, None)])
  }

  /** `CalculateSpellSlots`: every reachable end-of-rest outcome, one result per value. */
  function CalculateSpellSlots(
    warlockSlotNumberTotal: int, warlockSlotNumberCurrent: int, warlockSlotLevel: int,
    sorceryPointsTotal: int, sorceryPointsCurrent: int, pactKeeperRod: bool, bloodWellVial: bool,
    sleepHours: int, minimumSorceryPoints: int, minimumWarlockSlots: int): (rs: seq<CoffeeResult>)
    // a rest shorter than an hour, or a failed estimate, gives nothing
    ensures sleepHours < 1 ==> rs == []
    ensures rs != [] ==> CanGenerateAtLeastOneSlot(warlockSlotNumberTotal, warlockSlotLevel, sorceryPointsTotal,
                                                   sorceryPointsCurrent, pactKeeperRod, bloodWellVial,
                                                   sleepHours, minimumSorceryPoints)
    // a set: no two results of the same value
    ensures Distinct(rs)
    // every result meets both floors
    ensures forall r :: r in rs ==>
      r.remainingSorceryPoints >= minimumSorceryPoints && r.remainingWarlockSlots >= minimumWarlockSlots
    // starting within the totals, every result stays within them
    ensures warlockSlotNumberCurrent <= warlockSlotNumberTotal && sorceryPointsCurrent <= sorceryPointsTotal ==>
      forall r :: r in rs ==>
        r.remainingSorceryPoints <= sorceryPointsTotal && r.remainingWarlockSlots <= warlockSlotNumberTotal
  {
    if sleepHours < 1 then []
    else if !CanGenerateAtLeastOneSlot(warlockSlotNumberTotal, warlockSlotLevel, sorceryPointsTotal,
                                       sorceryPointsCurrent, pactKeeperRod, bloodWellVial,
                                       sleepHours, minimumSorceryPoints) then []
    else
      var cfg := Config(warlockSlotNumberTotal, warlockSlotLevel, sorceryPointsTotal, sorceryPointsCurrent,
                        sleepHours, minimumSorceryPoints, minimumWarlockSlots);
      SearchCombinations(InitialState(warlockSlotNumberCurrent, sorceryPointsCurrent, pactKeeperRod, bloodWellVial),
                         [], cfg)
  }
}
