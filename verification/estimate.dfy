/**
  The feasibility estimate as its own comment describes it: the most points a rest can yield.
  The estimate of `Calculator` counts a full set of slots for every hour and the two items,
  but not the slots held at the start, which the end of the rest leaves to trade on top of the
  restored set (`PreCheck` exhibits an input it wrongly rejects). Counting them makes the
  estimate sound: no input with a reachable result that made a slot is rejected, and the
  corrected entry point reports exactly the reachable results.
 */
module CorrectedEstimate {
  import opened Constants
  import opened CoffeeResults
  import opened CoffeeState
  import opened ResultSet
  import opened Transitions
  import opened Greedy
  import opened Calculator
  import opened SearchOutcomes
  import opened PreCheck

  /** The estimate plus the points the slots held at the start trade into. */
  function PotentialPointsCorrected(
    warlockSlotNumberTotal: int, warlockSlotNumberCurrent: int, warlockSlotLevel: int,
    sorceryPointsTotal: int, pactKeeperRod: bool, bloodWellVial: bool, sleepHours: int): int
  {
    PotentialPoints(warlockSlotNumberTotal, warlockSlotLevel, sorceryPointsTotal, pactKeeperRod, bloodWellVial, sleepHours)
      + warlockSlotNumberCurrent * warlockSlotLevel
  }

  predicate CanGenerateAtLeastOneSlotCorrected(
    warlockSlotNumberTotal: int, warlockSlotNumberCurrent: int, warlockSlotLevel: int,
    sorceryPointsTotal: int, sorceryPointsCurrent: int, pactKeeperRod: bool, bloodWellVial: bool,
    sleepHours: int, minimumSorceryPoints: int)
  {
    sorceryPointsCurrent
      + PotentialPointsCorrected(warlockSlotNumberTotal, warlockSlotNumberCurrent, warlockSlotLevel,
                                 sorceryPointsTotal, pactKeeperRod, bloodWellVial, sleepHours)
      >= minimumSorceryPoints + Level1Cost
  }

  /** The entry point with the corrected estimate; everything else as in `Calculator`. */
  function CalculateSpellSlotsCorrected(
    warlockSlotNumberTotal: int, warlockSlotNumberCurrent: int, warlockSlotLevel: int,
    sorceryPointsTotal: int, sorceryPointsCurrent: int, pactKeeperRod: bool, bloodWellVial: bool,
    sleepHours: int, minimumSorceryPoints: int, minimumWarlockSlots: int): (rs: seq<CoffeeResult>)
    ensures sleepHours < 1 ==> rs == []
    ensures rs != [] ==> CanGenerateAtLeastOneSlotCorrected(warlockSlotNumberTotal, warlockSlotNumberCurrent,
                                                            warlockSlotLevel, sorceryPointsTotal, sorceryPointsCurrent,
                                                            pactKeeperRod, bloodWellVial, sleepHours,
                                                            minimumSorceryPoints)
    ensures Distinct(rs)
    ensures forall r :: r in rs ==>
      r.remainingSorceryPoints >= minimumSorceryPoints && r.remainingWarlockSlots >= minimumWarlockSlots
  {
    if sleepHours < 1 then []
    else if !CanGenerateAtLeastOneSlotCorrected(warlockSlotNumberTotal, warlockSlotNumberCurrent, warlockSlotLevel,
                                                sorceryPointsTotal, sorceryPointsCurrent, pactKeeperRod,
                                                bloodWellVial, sleepHours, minimumSorceryPoints) then []
    else
      var cfg := Config(warlockSlotNumberTotal, warlockSlotLevel, sorceryPointsTotal, sorceryPointsCurrent,
                        sleepHours, minimumSorceryPoints, minimumWarlockSlots);
      SearchCombinations(InitialState(warlockSlotNumberCurrent, sorceryPointsCurrent, pactKeeperRod, bloodWellVial),
                         [], cfg)
  }

  /** No produced count is negative. */
  predicate NonnegLevels(r: CoffeeResult) {
    forall l :: 1 <= l <= 5 ==> GetSlotsForLevel(r, l) >= 0
  }

  /** A result that made a slot has paid at least the cost of a level-1 slot. */
  lemma MadeSlotPaidLevel1(r: CoffeeResult)
    requires NonnegLevels(r) && TotalSpellSlots(r) >= 1
    ensures SpentPoints(r) >= Level1Cost
  {
    CostTable();
    assert GetSlotsForLevel(r, 1) >= 0 && GetSlotsForLevel(r, 2) >= 0 && GetSlotsForLevel(r, 3) >= 0;
    assert GetSlotsForLevel(r, 4) >= 0 && GetSlotsForLevel(r, 5) >= 0;
  }

  lemma SameLevelsNonneg(a: CoffeeResult, b: CoffeeResult)
    requires SameCounts(a, b) && NonnegLevels(b)
    ensures NonnegLevels(a)
  {
    SameCountsIsSameLevels(a, b);
  }

  /** No move takes a produced count below zero. */
  lemma MoveKeepsNonneg(s: RestState, m: Move, cfg: Config)
    requires Enabled(s, m, cfg) && NonnegLevels(s.spells)
    ensures NonnegLevels(Apply(s, m, cfg).spells)
  {
    ApplyEffect(s, m, cfg);
    var t := Apply(s, m, cfg);
    if m.CreateSpell? {
      var c := CloneState(s);
      SameLevelsNonneg(c.spells, s.spells);
      assert t.spells == AddSpell(c.spells, m.level);
    } else {
      SameLevelsNonneg(t.spells, s.spells);
    }
  }

  lemma {:induction false} TimelineKeepsNonneg(s: RestState, moves: seq<Move>, cfg: Config)
    requires SearchRun(s, moves, cfg) && NonnegLevels(s.spells)
    ensures NonnegLevels(Final(s, moves, cfg).spells)
    decreases |moves|
  {
    if moves != [] {
      MoveKeepsNonneg(s, moves[0], cfg);
      TimelineKeepsNonneg(Apply(s, moves[0], cfg), moves[1..], cfg);
    }
  }

  /**
    One spend choice at the end of the rest: the trade adds at most `spend` slots' worth of
    points, the converter only moves points into slots, and no count goes down.
   */
  lemma SpendWithinTrade(u: RestState, spend: int, cfg: Config)
    requires 0 <= spend && cfg.warlockSlotLevel >= 0
    ensures var n := SpendAndConvert(u, spend, cfg);
      && n.sorceryPoints + SpentPoints(n.spells) <= u.sorceryPoints + SpentPoints(u.spells) + spend * cfg.warlockSlotLevel
      && (NonnegLevels(u.spells) ==> NonnegLevels(n.spells))
  {
    var c := CloneState(u);
    SameLevelsSamePoints(c.spells, u.spells);
    var traded := if spend > 0 then Trade(c, spend, cfg) else c;
    assert traded.sorceryPoints <= c.sorceryPoints + spend * cfg.warlockSlotLevel;
    assert traded.spells == c.spells;
    var n := ConvertSorceryPointsToSpellSlots(traded, cfg.minimumSorceryPoints);
    assert n == SpendAndConvert(u, spend, cfg);
    if NonnegLevels(u.spells) {
      SameLevelsNonneg(c.spells, u.spells);
    }
  }

  /** What the end of the rest reports from a completed state, against what that state holds. */
  lemma EndOutcomeWithinTrade(f: RestState, cfg: Config, k: CoffeeResult)
    requires Sane(cfg) && cfg.minimumWarlockSlots >= 0 && Bounded(f, cfg)
    requires k in EndOutcomes(f, cfg)
    ensures k.remainingSorceryPoints >= cfg.minimumSorceryPoints
    ensures k.remainingSorceryPoints + SpentPoints(k)
            <= f.sorceryPoints + SpentPoints(f.spells) + cfg.warlockSlotNumberTotal * cfg.warlockSlotLevel
    ensures NonnegLevels(f.spells) ==> NonnegLevels(k)
  {
    var u := Restored(f, cfg);
    var spend := SpendChoice(u, u.warlockSlots - cfg.minimumWarlockSlots, cfg, k);
    var n := SpendAndConvert(u, spend, cfg);
    SpendWithinTrade(u, spend, cfg);
    MulMono(spend, cfg.warlockSlotNumberTotal, cfg.warlockSlotLevel);
    assert SameCounts(k, n.spells);
    SameLevelsSamePoints(k, n.spells);
    if NonnegLevels(f.spells) {
      SameLevelsNonneg(k, n.spells);
    }
  }

  /** The budget at the start, with the end-of-rest set added, is the corrected estimate. */
  lemma InitialBudgetCorrected(s0: RestState, cfg: Config, pactKeeperRod: bool, bloodWellVial: bool)
    requires s0.hour == 0 && cfg.sleepHours >= 1
    requires s0.pactKeeperRodUsed == !pactKeeperRod && s0.bloodWellVialUsed == !bloodWellVial
    ensures Budget(s0, cfg) + cfg.warlockSlotNumberTotal * cfg.warlockSlotLevel
            == s0.sorceryPoints + SpentPoints(s0.spells)
               + PotentialPointsCorrected(cfg.warlockSlotNumberTotal, s0.warlockSlots, cfg.warlockSlotLevel,
                                          cfg.sorceryPointsTotal, pactKeeperRod, bloodWellVial, cfg.sleepHours)
  {
    HoursProduct(cfg.sleepHours, cfg.warlockSlotNumberTotal, cfg.warlockSlotLevel);
  }

  /**
    Every reachable result, with what it paid for its units, stays within the points at the
    start plus the corrected estimate; it meets the point floor and has no negative count.
   */
  lemma OutcomesWithinCorrectedEstimate(s0: RestState, cfg: Config, pactKeeperRod: bool, bloodWellVial: bool,
                                        k: CoffeeResult)
    requires s0.hour == 0 && cfg.sleepHours >= 1
    requires s0.pactKeeperRodUsed == !pactKeeperRod && s0.bloodWellVialUsed == !bloodWellVial
    requires 0 <= s0.warlockSlots <= cfg.warlockSlotNumberTotal && cfg.warlockSlotLevel >= 0
    requires 0 <= s0.sorceryPoints <= cfg.sorceryPointsTotal && cfg.minimumWarlockSlots >= 0
    requires NonnegLevels(s0.spells)
    requires Reachable(s0, k, cfg)
    ensures k.remainingSorceryPoints >= cfg.minimumSorceryPoints && NonnegLevels(k)
    ensures k.remainingSorceryPoints + SpentPoints(k)
            <= s0.sorceryPoints + SpentPoints(s0.spells)
               + PotentialPointsCorrected(cfg.warlockSlotNumberTotal, s0.warlockSlots, cfg.warlockSlotLevel,
                                          cfg.sorceryPointsTotal, pactKeeperRod, bloodWellVial, cfg.sleepHours)
  {
    var moves :| SearchRun(s0, moves, cfg) && Completes(Final(s0, moves, cfg), cfg)
                 && k in EndOutcomes(Final(s0, moves, cfg), cfg);
    var f := Final(s0, moves, cfg);
    InitialBudgetCorrected(s0, cfg, pactKeeperRod, bloodWellVial);
    TimelineKeepsBudget(s0, moves, cfg);
    TimelineKeepsNonneg(s0, moves, cfg);
    assert Budget(f, cfg) == f.sorceryPoints + SpentPoints(f.spells);
    EndOutcomeWithinTrade(f, cfg, k);
  }

  /**
    A start as the entry point builds it, on sane inputs: hour 0, nothing made, the items'
    flags set from their presence, both pools within their totals, and a non-negative slot
    level and slot floor.
   */
  predicate SaneStart(s0: RestState, cfg: Config, pactKeeperRod: bool, bloodWellVial: bool) {
    && s0.hour == 0 && cfg.sleepHours >= 1
    && s0.pactKeeperRodUsed == !pactKeeperRod && s0.bloodWellVialUsed == !bloodWellVial
    && 0 <= s0.warlockSlots <= cfg.warlockSlotNumberTotal && cfg.warlockSlotLevel >= 0
    && 0 <= s0.sorceryPoints <= cfg.sorceryPointsTotal && cfg.minimumWarlockSlots >= 0
    && NonnegLevels(s0.spells) && SpentPoints(s0.spells) == 0
  }

  /**
    The corrected estimate is sound: from a start at hour 0 with nothing made, the items'
    flags set as the entry point sets them and the pools within their totals, a reachable
    result that made at least one slot means the estimate passes.
   */
  lemma CorrectedEstimateIsSound(s0: RestState, cfg: Config, pactKeeperRod: bool, bloodWellVial: bool,
                                 k: CoffeeResult)
    requires SaneStart(s0, cfg, pactKeeperRod, bloodWellVial)
    requires Reachable(s0, k, cfg) && TotalSpellSlots(k) >= 1
    ensures CanGenerateAtLeastOneSlotCorrected(cfg.warlockSlotNumberTotal, s0.warlockSlots, cfg.warlockSlotLevel,
                                               cfg.sorceryPointsTotal, s0.sorceryPoints, pactKeeperRod, bloodWellVial,
                                               cfg.sleepHours, cfg.minimumSorceryPoints)
  {
    OutcomesWithinCorrectedEstimate(s0, cfg, pactKeeperRod, bloodWellVial, k);
    MadeSlotPaidLevel1(k);
  }

  /** The initial state and configuration of the entry point, on sane inputs, are a sane start. */
  lemma EntryStart(
    warlockSlotNumberTotal: int, warlockSlotNumberCurrent: int, warlockSlotLevel: int,
    sorceryPointsTotal: int, sorceryPointsCurrent: int, pactKeeperRod: bool, bloodWellVial: bool,
    sleepHours: int, minimumSorceryPoints: int, minimumWarlockSlots: int) returns (s0: RestState, cfg: Config)
    requires sleepHours >= 1 && 0 <= warlockSlotNumberCurrent <= warlockSlotNumberTotal && warlockSlotLevel >= 0
    requires 0 <= sorceryPointsCurrent <= sorceryPointsTotal && minimumWarlockSlots >= 0
    ensures s0 == InitialState(warlockSlotNumberCurrent, sorceryPointsCurrent, pactKeeperRod, bloodWellVial)
    ensures cfg == Config(warlockSlotNumberTotal, warlockSlotLevel, sorceryPointsTotal, sorceryPointsCurrent,
                          sleepHours, minimumSorceryPoints, minimumWarlockSlots)
    ensures s0.warlockSlots == warlockSlotNumberCurrent && s0.sorceryPoints == sorceryPointsCurrent
    ensures SaneStart(s0, cfg, pactKeeperRod, bloodWellVial)
  {
    s0 := InitialState(warlockSlotNumberCurrent, sorceryPointsCurrent, pactKeeperRod, bloodWellVial);
    cfg := Config(warlockSlotNumberTotal, warlockSlotLevel, sorceryPointsTotal, sorceryPointsCurrent,
                  sleepHours, minimumSorceryPoints, minimumWarlockSlots);
  }

  /** The soundness of the corrected estimate, read backwards: a rejected start reaches no result that made a slot. */
  lemma RejectedMeansUnreachable(s0: RestState, cfg: Config, pactKeeperRod: bool, bloodWellVial: bool,
                                 k: CoffeeResult)
    requires SaneStart(s0, cfg, pactKeeperRod, bloodWellVial)
    requires TotalSpellSlots(k) >= 1
    requires !CanGenerateAtLeastOneSlotCorrected(cfg.warlockSlotNumberTotal, s0.warlockSlots, cfg.warlockSlotLevel,
                                                 cfg.sorceryPointsTotal, s0.sorceryPoints, pactKeeperRod,
                                                 bloodWellVial, cfg.sleepHours, cfg.minimumSorceryPoints)
    ensures !Reachable(s0, k, cfg)
  {
    if Reachable(s0, k, cfg) {
      CorrectedEstimateIsSound(s0, cfg, pactKeeperRod, bloodWellVial, k);
    }
  }

  /** Once the corrected estimate fails, nothing is reported and no result that made a slot is reachable. */
  lemma RejectedReportsNothing(
    warlockSlotNumberTotal: int, warlockSlotNumberCurrent: int, warlockSlotLevel: int,
    sorceryPointsTotal: int, sorceryPointsCurrent: int, pactKeeperRod: bool, bloodWellVial: bool,
    sleepHours: int, minimumSorceryPoints: int, minimumWarlockSlots: int, k: CoffeeResult)
    requires sleepHours >= 1 && 0 <= warlockSlotNumberCurrent <= warlockSlotNumberTotal && warlockSlotLevel >= 0
    requires 0 <= sorceryPointsCurrent <= sorceryPointsTotal && minimumWarlockSlots >= 0
    requires TotalSpellSlots(k) >= 1
    requires !CanGenerateAtLeastOneSlotCorrected(warlockSlotNumberTotal, warlockSlotNumberCurrent, warlockSlotLevel,
                                                 sorceryPointsTotal, sorceryPointsCurrent, pactKeeperRod, bloodWellVial,
                                                 sleepHours, minimumSorceryPoints)
    ensures CalculateSpellSlotsCorrected(warlockSlotNumberTotal, warlockSlotNumberCurrent, warlockSlotLevel,
                                         sorceryPointsTotal, sorceryPointsCurrent, pactKeeperRod,
                                         bloodWellVial, sleepHours, minimumSorceryPoints, minimumWarlockSlots) == []
    ensures !Reachable(InitialState(warlockSlotNumberCurrent, sorceryPointsCurrent, pactKeeperRod, bloodWellVial), k,
                       Config(warlockSlotNumberTotal, warlockSlotLevel, sorceryPointsTotal, sorceryPointsCurrent,
                              sleepHours, minimumSorceryPoints, minimumWarlockSlots))
  {
    var s0, cfg := EntryStart(warlockSlotNumberTotal, warlockSlotNumberCurrent, warlockSlotLevel,
                              sorceryPointsTotal, sorceryPointsCurrent, pactKeeperRod, bloodWellVial,
                              sleepHours, minimumSorceryPoints, minimumWarlockSlots);
    RejectedMeansUnreachable(s0, cfg, pactKeeperRod, bloodWellVial, k);
  }

  /** Once the corrected estimate passes, the search reports exactly the reachable results. */
  lemma AcceptedReportsReachable(
    warlockSlotNumberTotal: int, warlockSlotNumberCurrent: int, warlockSlotLevel: int,
    sorceryPointsTotal: int, sorceryPointsCurrent: int, pactKeeperRod: bool, bloodWellVial: bool,
    sleepHours: int, minimumSorceryPoints: int, minimumWarlockSlots: int, k: CoffeeResult)
    requires sleepHours >= 1
    requires CanGenerateAtLeastOneSlotCorrected(warlockSlotNumberTotal, warlockSlotNumberCurrent, warlockSlotLevel,
                                                sorceryPointsTotal, sorceryPointsCurrent, pactKeeperRod, bloodWellVial,
                                                sleepHours, minimumSorceryPoints)
    ensures var rs := CalculateSpellSlotsCorrected(warlockSlotNumberTotal, warlockSlotNumberCurrent, warlockSlotLevel,
                                                   sorceryPointsTotal, sorceryPointsCurrent, pactKeeperRod,
                                                   bloodWellVial, sleepHours, minimumSorceryPoints,
                                                   minimumWarlockSlots);
            var cfg := Config(warlockSlotNumberTotal, warlockSlotLevel, sorceryPointsTotal, sorceryPointsCurrent,
                              sleepHours, minimumSorceryPoints, minimumWarlockSlots);
            var s0 := InitialState(warlockSlotNumberCurrent, sorceryPointsCurrent, pactKeeperRod, bloodWellVial);
            (k in Keys(rs) <==> Reachable(s0, k, cfg)) && |Keys(rs)| == |rs|
  {
    var rs := CalculateSpellSlotsCorrected(warlockSlotNumberTotal, warlockSlotNumberCurrent, warlockSlotLevel,
                                           sorceryPointsTotal, sorceryPointsCurrent, pactKeeperRod,
                                           bloodWellVial, sleepHours, minimumSorceryPoints, minimumWarlockSlots);
    var cfg := Config(warlockSlotNumberTotal, warlockSlotLevel, sorceryPointsTotal, sorceryPointsCurrent,
                      sleepHours, minimumSorceryPoints, minimumWarlockSlots);
    var s0 := InitialState(warlockSlotNumberCurrent, sorceryPointsCurrent, pactKeeperRod, bloodWellVial);
    assert rs == Simulate(s0, [], cfg);
    SimulateKeys(s0, [], cfg);
    assert Keys([]) == {};
    OutcomesAreTimelineOutcomes(s0, k, cfg);
    DistinctCount(rs);
  }

  /**
    With the corrected estimate, on sane inputs, the entry point reports a result that made a
    slot exactly when some timeline the search explores ends in it.
   */
  lemma CalculateSpellSlotsCorrectedIsComplete(
    warlockSlotNumberTotal: int, warlockSlotNumberCurrent: int, warlockSlotLevel: int,
    sorceryPointsTotal: int, sorceryPointsCurrent: int, pactKeeperRod: bool, bloodWellVial: bool,
    sleepHours: int, minimumSorceryPoints: int, minimumWarlockSlots: int, k: CoffeeResult)
    requires sleepHours >= 1 && 0 <= warlockSlotNumberCurrent <= warlockSlotNumberTotal && warlockSlotLevel >= 0
    requires 0 <= sorceryPointsCurrent <= sorceryPointsTotal && minimumWarlockSlots >= 0
    requires TotalSpellSlots(k) >= 1
    ensures var rs := CalculateSpellSlotsCorrected(warlockSlotNumberTotal, warlockSlotNumberCurrent, warlockSlotLevel,
                                                   sorceryPointsTotal, sorceryPointsCurrent, pactKeeperRod,
                                                   bloodWellVial, sleepHours, minimumSorceryPoints,
                                                   minimumWarlockSlots);
            var cfg := Config(warlockSlotNumberTotal, warlockSlotLevel, sorceryPointsTotal, sorceryPointsCurrent,
                              sleepHours, minimumSorceryPoints, minimumWarlockSlots);
            var s0 := InitialState(warlockSlotNumberCurrent, sorceryPointsCurrent, pactKeeperRod, bloodWellVial);
            k in Keys(rs) <==> Reachable(s0, k, cfg)
  {
    var rs := CalculateSpellSlotsCorrected(warlockSlotNumberTotal, warlockSlotNumberCurrent, warlockSlotLevel,
                                           sorceryPointsTotal, sorceryPointsCurrent, pactKeeperRod,
                                           bloodWellVial, sleepHours, minimumSorceryPoints, minimumWarlockSlots);
    var cfg := Config(warlockSlotNumberTotal, warlockSlotLevel, sorceryPointsTotal, sorceryPointsCurrent,
                      sleepHours, minimumSorceryPoints, minimumWarlockSlots);
    var s0 := InitialState(warlockSlotNumberCurrent, sorceryPointsCurrent, pactKeeperRod, bloodWellVial);
    if CanGenerateAtLeastOneSlotCorrected(warlockSlotNumberTotal, warlockSlotNumberCurrent, warlockSlotLevel,
                                          sorceryPointsTotal, sorceryPointsCurrent, pactKeeperRod, bloodWellVial,
                                          sleepHours, minimumSorceryPoints) {
      AcceptedReportsReachable(warlockSlotNumberTotal, warlockSlotNumberCurrent, warlockSlotLevel,
                               sorceryPointsTotal, sorceryPointsCurrent, pactKeeperRod, bloodWellVial,
                               sleepHours, minimumSorceryPoints, minimumWarlockSlots, k);
    } else {
      RejectedReportsNothing(warlockSlotNumberTotal, warlockSlotNumberCurrent, warlockSlotLevel,
                             sorceryPointsTotal, sorceryPointsCurrent, pactKeeperRod, bloodWellVial,
                             sleepHours, minimumSorceryPoints, minimumWarlockSlots, k);
    }
  }

  /**
    On the input of `PreCheck.EstimateMissesStartingSlots` the entry point as written reports
    nothing, and the corrected one reports a result.
   */
  lemma CorrectedReportsWhatAsWrittenRejects()
    ensures CalculateSpellSlots(1, 1, 2, 10, 0, false, false, 1, 2, 0) == []
    ensures CalculateSpellSlotsCorrected(1, 1, 2, 10, 0, false, false, 1, 2, 0) != []
  {
    PrecheckRejectsWitness();
    var s0 := InitialState(1, 0, false, false);
    var cfg := Config(1, 2, 10, 0, 1, 2, 0);
    EstimateMissesStartingSlots(s0, cfg);
    var k :| Reachable(s0, k, cfg) && Made(k, 1) && k.remainingSorceryPoints == 2;
    CalculateSpellSlotsCorrectedIsComplete(1, 1, 2, 10, 0, false, false, 1, 2, 0, k);
  }
}
