/**
  What the feasibility estimate of `CalculateSpellSlots` does and does not bound. It counts a
  full set of slots per hour and the two items; along every explored timeline the points held
  plus the points already paid for units stay within the current points plus that estimate.
  The slots held at the start are not part of it, although the end of the rest restores a full
  set on top of them, so an input can be rejected although a timeline of it ends in a result
  that made a slot.
 */
module PreCheck {
  import opened Wrappers
  import opened Constants
  import opened CoffeeResults
  import opened CoffeeState
  import opened ResultSet
  import opened Transitions
  import opened Greedy
  import opened Calculator
  import opened SearchOutcomes

  /** The points the rest of the hours could still add from `s`, counted as the estimate does. */
  function FutureGain(s: RestState, cfg: Config): int {
    if s.hour >= cfg.sleepHours then 0
    else
      s.warlockSlots * cfg.warlockSlotLevel
        + (cfg.sleepHours - s.hour - 1) * (cfg.warlockSlotNumberTotal * cfg.warlockSlotLevel)
        + (if s.pactKeeperRodUsed then 0 else cfg.warlockSlotLevel * PactRodSpellSlotsGain)
        + (if s.bloodWellVialUsed then 0 else Min(BloodVialSorceryPointsGain, cfg.sorceryPointsTotal))
  }

  /** Points held, points paid for units so far, and points still to come. */
  function Budget(s: RestState, cfg: Config): int {
    s.sorceryPoints + SpentPoints(s.spells) + FutureGain(s, cfg)
  }

  /** The game's sanity conditions the bound relies on. */
  predicate Sane(cfg: Config) {
    cfg.warlockSlotLevel >= 0 && cfg.warlockSlotNumberTotal >= 0
  }

  lemma MulMono(a: int, b: int, c: int)
    requires a <= b && c >= 0
    ensures a * c <= b * c
  {
  }

  lemma MulNonneg(a: int, b: int)
    requires a >= 0 && b >= 0
    ensures a * b >= 0
  {
  }

  /** Equal counts mean equal points paid. */
  lemma SameLevelsSamePoints(a: CoffeeResult, b: CoffeeResult)
    requires SameCounts(a, b)
    ensures SpentPoints(a) == SpentPoints(b)
  {
  }

  /** The part of the budget that does not depend on the clock. */
  lemma BudgetSameHour(s: RestState, t: RestState, cfg: Config, slotGain: int, pointGain: int)
    requires s.hour < cfg.sleepHours && t.hour == s.hour
    requires Sane(cfg)
    requires t.warlockSlots <= s.warlockSlots + slotGain
    requires t.sorceryPoints + SpentPoints(t.spells) <= s.sorceryPoints + SpentPoints(s.spells) + pointGain
    requires slotGain * cfg.warlockSlotLevel + pointGain
             <= (if s.pactKeeperRodUsed && !t.pactKeeperRodUsed then -cfg.warlockSlotLevel * PactRodSpellSlotsGain else 0)
                + (if t.pactKeeperRodUsed && !s.pactKeeperRodUsed then cfg.warlockSlotLevel * PactRodSpellSlotsGain else 0)
                + (if t.bloodWellVialUsed && !s.bloodWellVialUsed then Min(BloodVialSorceryPointsGain, cfg.sorceryPointsTotal) else 0)
    requires s.pactKeeperRodUsed ==> t.pactKeeperRodUsed
    requires s.bloodWellVialUsed ==> t.bloodWellVialUsed
    ensures Budget(t, cfg) <= Budget(s, cfg)
  {
    MulMono(t.warlockSlots, s.warlockSlots + slotGain, cfg.warlockSlotLevel);
  }

  lemma ConvertSlotKeepsBudget(s: RestState, cfg: Config)
    requires Sane(cfg) && Bounded(s, cfg) && s.hour < cfg.sleepHours && Enabled(s, ConvertSlot, cfg)
    ensures Budget(Apply(s, ConvertSlot, cfg), cfg) <= Budget(s, cfg)
  {
    var t := Apply(s, ConvertSlot, cfg);
    ApplyEffect(s, ConvertSlot, cfg);
    SameLevelsSamePoints(t.spells, s.spells);
    BudgetSameHour(s, t, cfg, -1, cfg.warlockSlotLevel);
  }

  lemma CreateSpellKeepsBudget(s: RestState, level: int, cfg: Config)
    requires Sane(cfg) && Bounded(s, cfg) && s.hour < cfg.sleepHours && Enabled(s, CreateSpell(level), cfg)
    ensures Budget(Apply(s, CreateSpell(level), cfg), cfg) <= Budget(s, cfg)
  {
    var t := Apply(s, CreateSpell(level), cfg);
    ApplyEffect(s, CreateSpell(level), cfg);
    BudgetSameHour(s, t, cfg, 0, 0);
  }

  lemma DrinkVialKeepsBudget(s: RestState, cfg: Config)
    requires Sane(cfg) && Bounded(s, cfg) && s.hour < cfg.sleepHours && Enabled(s, DrinkVial, cfg)
    ensures Budget(Apply(s, DrinkVial, cfg), cfg) <= Budget(s, cfg)
  {
    var t := Apply(s, DrinkVial, cfg);
    ApplyEffect(s, DrinkVial, cfg);
    SameLevelsSamePoints(t.spells, s.spells);
    BudgetSameHour(s, t, cfg, 0, Min(BloodVialSorceryPointsGain, cfg.sorceryPointsTotal));
  }

  lemma UseRodKeepsBudget(s: RestState, cfg: Config)
    requires Sane(cfg) && Bounded(s, cfg) && s.hour < cfg.sleepHours && Enabled(s, UseRod, cfg)
    ensures Budget(Apply(s, UseRod, cfg), cfg) <= Budget(s, cfg)
  {
    var t := Apply(s, UseRod, cfg);
    ApplyEffect(s, UseRod, cfg);
    SameLevelsSamePoints(t.spells, s.spells);
    BudgetSameHour(s, t, cfg, PactRodSpellSlotsGain, 0);
  }

  lemma AdvanceHourKeepsBudget(s: RestState, cfg: Config)
    requires Sane(cfg) && Bounded(s, cfg) && s.hour < cfg.sleepHours
    ensures Budget(Apply(s, AdvanceHour, cfg), cfg) <= Budget(s, cfg)
  {
    var t := Apply(s, AdvanceHour, cfg);
    var L, T := cfg.warlockSlotLevel, cfg.warlockSlotNumberTotal;
    var rest := cfg.sleepHours - s.hour - 1;
    ApplyEffect(s, AdvanceHour, cfg);
    SameLevelsSamePoints(t.spells, s.spells);
    MulNonneg(s.warlockSlots, L);
    MulNonneg(T, L);
    if t.hour < cfg.sleepHours {
      assert rest * (T * L) == T * L + (rest - 1) * (T * L);
    } else {
      MulNonneg(rest, T * L);
    }
  }

  /** No move of an explored state raises the budget. */
  lemma MoveKeepsBudget(s: RestState, m: Move, cfg: Config)
    requires Sane(cfg) && Bounded(s, cfg) && s.hour < cfg.sleepHours && Enabled(s, m, cfg)
    ensures Bounded(Apply(s, m, cfg), cfg)
    ensures Budget(Apply(s, m, cfg), cfg) <= Budget(s, cfg)
  {
    match m
    case ConvertSlot => ConvertSlotKeepsBudget(s, cfg);
    case CreateSpell(level) => CreateSpellKeepsBudget(s, level, cfg);
    case DrinkVial => DrinkVialKeepsBudget(s, cfg);
    case UseRod => UseRodKeepsBudget(s, cfg);
    case AdvanceHour => AdvanceHourKeepsBudget(s, cfg);
  }

  /** Along an explored timeline the budget never grows, and the pools stay within bounds. */
  lemma {:induction false} TimelineKeepsBudget(s: RestState, moves: seq<Move>, cfg: Config)
    requires Sane(cfg) && Bounded(s, cfg) && SearchRun(s, moves, cfg)
    ensures Bounded(Final(s, moves, cfg), cfg)
    ensures Budget(Final(s, moves, cfg), cfg) <= Budget(s, cfg)
    decreases |moves|
  {
    if moves != [] {
      MoveKeepsBudget(s, moves[0], cfg);
      TimelineKeepsBudget(Apply(s, moves[0], cfg), moves[1..], cfg);
    }
  }

  lemma FutureGainNonneg(u: RestState, cfg: Config)
    requires Sane(cfg) && Bounded(u, cfg)
    ensures FutureGain(u, cfg) >= 0
  {
    if u.hour < cfg.sleepHours {
      MulNonneg(u.warlockSlots, cfg.warlockSlotLevel);
      MulNonneg(cfg.warlockSlotNumberTotal, cfg.warlockSlotLevel);
      MulNonneg(cfg.sleepHours - u.hour - 1, cfg.warlockSlotNumberTotal * cfg.warlockSlotLevel);
    }
  }

  /** At the start the budget is at most the current points plus the estimate. */
  lemma InitialBudget(s0: RestState, cfg: Config, pactKeeperRod: bool, bloodWellVial: bool)
    requires s0.hour == 0 && cfg.sleepHours >= 1
    requires s0.pactKeeperRodUsed == !pactKeeperRod && s0.bloodWellVialUsed == !bloodWellVial
    requires 0 <= s0.warlockSlots <= cfg.warlockSlotNumberTotal && cfg.warlockSlotLevel >= 0
    ensures Budget(s0, cfg)
            <= s0.sorceryPoints + SpentPoints(s0.spells) + PotentialPoints(cfg.warlockSlotNumberTotal, cfg.warlockSlotLevel,
                                                  cfg.sorceryPointsTotal, pactKeeperRod, bloodWellVial, cfg.sleepHours)
  {
    var T, L, H := cfg.warlockSlotNumberTotal, cfg.warlockSlotLevel, cfg.sleepHours;
    var items := (if pactKeeperRod then L * PactRodSpellSlotsGain else 0)
                 + (if bloodWellVial then Min(BloodVialSorceryPointsGain, cfg.sorceryPointsTotal) else 0);
    var now, later := s0.warlockSlots * L, (H - 1) * (T * L);
    assert FutureGain(s0, cfg) == now + later + items;
    assert PotentialPoints(T, L, cfg.sorceryPointsTotal, pactKeeperRod, bloodWellVial, H) == H * T * L + items;
    assert now <= T * L by { MulMono(s0.warlockSlots, T, L); }
    assert later + T * L == H * T * L by { HoursProduct(H, T, L); }
  }

  lemma HoursProduct(h: int, t: int, l: int)
    ensures (h - 1) * (t * l) + t * l == h * t * l
  {
    assert h * t * l == h * (t * l);
  }

  /**
    The estimate is an upper bound on what the hours yield: from a start at hour 0 with the
    items' flags set as the entry point sets them and at most a full set of slots, every
    explored timeline ends holding, plus what it paid for units, at most what the start held
    plus the estimate.
   */
  lemma EstimateBoundsTimelines(s0: RestState, cfg: Config, pactKeeperRod: bool, bloodWellVial: bool, moves: seq<Move>)
    requires s0.hour == 0 && cfg.sleepHours >= 1
    requires s0.pactKeeperRodUsed == !pactKeeperRod && s0.bloodWellVialUsed == !bloodWellVial
    requires 0 <= s0.warlockSlots <= cfg.warlockSlotNumberTotal && cfg.warlockSlotLevel >= 0
    requires 0 <= s0.sorceryPoints <= cfg.sorceryPointsTotal
    requires SearchRun(s0, moves, cfg)
    ensures Final(s0, moves, cfg).sorceryPoints + SpentPoints(Final(s0, moves, cfg).spells)
            <= s0.sorceryPoints + SpentPoints(s0.spells) + PotentialPoints(cfg.warlockSlotNumberTotal, cfg.warlockSlotLevel,
                                                  cfg.sorceryPointsTotal, pactKeeperRod, bloodWellVial, cfg.sleepHours)
  {
    InitialBudget(s0, cfg, pactKeeperRod, bloodWellVial);
    TimelineHeldWithinBudget(s0, moves, cfg);
  }

  /** What a timeline ends up holding or having paid for is within the budget it started with. */
  lemma TimelineHeldWithinBudget(s: RestState, moves: seq<Move>, cfg: Config)
    requires Sane(cfg) && Bounded(s, cfg) && SearchRun(s, moves, cfg)
    ensures Final(s, moves, cfg).sorceryPoints + SpentPoints(Final(s, moves, cfg).spells) <= Budget(s, cfg)
  {
    TimelineKeepsBudget(s, moves, cfg);
    HeldWithinBudget(Final(s, moves, cfg), cfg);
  }

  /** What is held and already paid for is part of the budget. */
  lemma HeldWithinBudget(u: RestState, cfg: Config)
    requires Sane(cfg) && Bounded(u, cfg)
    ensures u.sorceryPoints + SpentPoints(u.spells) <= Budget(u, cfg)
  {
    FutureGainNonneg(u, cfg);
  }

  /** The configuration of the witness below: one level-2 slot, 10 points at most, one hour, floors 2 and 0. */
  predicate WitnessConfig(cfg: Config) {
    && cfg.warlockSlotNumberTotal == 1 && cfg.warlockSlotLevel == 2 && cfg.sorceryPointsTotal == 10
    && cfg.sleepHours == 1 && cfg.minimumSorceryPoints == 2 && cfg.minimumWarlockSlots == 0
  }

  /** `n` level-1 slots and nothing above level 1. */
  predicate Made(r: CoffeeResult, n: int) {
    r.level1 == n && r.level2 == 0 && r.level3 == 0 && r.level4 == 0 && r.level5 == 0
  }

  /** Trading the one restored slot of the witness: 4 points, no slot left, nothing made yet. */
  lemma WitnessTrade(u: RestState, cfg: Config) returns (traded: RestState)
    requires WitnessConfig(cfg)
    requires u.sorceryPoints == 2 && u.warlockSlots == 1 && Made(u.spells, 0)
    ensures traded == Trade(CloneState(u), 1, cfg)
    ensures traded.sorceryPoints == 4 && traded.warlockSlots == 0 && Made(traded.spells, 0)
  {
    traded := Trade(CloneState(u), 1, cfg);
  }

  /** Converting 4 points over a floor of 2 buys exactly one level-1 slot. */
  lemma WitnessConvert(traded: RestState) returns (n: RestState)
    requires traded.sorceryPoints == 4 && Made(traded.spells, 0)
    ensures n == ConvertSorceryPointsToSpellSlots(traded, 2)
    ensures n.sorceryPoints == 2 && n.warlockSlots == traded.warlockSlots && Made(n.spells, 1)
  {
    CostTable();
    assert FirstAffordable(4, 2, MaxSpellLevel) == 1;
    var once := ConvertOnce(traded, 1);
    assert once.sorceryPoints == 2 && Made(once.spells, 1);
    assert FirstAffordable(2, 2, MaxSpellLevel) == 0;
    GreedyStep(traded, 2);
    GreedyStep(once, 2);
    n := once;
  }

  /** At the end of that rest, 2 points, one slot and nothing made: trading the slot buys a level-1 slot. */
  lemma WitnessEndOfRest(u: RestState, cfg: Config) returns (n: RestState)
    requires WitnessConfig(cfg)
    requires u.sorceryPoints == 2 && u.warlockSlots == 1 && Made(u.spells, 0)
    ensures n == SpendAndConvert(u, 1, cfg)
    ensures MeetsFloors(n, cfg) && n.sorceryPoints == 2 && n.warlockSlots == 0 && Made(n.spells, 1)
  {
    var traded := WitnessTrade(u, cfg);
    n := WitnessConvert(traded);
  }

  /** The same, as an outcome of the end of the rest from a completed state with one slot left. */
  lemma WitnessEndOutcome(f: RestState, cfg: Config) returns (k: CoffeeResult)
    requires WitnessConfig(cfg)
    requires f.sorceryPoints == 2 && f.warlockSlots == 1 && Made(f.spells, 0)
    ensures k in EndOutcomes(f, cfg)
    ensures Made(k, 1) && k.remainingSorceryPoints == 2 && k.remainingWarlockSlots == 0
  {
    var u := Restored(f, cfg);
    assert u.warlockSlots - cfg.minimumWarlockSlots == 1;
    var n := WitnessEndOfRest(u, cfg);
    SpendChosen(u, 1, 1, cfg);
    k := Key(Report(n));
  }

  /** The timeline "slot into points, end the hour" completes with 2 points and one slot restored. */
  lemma WitnessTimeline(s0: RestState, cfg: Config) returns (moves: seq<Move>)
    requires WitnessConfig(cfg) && cfg.sorceryPointsCurrent == 0
    requires s0.hour == 0 && s0.warlockSlots == 1 && s0.sorceryPoints == 0
    requires s0.pactKeeperRodUsed && s0.bloodWellVialUsed && Made(s0.spells, 0)
    ensures moves == [ConvertSlot, AdvanceHour] && SearchRun(s0, moves, cfg)
    ensures var f := Final(s0, moves, cfg);
      Completes(f, cfg) && f.sorceryPoints == 2 && f.warlockSlots == 1 && Made(f.spells, 0)
  {
    CostTable();
    moves := [ConvertSlot, AdvanceHour];
    var s1 := Apply(s0, ConvertSlot, cfg);
    assert s1.warlockSlots == 0 && s1.sorceryPoints == 2 && s1.hour == 0;
    var s2 := Apply(s1, AdvanceHour, cfg);
    assert s2.warlockSlots == 1 && s2.sorceryPoints == 2 && s2.hour == 1;
    assert SearchRun(s2, [], cfg);
    assert SearchRun(s1, moves[1..], cfg);
    assert Final(s1, moves[1..], cfg) == s2;
  }

  /** With one level-2 slot held, no items, no points, one hour and a floor of 2 the estimate fails. */
  lemma PrecheckRejectsWitness()
    ensures !CanGenerateAtLeastOneSlot(1, 2, 10, 0, false, false, 1, 2)
    ensures CalculateSpellSlots(1, 1, 2, 10, 0, false, false, 1, 2, 0) == []
  {
    CostTable();
  }

  /**
    The estimate leaves out the slot held at the start: with the witness configuration and no
    items the entry point reports nothing, although the timeline above ends in a state whose
    end-of-rest trade buys a level-1 slot and keeps the floor.
   */
  lemma EstimateMissesStartingSlots(s0: RestState, cfg: Config)
    requires WitnessConfig(cfg) && cfg.sorceryPointsCurrent == 0
    requires s0.hour == 0 && s0.warlockSlots == 1 && s0.sorceryPoints == 0
    requires s0.pactKeeperRodUsed && s0.bloodWellVialUsed && Made(s0.spells, 0)
    ensures exists k :: Reachable(s0, k, cfg) && Made(k, 1) && k.remainingSorceryPoints == 2
  {
    var moves := WitnessTimeline(s0, cfg);
    var f := Final(s0, moves, cfg);
    var k := WitnessEndOutcome(f, cfg);
    assert Reachable(s0, k, cfg);
  }
}
