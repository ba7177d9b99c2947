/**
  The per-hour actions of the rest search (the four guarded branches of `SimulateActions`
  and the hour advance), each as a pure function on a cloned state, plus timelines of them.
 */
module Transitions {
  import opened Wrappers
  import opened Constants
  import opened CoffeeResults
  import opened CoffeeState

  /** The search's fixed parameters. */
  datatype Config = Config(
    warlockSlotNumberTotal: int,
    warlockSlotLevel: int,
    sorceryPointsTotal: int,
    sorceryPointsCurrent: int,
    sleepHours: int,
    minimumSorceryPoints: int,
    minimumWarlockSlots: int)

  datatype Move =
    | ConvertSlot               // one Warlock slot into sorcery points
    | CreateSpell(level: int)   // sorcery points into one universal slot of `level`
    | DrinkVial                 // the Blood Well Vial
    | UseRod                    // the Pact Keeper Rod
    | AdvanceHour               // the hour ends and Warlock slots come back

  /** The guard under which the search takes each branch. */
  predicate Enabled(s: RestState, m: Move, cfg: Config) {
    match m
    case ConvertSlot => s.warlockSlots > 0 && s.sorceryPoints < cfg.sorceryPointsTotal
    case CreateSpell(level) => IsSpellLevel(level) && s.sorceryPoints - GetSpellSlotCost(level) >= 0
    case DrinkVial => !s.bloodWellVialUsed && s.sorceryPoints < cfg.sorceryPointsTotal
    case UseRod => !s.pactKeeperRodUsed && s.warlockSlots < cfg.warlockSlotNumberTotal
    case AdvanceHour => s.hour < cfg.sleepHours
  }

  function Min(a: int, b: int): int {
    if a <= b then a else b
  }

  function ApplyConvertSlot(s: RestState, cfg: Config): RestState {
    var n := CloneState(s);
    var raw := n.sorceryPoints + cfg.warlockSlotLevel;
    var gained := if raw > cfg.sorceryPointsTotal then cfg.warlockSlotLevel - (raw - cfg.sorceryPointsTotal)
                  else cfg.warlockSlotLevel;
    n.(warlockSlots := n.warlockSlots - 1,
       sorceryPoints := if raw > cfg.sorceryPointsTotal then cfg.sorceryPointsTotal else raw,
       actions := n.actions + [Action(ConvertWarlockSlotIntoSorceryPoints, s.hour, None, Some(gained), Some(-1))])
  }

  function ApplyCreateSpell(s: RestState, level: int): RestState
    requires IsSpellLevel(level)
  {
    var n := CloneState(s);
    var cost := GetSpellSlotCost(level);
    n.(sorceryPoints := n.sorceryPoints - cost,
       spells := AddSpell(n.spells, level),
       actions := n.actions + [Action(ConvertSorceryPointsIntoSpellSlot, s.hour, Some(level), Some(cost), None)])
  }

  function ApplyDrinkVial(s: RestState, cfg: Config): RestState {
    var recovered := Min(BloodVialSorceryPointsGain, cfg.sorceryPointsTotal - s.sorceryPoints);
    var n := CloneState(s);
    n.(bloodWellVialUsed := true,
       sorceryPoints := n.sorceryPoints + recovered,
       actions := n.actions + [Action(UseBloodVial, s.hour, None, Some(recovered), None)])
  }

  function ApplyUseRod(s: RestState, cfg: Config): RestState {
    var n := CloneState(s);
    var raised := n.warlockSlots + PactRodSpellSlotsGain;
    n.(pactKeeperRodUsed := true,
       warlockSlots := if raised > cfg.warlockSlotNumberTotal then cfg.warlockSlotNumberTotal else raised,
       actions := n.actions + [Action(UsePactRod, s.hour, None, None, Some(PactRodSpellSlotsGain))])
  }

  function ApplyAdvanceHour(s: RestState, cfg: Config): RestState {
    var n := CloneState(s).(hour := s.hour + 1);
    if n.warlockSlots < cfg.warlockSlotNumberTotal then
      n.(warlockSlots := cfg.warlockSlotNumberTotal,
         actions := n.actions + [Action(RestoreWarlockSlots, s.hour, None, None, Some(cfg.warlockSlotNumberTotal))])
    else n
  }

  /** Both pools within their totals (the clamps' invariant, upper side). */
  predicate WithinTotals(s: RestState, cfg: Config) {
    s.warlockSlots <= cfg.warlockSlotNumberTotal && s.sorceryPoints <= cfg.sorceryPointsTotal
  }

  /** Both pools within `[0, total]`. */
  predicate Bounded(s: RestState, cfg: Config) {
    WithinTotals(s, cfg) && 0 <= s.warlockSlots && 0 <= s.sorceryPoints
  }

  function Apply(s: RestState, m: Move, cfg: Config): (t: RestState)
    requires Enabled(s, m, cfg)
    // only the hour advance moves the clock, and by exactly one hour
    ensures t.hour == if m.AdvanceHour? then s.hour + 1 else s.hour
    // an item flag is raised by its own move and never lowered
    ensures t.pactKeeperRodUsed == (s.pactKeeperRodUsed || m.UseRod?)
    ensures t.bloodWellVialUsed == (s.bloodWellVialUsed || m.DrinkVial?)
    // the clamps keep both pools within their totals, and within [0, total] for a non-negative slot level
    ensures WithinTotals(s, cfg) ==> WithinTotals(t, cfg)
    ensures Bounded(s, cfg) && cfg.warlockSlotLevel >= 0 ==> Bounded(t, cfg)
    // one log entry per move, except an hour that ends with all slots already present
    ensures s.actions <= t.actions && |t.actions| <= |s.actions| + 1
    ensures !m.AdvanceHour? ==> |t.actions| == |s.actions| + 1
    ensures Clean(t)
  {
    match m
    case ConvertSlot => ApplyConvertSlot(s, cfg)
    case CreateSpell(level) => ApplyCreateSpell(s, level)
    case DrinkVial => ApplyDrinkVial(s, cfg)
    case UseRod => ApplyUseRod(s, cfg)
    case AdvanceHour => ApplyAdvanceHour(s, cfg)
  }

  /** What each move does to the two pools and the produced counts. */
  lemma ApplyEffect(s: RestState, m: Move, cfg: Config)
    requires Enabled(s, m, cfg)
    ensures var t := Apply(s, m, cfg);
      match m
      case ConvertSlot =>
        && t.warlockSlots == s.warlockSlots - 1
        && t.sorceryPoints == Min(s.sorceryPoints + cfg.warlockSlotLevel, cfg.sorceryPointsTotal)
        && SameCounts(t.spells, s.spells)
      case CreateSpell(level) =>
        && t.warlockSlots == s.warlockSlots
        && t.sorceryPoints == s.sorceryPoints - GetSpellSlotCost(level) >= 0
        && SpentPoints(t.spells) == SpentPoints(s.spells) + GetSpellSlotCost(level)
        && TotalSpellSlots(t.spells) == TotalSpellSlots(s.spells) + 1
      case DrinkVial =>
        && t.warlockSlots == s.warlockSlots
        && t.sorceryPoints == Min(s.sorceryPoints + BloodVialSorceryPointsGain, cfg.sorceryPointsTotal)
        && SameCounts(t.spells, s.spells)
      case UseRod =>
        && t.sorceryPoints == s.sorceryPoints
        && t.warlockSlots == Min(s.warlockSlots + PactRodSpellSlotsGain, cfg.warlockSlotNumberTotal)
        && SameCounts(t.spells, s.spells)
      case AdvanceHour =>
        && t.sorceryPoints == s.sorceryPoints
        && t.warlockSlots == (if s.warlockSlots < cfg.warlockSlotNumberTotal then cfg.warlockSlotNumberTotal
                              else s.warlockSlots)
        && SameCounts(t.spells, s.spells)
  {
  }

  /** The search's termination measure: hours left, rod unused, vial unused, slots, points. */
  function Measure(s: RestState, cfg: Config): seq<int> {
    [cfg.sleepHours - s.hour,
     if s.pactKeeperRodUsed then 0 else 1,
     if s.bloodWellVialUsed then 0 else 1,
     s.warlockSlots,
     s.sorceryPoints]
  }

  /** Lexicographic descent in a well-founded order: equal up to `k`, then a smaller non-negative entry. */
  predicate LexLess(a: seq<int>, b: seq<int>) {
    |a| == |b| && exists k :: 0 <= k < |a| && a[..k] == b[..k] && 0 <= a[k] < b[k]
  }

  /** Every branch of the search strictly descends in the measure. */
  lemma MoveDecreasesMeasure(s: RestState, m: Move, cfg: Config)
    requires Enabled(s, m, cfg)
    ensures LexLess(Measure(Apply(s, m, cfg), cfg), Measure(s, cfg))
  {
    var a, b := Measure(Apply(s, m, cfg), cfg), Measure(s, cfg);
    match m
    case AdvanceHour => assert a[..0] == b[..0];
    case UseRod => assert a[..1] == b[..1];
    case DrinkVial => assert a[..2] == b[..2];
    case ConvertSlot => assert a[..3] == b[..3];
    case CreateSpell(_) => assert a[..4] == b[..4];
  }

  /** A timeline: every move enabled in the state the previous ones lead to. */
  predicate ValidRun(s: RestState, moves: seq<Move>, cfg: Config)
    decreases |moves|
  {
    moves == [] || (Enabled(s, moves[0], cfg) && ValidRun(Apply(s, moves[0], cfg), moves[1..], cfg))
  }

  function Run(s: RestState, moves: seq<Move>, cfg: Config): RestState
    requires ValidRun(s, moves, cfg)
    decreases |moves|
  {
    if moves == [] then s else Run(Apply(s, moves[0], cfg), moves[1..], cfg)
  }

  function Count(moves: seq<Move>, m: Move): nat {
    if moves == [] then 0 else (if moves[0] == m then 1 else 0) + Count(moves[1..], m)
  }

  /** Along any timeline the rod and the vial are each used at most once, and not at all if spent. */
  lemma {:induction false} ItemsUsedAtMostOnce(s: RestState, moves: seq<Move>, cfg: Config)
    requires ValidRun(s, moves, cfg)
    ensures Count(moves, UseRod) <= (if s.pactKeeperRodUsed then 0 else 1)
    ensures Count(moves, DrinkVial) <= (if s.bloodWellVialUsed then 0 else 1)
    ensures Run(s, moves, cfg).pactKeeperRodUsed == (s.pactKeeperRodUsed || Count(moves, UseRod) > 0)
    ensures Run(s, moves, cfg).bloodWellVialUsed == (s.bloodWellVialUsed || Count(moves, DrinkVial) > 0)
    decreases |moves|
  {
    if moves != [] {
      ItemsUsedAtMostOnce(Apply(s, moves[0], cfg), moves[1..], cfg);
    }
  }

  /** The clock only moves by hour advances, one hour each. */
  lemma {:induction false} RunHour(s: RestState, moves: seq<Move>, cfg: Config)
    requires ValidRun(s, moves, cfg)
    ensures Run(s, moves, cfg).hour == s.hour + Count(moves, AdvanceHour)
    decreases |moves|
  {
    if moves != [] {
      RunHour(Apply(s, moves[0], cfg), moves[1..], cfg);
    }
  }

  /** Starting within `[0, total]`, every state of every timeline stays there. */
  lemma {:induction false} RunStaysBounded(s: RestState, moves: seq<Move>, cfg: Config, k: nat)
    requires ValidRun(s, moves, cfg)
    requires Bounded(s, cfg) && cfg.warlockSlotLevel >= 0
    requires k <= |moves|
    ensures ValidRun(s, moves[..k], cfg)
    ensures Bounded(Run(s, moves[..k], cfg), cfg)
    decreases |moves|
  {
    if k > 0 {
      assert moves[..k][0] == moves[0];
      assert moves[..k][1..] == moves[1..][..k - 1];
      RunStaysBounded(Apply(s, moves[0], cfg), moves[1..], cfg, k - 1);
    } else {
      assert moves[..k] == [];
    }
  }
}
