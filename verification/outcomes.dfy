/**
  What the search reports, independently of the order it explores branches in and of which
  log ends up stored for a value: first as plain sets of values mirroring the branches, then
  as the values of the end-of-rest outcomes of every timeline the search lets through.
 */
module SearchOutcomes {
  import opened Wrappers
  import opened Constants
  import opened CoffeeResults
  import opened CoffeeState
  import opened ResultSet
  import opened Transitions
  import opened Greedy
  import opened Calculator

  /** What one spend choice from the restored state `u` reports: its value, if it meets the floors. */
  function SpendValue(u: RestState, spend: int, cfg: Config): Option<CoffeeResult> {
    var n := SpendAndConvert(u, spend, cfg);
    if MeetsFloors(n, cfg) then Some(Key(Report(n))) else None
  }

  function SpendValues(u: RestState, cfg: Config): int -> Option<CoffeeResult> {
    spend => SpendValue(u, spend, cfg)
  }

  /** The values a family of choices `0..hi` reports. */
  function Collected(f: int -> Option<CoffeeResult>, hi: int): set<CoffeeResult> {
    set i | 0 <= i <= hi && f(i).Some? :: f(i).value
  }

  /** The last choice of a range contributes its own value, if any. */
  lemma CollectedSplit(f: int -> Option<CoffeeResult>, hi: int)
    requires hi >= 0
    ensures Collected(f, hi) == (if f(hi).Some? then {f(hi).value} else {}) + Collected(f, hi - 1)
  {
    forall k | k in Collected(f, hi) ensures k in Collected(f, hi - 1) || (f(hi).Some? && k == f(hi).value) {
      var i :| 0 <= i <= hi && f(i).Some? && f(i).value == k;
      if i < hi {
        assert k in Collected(f, hi - 1);
      }
    }
    if f(hi).Some? {
      assert f(hi).value in Collected(f, hi);
    }
  }

  /** The values the spend choices `0..hi` report, from the restored state `u`. */
  function SpendOutcomes(u: RestState, hi: int, cfg: Config): set<CoffeeResult> {
    Collected(SpendValues(u, cfg), hi)
  }

  /** The values the end of the rest reports from `s`. */
  function EndOutcomes(s: RestState, cfg: Config): set<CoffeeResult> {
    var u := Restored(s, cfg);
    SpendOutcomes(u, u.warlockSlots - cfg.minimumWarlockSlots, cfg)
  }

  /** The values the search reports from `s`, as a union over its branches. */
  function Outcomes(s: RestState, cfg: Config): set<CoffeeResult>
    decreases cfg.sleepHours - s.hour, if s.pactKeeperRodUsed then 0 else 1,
              if s.bloodWellVialUsed then 0 else 1, s.warlockSlots, s.sorceryPoints, 6
  {
    if Pruned(s, cfg) then {}
    else if s.hour >= cfg.sleepHours then EndOutcomes(s, cfg)
    else
      (if Enabled(s, ConvertSlot, cfg) then Outcomes(Apply(s, ConvertSlot, cfg), cfg) else {})
      + TierOutcomes(s, MaxSpellLevel, cfg)
      + (if Enabled(s, DrinkVial, cfg) then Outcomes(Apply(s, DrinkVial, cfg), cfg) else {})
      + (if Enabled(s, UseRod, cfg) then Outcomes(Apply(s, UseRod, cfg), cfg) else {})
      + Outcomes(Apply(s, AdvanceHour, cfg), cfg)
  }

  function TierOutcomes(s: RestState, level: int, cfg: Config): set<CoffeeResult>
    requires 0 <= level <= MaxSpellLevel
    decreases cfg.sleepHours - s.hour, if s.pactKeeperRodUsed then 0 else 1,
              if s.bloodWellVialUsed then 0 else 1, s.warlockSlots, s.sorceryPoints, level
  {
    if level == 0 then {}
    else
      (if Enabled(s, CreateSpell(level), cfg) then Outcomes(Apply(s, CreateSpell(level), cfg), cfg) else {})
      + TierOutcomes(s, level - 1, cfg)
  }

  /** The value one spend choice reports, if it meets the floors. */
  function SpendOutcome(u: RestState, spend: int, cfg: Config): set<CoffeeResult> {
    var n := SpendAndConvert(u, spend, cfg);
    if MeetsFloors(n, cfg) then {Key(Report(n))} else {}
  }

  lemma SpendOutcomesSplit(u: RestState, hi: int, cfg: Config)
    requires hi >= 0
    ensures SpendOutcomes(u, hi, cfg) == SpendOutcome(u, hi, cfg) + SpendOutcomes(u, hi - 1, cfg)
  {
    CollectedSplit(SpendValues(u, cfg), hi);
    assert SpendValues(u, cfg)(hi) == SpendValue(u, hi, cfg);
  }

  /** A spend choice in range that meets the floors has its value reported. */
  lemma SpendChosen(u: RestState, spend: int, hi: int, cfg: Config)
    requires 0 <= spend <= hi && MeetsFloors(SpendAndConvert(u, spend, cfg), cfg)
    ensures Key(Report(SpendAndConvert(u, spend, cfg))) in SpendOutcomes(u, hi, cfg)
  {
    var f := SpendValues(u, cfg);
    assert f(spend) == SpendValue(u, spend, cfg) == Some(Key(Report(SpendAndConvert(u, spend, cfg))));
  }

  /** A reported value comes from a spend choice in range that meets the floors. */
  lemma SpendChoice(u: RestState, hi: int, cfg: Config, k: CoffeeResult) returns (spend: int)
    requires k in SpendOutcomes(u, hi, cfg)
    ensures 0 <= spend <= hi && MeetsFloors(SpendAndConvert(u, spend, cfg), cfg)
    ensures k == Key(Report(SpendAndConvert(u, spend, cfg)))
  {
    var f := SpendValues(u, cfg);
    spend :| 0 <= spend <= hi && f(spend).Some? && f(spend).value == k;
    assert f(spend) == SpendValue(u, spend, cfg);
  }

  /** The spend loop stores exactly the values of its choices. */
  lemma {:induction false} SpendLoopKeys(u: RestState, spend: int, acc: seq<CoffeeResult>, cfg: Config)
    ensures Keys(SpendLoop(u, spend, acc, cfg)) == Keys(acc) + SpendOutcomes(u, spend, cfg)
    decreases spend
  {
    if spend < 0 {
      assert SpendOutcomes(u, spend, cfg) == {};
    } else {
      var n := SpendAndConvert(u, spend, cfg);
      var acc' := Emit(n, acc, cfg);
      assert SpendLoop(u, spend, acc, cfg) == SpendLoop(u, spend - 1, acc', cfg);
      assert Keys(acc') == Keys(acc) + SpendOutcome(u, spend, cfg);
      SpendLoopKeys(u, spend - 1, acc', cfg);
      SpendOutcomesSplit(u, spend, cfg);
      UnionStep(Keys(acc), Keys(acc'), Keys(SpendLoop(u, spend - 1, acc', cfg)),
                SpendOutcome(u, spend, cfg), SpendOutcomes(u, spend - 1, cfg));
    }
  }

  lemma EndOfRestKeys(s: RestState, acc: seq<CoffeeResult>, cfg: Config)
    ensures Keys(EndOfRest(s, acc, cfg)) == Keys(acc) + EndOutcomes(s, cfg)
  {
    var u := Restored(s, cfg);
    SpendLoopKeys(u, u.warlockSlots - cfg.minimumWarlockSlots, acc, cfg);
  }

  lemma UnionChain<T>(k0: set<T>, k1: set<T>, k2: set<T>, k3: set<T>, k4: set<T>, k5: set<T>,
                      o1: set<T>, o2: set<T>, o3: set<T>, o4: set<T>, o5: set<T>)
    requires k1 == k0 + o1 && k2 == k1 + o2 && k3 == k2 + o3 && k4 == k3 + o4 && k5 == k4 + o5
    ensures k5 == k0 + (o1 + o2 + o3 + o4 + o5)
  {
  }

  function BranchOutcomes(s: RestState, m: Move, cfg: Config): set<CoffeeResult> {
    if Enabled(s, m, cfg) then Outcomes(Apply(s, m, cfg), cfg) else {}
  }

  lemma OutcomesUnfold(s: RestState, cfg: Config)
    requires !Pruned(s, cfg) && s.hour < cfg.sleepHours
    ensures Outcomes(s, cfg)
      == BranchOutcomes(s, ConvertSlot, cfg) + TierOutcomes(s, MaxSpellLevel, cfg) + BranchOutcomes(s, DrinkVial, cfg)
       + BranchOutcomes(s, UseRod, cfg) + BranchOutcomes(s, AdvanceHour, cfg)
  {
  }

  /** Whatever the order of exploration, the search stores exactly the values of `Outcomes`. */
  lemma {:induction false} SimulateKeys(s: RestState, acc: seq<CoffeeResult>, cfg: Config)
    ensures Keys(Simulate(s, acc, cfg)) == Keys(acc) + Outcomes(s, cfg)
    decreases cfg.sleepHours - s.hour, if s.pactKeeperRodUsed then 0 else 1,
              if s.bloodWellVialUsed then 0 else 1, s.warlockSlots, s.sorceryPoints, 7
  {
    if Pruned(s, cfg) {
    } else if s.hour >= cfg.sleepHours {
      EndOfRestKeys(s, acc, cfg);
    } else {
      var afterSlot := Explore(s, ConvertSlot, acc, cfg);
      var afterSpells := ConvertTiers(s, MaxSpellLevel, afterSlot, cfg);
      var afterVial := Explore(s, DrinkVial, afterSpells, cfg);
      var afterRod := Explore(s, UseRod, afterVial, cfg);
      BranchKeys(s, ConvertSlot, acc, cfg);
      TiersKeys(s, MaxSpellLevel, afterSlot, cfg);
      BranchKeys(s, DrinkVial, afterSpells, cfg);
      BranchKeys(s, UseRod, afterVial, cfg);
      BranchKeys(s, AdvanceHour, afterRod, cfg);
      OutcomesUnfold(s, cfg);
      UnionChain(Keys(acc), Keys(afterSlot), Keys(afterSpells), Keys(afterVial), Keys(afterRod),
                 Keys(Simulate(s, acc, cfg)),
                 BranchOutcomes(s, ConvertSlot, cfg), TierOutcomes(s, MaxSpellLevel, cfg),
                 BranchOutcomes(s, DrinkVial, cfg), BranchOutcomes(s, UseRod, cfg),
                 BranchOutcomes(s, AdvanceHour, cfg));
    }
  }

  lemma {:induction false} BranchKeys(s: RestState, m: Move, acc: seq<CoffeeResult>, cfg: Config)
    ensures Keys(Explore(s, m, acc, cfg)) == Keys(acc) + BranchOutcomes(s, m, cfg)
    decreases cfg.sleepHours - s.hour, if s.pactKeeperRodUsed then 0 else 1,
              if s.bloodWellVialUsed then 0 else 1, s.warlockSlots, s.sorceryPoints, 0
  {
    if Enabled(s, m, cfg) {
      SimulateKeys(Apply(s, m, cfg), acc, cfg);
    }
  }

  lemma {:induction false} TiersKeys(s: RestState, level: int, acc: seq<CoffeeResult>, cfg: Config)
    requires 0 <= level <= MaxSpellLevel
    ensures Keys(ConvertTiers(s, level, acc, cfg)) == Keys(acc) + TierOutcomes(s, level, cfg)
    decreases cfg.sleepHours - s.hour, if s.pactKeeperRodUsed then 0 else 1,
              if s.bloodWellVialUsed then 0 else 1, s.warlockSlots, s.sorceryPoints, level + 1
  {
    if level > 0 {
      var acc' := Explore(s, CreateSpell(level), acc, cfg);
      BranchKeys(s, CreateSpell(level), acc, cfg);
      TiersKeys(s, level - 1, acc', cfg);
      TierOutcomesUnfold(s, level, cfg);
      UnionStep(Keys(acc), Keys(acc'), Keys(ConvertTiers(s, level - 1, acc', cfg)),
                BranchOutcomes(s, CreateSpell(level), cfg), TierOutcomes(s, level - 1, cfg));
    }
  }

  lemma TierOutcomesUnfold(s: RestState, level: int, cfg: Config)
    requires 1 <= level <= MaxSpellLevel
    ensures TierOutcomes(s, level, cfg) == BranchOutcomes(s, CreateSpell(level), cfg) + TierOutcomes(s, level - 1, cfg)
  {
  }

  lemma UnionStep<T>(k0: set<T>, k1: set<T>, k2: set<T>, o1: set<T>, o2: set<T>)
    requires k1 == k0 + o1 && k2 == k1 + o2
    ensures k2 == k0 + (o1 + o2)
  {
  }

  /**
    A timeline the search explores: every state before a move is past the cut-off and before
    the end of the rest, and every move is one whose guard holds there.
   */
  predicate SearchRun(s: RestState, moves: seq<Move>, cfg: Config)
    decreases |moves|
  {
    moves == []
    || (&& !Pruned(s, cfg) && s.hour < cfg.sleepHours && Enabled(s, moves[0], cfg)
        && SearchRun(Apply(s, moves[0], cfg), moves[1..], cfg))
  }

  function Final(s: RestState, moves: seq<Move>, cfg: Config): RestState
    requires SearchRun(s, moves, cfg)
    decreases |moves|
  {
    if moves == [] then s else Final(Apply(s, moves[0], cfg), moves[1..], cfg)
  }

  /** A state where the search hands over to the end-of-rest resolver. */
  predicate Completes(u: RestState, cfg: Config) {
    !Pruned(u, cfg) && u.hour >= cfg.sleepHours
  }

  /** `k` is the value of an end-of-rest outcome of some timeline the search explores from `s`. */
  ghost predicate Reachable(s: RestState, k: CoffeeResult, cfg: Config) {
    exists moves :: SearchRun(s, moves, cfg) && Completes(Final(s, moves, cfg), cfg)
                    && k in EndOutcomes(Final(s, moves, cfg), cfg)
  }

  /** A timeline explored by the search is a timeline of the moves, ending where `Run` ends. */
  lemma {:induction false} SearchRunIsRun(s: RestState, moves: seq<Move>, cfg: Config)
    requires SearchRun(s, moves, cfg)
    ensures ValidRun(s, moves, cfg) && Final(s, moves, cfg) == Run(s, moves, cfg)
    decreases |moves|
  {
    if moves != [] {
      SearchRunIsRun(Apply(s, moves[0], cfg), moves[1..], cfg);
    }
  }

  /** Prefixing an explored timeline with an enabled move from an explored state. */
  lemma Extend(s: RestState, m: Move, k: CoffeeResult, cfg: Config)
    requires !Pruned(s, cfg) && s.hour < cfg.sleepHours && Enabled(s, m, cfg)
    requires Reachable(Apply(s, m, cfg), k, cfg)
    ensures Reachable(s, k, cfg)
  {
    var c := Apply(s, m, cfg);
    var moves :| SearchRun(c, moves, cfg) && Completes(Final(c, moves, cfg), cfg)
                 && k in EndOutcomes(Final(c, moves, cfg), cfg);
    var ms := Prepend(s, m, moves, cfg);
    assert SearchRun(s, ms, cfg) && Completes(Final(s, ms, cfg), cfg) && k in EndOutcomes(Final(s, ms, cfg), cfg);
  }

  /** One enabled move from an explored state, then an explored timeline, is an explored timeline. */
  lemma Prepend(s: RestState, m: Move, moves: seq<Move>, cfg: Config) returns (ms: seq<Move>)
    requires !Pruned(s, cfg) && s.hour < cfg.sleepHours && Enabled(s, m, cfg)
    requires SearchRun(Apply(s, m, cfg), moves, cfg)
    ensures ms == [m] + moves && SearchRun(s, ms, cfg)
    ensures Final(s, ms, cfg) == Final(Apply(s, m, cfg), moves, cfg)
  {
    ms := [m] + moves;
    assert ms[0] == m && ms[1..] == moves;
  }

  /** Soundness: every value of the reference comes from an explored timeline. */
  lemma {:induction false} OutcomeHasTimeline(s: RestState, k: CoffeeResult, cfg: Config)
    requires k in Outcomes(s, cfg)
    ensures Reachable(s, k, cfg)
    decreases cfg.sleepHours - s.hour, if s.pactKeeperRodUsed then 0 else 1,
              if s.bloodWellVialUsed then 0 else 1, s.warlockSlots, s.sorceryPoints, 7
  {
    assert !Pruned(s, cfg);
    if s.hour >= cfg.sleepHours {
      assert SearchRun(s, [], cfg) && Final(s, [], cfg) == s;
    } else {
      OutcomesUnfold(s, cfg);
      if k in BranchOutcomes(s, ConvertSlot, cfg) {
        BranchTimeline(s, ConvertSlot, k, cfg);
      } else if k in TierOutcomes(s, MaxSpellLevel, cfg) {
        TierTimeline(s, MaxSpellLevel, k, cfg);
      } else if k in BranchOutcomes(s, DrinkVial, cfg) {
        BranchTimeline(s, DrinkVial, k, cfg);
      } else if k in BranchOutcomes(s, UseRod, cfg) {
        BranchTimeline(s, UseRod, k, cfg);
      } else {
        BranchTimeline(s, AdvanceHour, k, cfg);
      }
    }
  }

  lemma {:induction false} BranchTimeline(s: RestState, m: Move, k: CoffeeResult, cfg: Config)
    requires !Pruned(s, cfg) && s.hour < cfg.sleepHours
    requires k in BranchOutcomes(s, m, cfg)
    ensures Reachable(s, k, cfg)
    decreases cfg.sleepHours - s.hour, if s.pactKeeperRodUsed then 0 else 1,
              if s.bloodWellVialUsed then 0 else 1, s.warlockSlots, s.sorceryPoints, 0
  {
    assert Enabled(s, m, cfg);
    OutcomeHasTimeline(Apply(s, m, cfg), k, cfg);
    Extend(s, m, k, cfg);
  }

  lemma {:induction false} TierTimeline(s: RestState, level: int, k: CoffeeResult, cfg: Config)
    requires 0 <= level <= MaxSpellLevel
    requires !Pruned(s, cfg) && s.hour < cfg.sleepHours
    requires k in TierOutcomes(s, level, cfg)
    ensures Reachable(s, k, cfg)
    decreases cfg.sleepHours - s.hour, if s.pactKeeperRodUsed then 0 else 1,
              if s.bloodWellVialUsed then 0 else 1, s.warlockSlots, s.sorceryPoints, level
  {
    assert level > 0;
    if k in BranchOutcomes(s, CreateSpell(level), cfg) {
      BranchTimeline(s, CreateSpell(level), k, cfg);
    } else {
      TierTimeline(s, level - 1, k, cfg);
    }
  }

  /** A unit of level `l` is among the branches the level loop from `level` down explores. */
  lemma {:induction false} TierIncluded(s: RestState, level: int, l: int, cfg: Config)
    requires 1 <= l <= level <= MaxSpellLevel && Enabled(s, CreateSpell(l), cfg)
    ensures Outcomes(Apply(s, CreateSpell(l), cfg), cfg) <= TierOutcomes(s, level, cfg)
    decreases level
  {
    if l < level {
      TierIncluded(s, level - 1, l, cfg);
    }
  }

  /** Every enabled move of a mid-rest state is explored. */
  lemma BranchIncluded(s: RestState, m: Move, cfg: Config)
    requires !Pruned(s, cfg) && s.hour < cfg.sleepHours && Enabled(s, m, cfg)
    ensures Outcomes(Apply(s, m, cfg), cfg) <= Outcomes(s, cfg)
  {
    OutcomesUnfold(s, cfg);
    if m.CreateSpell? {
      TierIncluded(s, MaxSpellLevel, m.level, cfg);
    } else {
      assert BranchOutcomes(s, m, cfg) == Outcomes(Apply(s, m, cfg), cfg);
    }
  }

  /** Completeness: every end-of-rest outcome of an explored timeline is in the reference. */
  lemma {:induction false} TimelineHasOutcome(s: RestState, moves: seq<Move>, k: CoffeeResult, cfg: Config)
    requires SearchRun(s, moves, cfg) && Completes(Final(s, moves, cfg), cfg)
    requires k in EndOutcomes(Final(s, moves, cfg), cfg)
    ensures k in Outcomes(s, cfg)
    decreases |moves|
  {
    if moves != [] {
      TimelineHasOutcome(Apply(s, moves[0], cfg), moves[1..], k, cfg);
      BranchIncluded(s, moves[0], cfg);
    }
  }

  /** The reference is exactly the set of values the explored timelines end in. */
  lemma OutcomesAreTimelineOutcomes(s: RestState, k: CoffeeResult, cfg: Config)
    ensures k in Outcomes(s, cfg) <==> Reachable(s, k, cfg)
  {
    if k in Outcomes(s, cfg) {
      OutcomeHasTimeline(s, k, cfg);
    }
    if Reachable(s, k, cfg) {
      var moves :| SearchRun(s, moves, cfg) && Completes(Final(s, moves, cfg), cfg)
                   && k in EndOutcomes(Final(s, moves, cfg), cfg);
      TimelineHasOutcome(s, moves, k, cfg);
    }
  }

  /**
    The entry point reports, one result per value, exactly the end-of-rest outcomes of the
    timelines the search explores from the initial state.
   */
  lemma CalculateSpellSlotsReportsTimelines(
    warlockSlotNumberTotal: int, warlockSlotNumberCurrent: int, warlockSlotLevel: int,
    sorceryPointsTotal: int, sorceryPointsCurrent: int, pactKeeperRod: bool, bloodWellVial: bool,
    sleepHours: int, minimumSorceryPoints: int, minimumWarlockSlots: int, k: CoffeeResult)
    requires sleepHours >= 1
    requires CanGenerateAtLeastOneSlot(warlockSlotNumberTotal, warlockSlotLevel, sorceryPointsTotal,
                                       sorceryPointsCurrent, pactKeeperRod, bloodWellVial,
                                       sleepHours, minimumSorceryPoints)
    ensures var rs := CalculateSpellSlots(warlockSlotNumberTotal, warlockSlotNumberCurrent, warlockSlotLevel,
                                          sorceryPointsTotal, sorceryPointsCurrent, pactKeeperRod, bloodWellVial,
                                          sleepHours, minimumSorceryPoints, minimumWarlockSlots);
            var cfg := Config(warlockSlotNumberTotal, warlockSlotLevel, sorceryPointsTotal, sorceryPointsCurrent,
                              sleepHours, minimumSorceryPoints, minimumWarlockSlots);
            var s0 := InitialState(warlockSlotNumberCurrent, sorceryPointsCurrent, pactKeeperRod, bloodWellVial);
            && (k in Keys(rs) <==> Reachable(s0, k, cfg))
            && |Keys(rs)| == |rs|
  {
    var rs := CalculateSpellSlots(warlockSlotNumberTotal, warlockSlotNumberCurrent, warlockSlotLevel,
                                  sorceryPointsTotal, sorceryPointsCurrent, pactKeeperRod, bloodWellVial,
                                  sleepHours, minimumSorceryPoints, minimumWarlockSlots);
    var cfg := Config(warlockSlotNumberTotal, warlockSlotLevel, sorceryPointsTotal, sorceryPointsCurrent,
                      sleepHours, minimumSorceryPoints, minimumWarlockSlots);
    var s0 := InitialState(warlockSlotNumberCurrent, sorceryPointsCurrent, pactKeeperRod, bloodWellVial);
    assert rs == Simulate(s0, [], cfg);
    SimulateKeys(s0, [], cfg);
    assert Keys([]) == {};
    OutcomesAreTimelineOutcomes(s0, k, cfg);
    DistinctCount(rs);
  }
}
