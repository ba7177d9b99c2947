/**
  A valid input the repository's own test expects a non-empty answer for: two level-2 pact
  slots none of which is held, a pool of 5 points none of which is held, both items, four
  hours, and floors of 5 points and 2 slots. Drinking the vial and waiting out the four hours
  ends the rest with a full pool and both slots back, which meets both floors.
 */
module SourceExample {
  import opened Constants
  import opened CoffeeResults
  import opened CoffeeState
  import opened ResultSet
  import opened Transitions
  import opened Greedy
  import opened Calculator
  import opened SearchOutcomes

  predicate ExampleConfig(cfg: Config) {
    cfg == Config(2, 2, 5, 0, 4, 5, 2)
  }

  /** The timeline "drink the vial, then end four hours" is explored and completes full. */
  lemma ExampleTimeline(s0: RestState, cfg: Config) returns (moves: seq<Move>)
    requires ExampleConfig(cfg)
    requires s0.hour == 0 && s0.warlockSlots == 0 && s0.sorceryPoints == 0
    requires !s0.pactKeeperRodUsed && !s0.bloodWellVialUsed
    ensures moves == [DrinkVial, AdvanceHour, AdvanceHour, AdvanceHour, AdvanceHour]
    ensures SearchRun(s0, moves, cfg)
    ensures var f := Final(s0, moves, cfg);
      Completes(f, cfg) && f.sorceryPoints == 5 && f.warlockSlots == 2
  {
    CostTable();
    moves := [DrinkVial, AdvanceHour, AdvanceHour, AdvanceHour, AdvanceHour];
    var s1 := Apply(s0, DrinkVial, cfg);
    assert s1.sorceryPoints == 5 && s1.warlockSlots == 0 && s1.hour == 0 && s1.bloodWellVialUsed;
    var s2 := Apply(s1, AdvanceHour, cfg);
    assert s2.sorceryPoints == 5 && s2.warlockSlots == 2 && s2.hour == 1;
    var s3 := Apply(s2, AdvanceHour, cfg);
    assert s3.sorceryPoints == 5 && s3.warlockSlots == 2 && s3.hour == 2;
    var s4 := Apply(s3, AdvanceHour, cfg);
    assert s4.sorceryPoints == 5 && s4.warlockSlots == 2 && s4.hour == 3;
    var s5 := Apply(s4, AdvanceHour, cfg);
    assert s5.sorceryPoints == 5 && s5.warlockSlots == 2 && s5.hour == 4;
    assert SearchRun(s5, [], cfg);
    assert SearchRun(s4, moves[4..], cfg) && Final(s4, moves[4..], cfg) == s5;
    assert SearchRun(s3, moves[3..], cfg) && Final(s3, moves[3..], cfg) == s5;
    assert SearchRun(s2, moves[2..], cfg) && Final(s2, moves[2..], cfg) == s5;
    assert SearchRun(s1, moves[1..], cfg) && Final(s1, moves[1..], cfg) == s5;
  }

  /** From a full pool and both slots, trading nothing keeps both floors exactly. */
  lemma ExampleOutcome(f: RestState, cfg: Config) returns (k: CoffeeResult)
    requires ExampleConfig(cfg)
    requires f.sorceryPoints == 5 && f.warlockSlots == 2
    ensures k in EndOutcomes(f, cfg)
    ensures k.remainingSorceryPoints == 5 && k.remainingWarlockSlots == 2
  {
    var u := Restored(f, cfg);
    assert u.warlockSlots - cfg.minimumWarlockSlots == 0;
    var n := SpendAndConvert(u, 0, cfg);
    assert n.sorceryPoints == 5 && n.warlockSlots == 2;
    SpendChosen(u, 0, 0, cfg);
    k := Key(Report(n));
  }

  /** Some result of the example keeps the full pool and both slots. */
  lemma ExampleReachable(s0: RestState, cfg: Config) returns (k: CoffeeResult)
    requires ExampleConfig(cfg)
    requires s0.hour == 0 && s0.warlockSlots == 0 && s0.sorceryPoints == 0
    requires !s0.pactKeeperRodUsed && !s0.bloodWellVialUsed
    ensures Reachable(s0, k, cfg)
    ensures k.remainingSorceryPoints == 5 && k.remainingWarlockSlots == 2
  {
    var moves := ExampleTimeline(s0, cfg);
    var f := Final(s0, moves, cfg);
    k := ExampleOutcome(f, cfg);
    assert SearchRun(s0, moves, cfg) && Completes(f, cfg) && k in EndOutcomes(f, cfg);
  }

  /**
    The entry point as written reports something on the example, and among what it reports is
    the result that keeps the full pool and both slots.
   */
  lemma ExampleReportsResults()
    ensures CalculateSpellSlots(2, 0, 2, 5, 0, true, true, 4, 5, 2) != []
    ensures exists r :: r in CalculateSpellSlots(2, 0, 2, 5, 0, true, true, 4, 5, 2)
                        && r.remainingSorceryPoints == 5 && r.remainingWarlockSlots == 2
  {
    CostTable();
    var cfg := Config(2, 2, 5, 0, 4, 5, 2);
    var s0 := InitialState(0, 0, true, true);
    var k := ExampleReachable(s0, cfg);
    assert CanGenerateAtLeastOneSlot(2, 2, 5, 0, true, true, 4, 5);
    CalculateSpellSlotsReportsTimelines(2, 0, 2, 5, 0, true, true, 4, 5, 2, k);
    var rs := CalculateSpellSlots(2, 0, 2, 5, 0, true, true, 4, 5, 2);
    assert k in Keys(rs);
    var r :| r in rs && Key(r) == k;
    assert r.remainingSorceryPoints == 5 && r.remainingWarlockSlots == 2;
  }
}
