/** Generated code over whole runs: its configuration stays legal however deep the
    initial states lie, and where its test for a top-level final state goes wrong. */
module GeneratedLegality {
  import opened Charts
  import opened EntrySets
  import opened Transitions
  import opened MicroSteps
  import opened Stepping
  import opened GeneratedTables
  import opened GeneratedCode
  import opened Gaps
  import opened DeepInitials

  lemma {:induction false} CEntered(c: Chart, e: Entry, s: Entering, i: nat)
    ensures CEnterFrom(c, e, s, i).configuration == s.configuration + set x | x in e.states && i <= x && Proper(c, x)
    decreases Size(c) - i
  {
    if i < Size(c) {
      var s' := if i in e.states && i !in s.configuration && Proper(c, i) then CEnterOne(c, e.trans, s, i) else s;
      CEntered(c, e, s', i + 1);
    }
  }

  /** A microstep over a zone leads to a legal configuration. */
  lemma CMicroStepLegal(c: Chart, x: Ctx, z: set<nat>, targets: set<nat>, trans: set<nat>)
    requires Setting(c, x.config, x.history, z) && PassInv(c, x.config, z, WithAncestors(c, targets), 0)
    requires Recorded(c, x.history, z, WithAncestors(c, targets)) && DefaultsClosed(c)
    ensures
      var n := CMicroStep(Generated(c), x, x.config * z, targets, trans).ctx.config;
      Legal(c, n) && x.config - x.config * z <= n
  {
    hide PassInv, CEnterFrom, Recorded, DefaultsClosed, HistoryReady, ZoneOk, Legal;
    var g := Generated(c);
    var exits := x.config * z;
    ClimbAdds(c, g, targets);
    var e0 := Entry(WithAncestors(c, targets), trans);
    GeneratedPass(c, g, x.config, x.history, z, e0, 0);
    var e := Descend(g, x.config, x.history, exits, e0, 0);
    PassLegal(c, x.config, z, e.states);
    SameNext(c, g, x.config, exits, e.states);
    CMicroStepConfiguration(g, x, exits, targets, trans);
  }

  lemma CMicroStepConfiguration(g: Chart, x: Ctx, exits: set<nat>, targets: set<nat>, trans: set<nat>)
    ensures CMicroStep(g, x, exits, targets, trans).ctx.config
            == NextConfiguration(g, x.config, exits, Descend(g, x.config, x.history, exits, Entry(Climb(g, targets, 0), trans), 0).states)
  {
    hide Descend, Climb;
    var e := Descend(g, x.config, x.history, exits, Entry(Climb(g, targets, 0), trans), 0);
    CEntered(g, e, Entering(x.config - exits, x.initializedData, x.flags.topLevelFinal,
      ExitActions(exits * x.config, Size(g)) + TakeActions(g, e.trans, 0)), 0);
  }

  ghost predicate CSound(c: Chart, x: Ctx) {
    if x.flags.initialized then Legal(c, x.config) && HistoryLegal(c, x.config, x.history)
    else x.flags == CPRISTINE && x.config == {} && x.history == {}
  }

  /** The charts on which generated code cannot go wrong. */
  ghost predicate CChartOk(c: Chart) {
    WellFormed(c) && DefaultsClosed(c) && HistoriesFromOutside(c)
  }

  lemma CSelectedSound(c: Chart, x: Ctx, m: Stimulus)
    requires CChartOk(c) && CSound(c, x) && x.flags.initialized
    ensures
      var sel := Select(Generated(c), x.config, m);
      sel.trans != {} ==> CSound(c, CSelected(Generated(c), x, sel).ctx)
  {
    var g := Generated(c);
    SameSelect(c, g, x.config, m, NOTHING, 0);
    var sel := Select(c, x.config, m);
    if sel.trans != {} {
      hide Consistent, PassInv, Select, Recorded, Setting, Remember, CMicroStep, Legal, HistoryLegal, DefaultsClosed, HistoriesFromOutside;
      var st := FRESH.(configuration := x.config, history := x.history);
      SelectionSetting(c, st, m);
      var z := Zone(c, sel.trans);
      var hist := Remember(c, x.config, x.config * z, x.history, 0);
      OutsideRecorded(c, sel.trans, hist);
      SeedsRecorded(c, x.config, sel.trans, sel.targets, hist);
      SameRemember(c, g, x.config, x.config * z, x.history, 0);
      var y := x.(flags := x.flags.(spontaneous := true), history := hist);
      CMicroStepLegal(c, y, z, sel.targets, sel.trans);
      CKeeps(g, y, x.config * z, sel.targets, sel.trans);
      SelectionKeepsHistory(c, st, z, CMicroStep(g, y, x.config * z, sel.targets, sel.trans).ctx.config);
    }
  }

  lemma CKeeps(c: Chart, x: Ctx, exits: set<nat>, targets: set<nat>, trans: set<nat>)
    ensures
      var y := CMicroStep(c, x, exits, targets, trans).ctx;
      y.history == x.history && y.flags == x.flags.(topLevelFinal := y.flags.topLevelFinal)
  {
  }

  lemma CStartSound(c: Chart, x: Ctx)
    requires CChartOk(c) && x.config == {} && x.history == {} && x.flags.initialized
    ensures CSound(c, CMicroStep(Generated(c), x, {}, Generated(c).states[0].completion, {}).ctx)
  {
    hide PassInv, Recorded, Setting, CMicroStep, Legal, DefaultsClosed, HistoriesFromOutside;
    var g := Generated(c);
    assert SameRow(c, g, 0);
    StartSetting(c);
    assert {} * AllStates(c) == {};
    CMicroStepLegal(c, x, AllStates(c), c.states[0].completion, {});
    CKeeps(g, x, {}, c.states[0].completion, {});
    EmptyHistory(c, CMicroStep(g, x, {}, c.states[0].completion, {}).ctx.config);
  }

  lemma {:induction false} DequeueSound(c: Chart, x: Ctx, rounds: seq<Input>)
    requires CChartOk(c) && CSound(c, x) && x.flags.initialized
    ensures CSound(c, Dequeue(Generated(c), x, rounds).ctx)
    decreases |rounds|, x.flags.spontaneous
  {
    hide CChartOk, CSelected, Select, Legal, HistoryLegal;
    var g := Generated(c);
    var r := Head(rounds);
    var y := Ready(g, x, r);
    assert CSound(c, y);
    if !(AtRest(x, r) && !r.external) {
      CSelectedSound(c, y, StimulusOf(x, r));
      if Select(g, y.config, StimulusOf(x, r)).trans == {} {
        DequeueSound(c, y.(flags := y.flags.(spontaneous := false)), Tail(rounds));
      }
    }
  }

  lemma CStepSound(c: Chart, x: Ctx, rounds: seq<Input>)
    requires CChartOk(c) && CSound(c, x)
    ensures CSound(c, CStep(Generated(c), x, rounds).ctx)
  {
    hide CChartOk, Dequeue, CMicroStep, Legal, HistoryLegal;
    if x.flags.finished || x.flags.topLevelFinal {
    } else if x.flags == CPRISTINE {
      CStartSound(c, x.(flags := x.flags.(spontaneous := true, initialized := true)));
    } else {
      DequeueSound(c, x, rounds);
    }
  }

  /** In every run the generated code keeps its configuration legal as soon as the first
      call has been made, also where initial states are no children and where its test
      for a top-level final state is wrong. */
  lemma {:induction false} GeneratedCodeIsLegal(c: Chart, calls: seq<seq<Input>>)
    requires CChartOk(c)
    ensures CSound(c, CRun(Generated(c), calls))
  {
    hide CStep, CSound, CChartOk;
    if calls == [] {
      assert CSound(c, CFRESH) by { CFreshSound(c); }
    } else {
      GeneratedCodeIsLegal(c, calls[..|calls| - 1]);
      CStepSound(c, CRun(Generated(c), calls[..|calls| - 1]), calls[|calls| - 1]);
    }
  }

  lemma CFreshSound(c: Chart)
    ensures CSound(c, CFRESH)
  {
  }

  // ---- A run on which the test for a top-level final state goes wrong ----

  lemma {:induction false} CFinalSeen(c: Chart, e: Entry, s: Entering, i: nat, k: nat)
    requires i <= k < Size(c) && k in e.states && k !in s.configuration && Proper(c, k) && FirstByteFinal(c, k)
    ensures CEnterFrom(c, e, s, i).topLevelFinal
    decreases Size(c) - i
  {
    hide FirstByteFinal, DefaultActions;
    var s' := if i in e.states && i !in s.configuration && Proper(c, i) then CEnterOne(c, e.trans, s, i) else s;
    if i == k {
      CFinalStays(c, e, s', i + 1);
    } else {
      CFinalSeen(c, e, s', i + 1, k);
    }
  }

  lemma {:induction false} CFinalStays(c: Chart, e: Entry, s: Entering, i: nat)
    requires s.topLevelFinal
    ensures CEnterFrom(c, e, s, i).topLevelFinal
    decreases Size(c) - i
  {
    hide FirstByteFinal, DefaultActions;
    if i < Size(c) {
      CFinalStays(c, e, if i in e.states && i !in s.configuration && Proper(c, i) then CEnterOne(c, e.trans, s, i) else s, i + 1);
    }
  }

  lemma {:induction false} NoFinalSeen(c: Chart, e: Entry, s: Entering, i: nat)
    requires !s.topLevelFinal && forall k: nat | k < Size(c) :: !TopLevelFinal(c, k)
    ensures !EnterFrom(c, e, s, i).topLevelFinal
    decreases Size(c) - i
  {
    hide DefaultActions, DoneActions, TopLevelFinal;
    if i < Size(c) {
      NoFinalSeen(c, e, if i in e.states && i !in s.configuration && Proper(c, i) then EnterOne(c, e.trans, s, i) else s, i + 1);
    }
  }

  const LEAF := State(0, Atomic, {}, {0}, {})

  /** The root starts in state 8, which starts in the final state 9. */
  const NINTH_ROWS: seq<State> := [
    State(0, Compound, {8}, {}, {1, 2, 3, 4, 5, 6, 7, 8, 9}), LEAF, LEAF, LEAF, LEAF, LEAF, LEAF, LEAF,
    State(0, Compound, {9}, {0}, {9}), State(8, Final, {}, {0, 8}, {})]

  const NINTH: Chart :=
    assert IsTree(RawChart(NINTH_ROWS, []));
    RawChart(NINTH_ROWS, [])

  lemma NinthUnder()
    ensures forall k: nat, a: nat | k < 10 :: Under(NINTH, k, a) <==> a in NINTH_ROWS[k].ancestors
  {
    var c := NINTH;
    assert Parent(c, 9) == 8;
    assert forall k: nat | 0 < k < 9 :: Parent(c, k) == 0;
    assert forall a: nat :: !Under(c, 0, a);
    assert forall k: nat, a: nat | 0 < k < 9 :: Under(c, k, a) <==> a == 0;
    assert forall a: nat :: Under(c, 9, a) <==> a == 8 || Under(c, 8, a);
  }

  lemma NinthTables()
    ensures TablesOk(NINTH)
  {
    hide Under;
    NinthUnder();
    forall i: nat | i < 10 ensures TableAt(NINTH, i) {
      assert AncestorsOf(NINTH, i) == NINTH_ROWS[i].ancestors;
      assert Descendants(NINTH, i) == NINTH_ROWS[i].children;
    }
  }

  lemma NinthOk()
    ensures ChartOk(NINTH)
  {
    hide TableAt;
    var c := NINTH;
    NinthTables();
    NinthUnder();
    assert ChildOf(c, 8, 0) && ChildOf(c, 9, 8);
    assert CompletesTo(c, 0, 8) && CompletesTo(c, 8, 9);
    forall i: nat | i < Size(c) ensures StateOk(c, i) { }
  }

  lemma NinthPass()
    ensures Descend(NINTH, {}, {}, {}, Entry({0, 8}, {}), 0) == Entry({0, 8, 9}, {})
  {
    NinthDescend(NINTH, 0);
  }

  lemma {:induction false} NinthDescend(c: Chart, i: nat)
    requires Size(c) == 10 && i <= 9 && forall k: nat | k < 10 :: c.states[k] == NINTH_ROWS[k].(children := c.states[k].children)
    requires 8 in c.states[0].children && c.states[8].children == {9}
    ensures Descend(c, {}, {}, {}, if i <= 8 then Entry({0, 8}, {}) else Entry({0, 8, 9}, {}), i) == Entry({0, 8, 9}, {})
    decreases 10 - i
  {
    var e, f := Entry({0, 8}, {}), Entry({0, 8, 9}, {});
    if i == 9 {
      assert Descend(c, {}, {}, {}, f, 10) == f;
      assert c.states[9].kind == Final;
    } else {
      NinthDescend(c, i + 1);
      if i == 0 {
        assert 8 in e.states * c.states[0].children;
        assert Resolve(c, {}, {}, {}, e, 0) == e;
      } else if i == 8 {
        assert {0, 8} * {9} == {} && {} * c.states[8].children == {} && c.states[8].completion == {9};
        assert 9 in c.states[8].completion * c.states[8].children;
        assert {0, 8} + {9} + {} == {0, 8, 9};
        assert Resolve(c, {}, {}, {}, e, 8) == f;
      }
    }
  }

  const IDLE := Input(false, false, {}, {})

  /** The first call already ends the generated program, but not the interpreter. */
  lemma FirstByteRuns()
    ensures ChartOk(NINTH)
    ensures CRun(Generated(NINTH), [[IDLE]]).config == Run(NINTH, [Call(IDLE)]).configuration == {0, 8, 9}
    ensures CRun(Generated(NINTH), [[IDLE]]).flags.topLevelFinal && !Run(NINTH, [Call(IDLE)]).flags.topLevelFinal
    ensures CStep(Generated(NINTH), CRun(Generated(NINTH), [[IDLE]]), [IDLE]).code == Done
    ensures Step(NINTH, Run(NINTH, [Call(IDLE)]), IDLE).result == MicroStepped
  {
    hide Descend, CMicroStep, MicroStep, Dequeue, SelectAndStep, CEnterFrom, EnterFrom;
    NinthOk();
    NinthInterpreter();
    NinthGenerated();
  }

  lemma NinthInterpreter()
    ensures
      var st := Run(NINTH, [Call(IDLE)]);
      st.configuration == {0, 8, 9} && !st.flags.topLevelFinal && st.flags.spontaneous && st.flags.initialized && !st.flags.finished
  {
    hide Descend, MicroStep, EnterFrom;
    var c := NINTH;
    var st := FRESH.(flags := PRISTINE.(spontaneous := true, initialized := true));
    RunLonger(c, [], Call(IDLE));
    assert [] + [Call(IDLE)] == [Call(IDLE)];
    MicroStepConfiguration(c, st, {}, {8}, {});
    NinthPass();
    assert WithAncestors(c, {8}) == {0, 8} by { assert c.states[8].ancestors == {0}; }
    assert NextConfiguration(c, {}, {}, {0, 8, 9}) == {0, 8, 9};
    StartKeeps(c, st);
    NinthNoFinal(st);
  }

  lemma NinthNoFinal(st: Stepper)
    requires !st.flags.topLevelFinal
    ensures !MicroStep(NINTH, st, {}, {8}, {}).stepper.flags.topLevelFinal
  {
    hide EntrySet, TakeActions, ExitActions, EnterFrom;
    var c := NINTH;
    var e := EntrySet(c, st.configuration, st.history, {}, {8}, {});
    assert forall k: nat | k < 10 :: !TopLevelFinal(c, k);
    NoFinalSeen(c, e, Entering(st.configuration - {}, st.initializedData, st.flags.topLevelFinal,
      ExitActions({} * st.configuration, Size(c)) + TakeActions(c, e.trans, 0)), 0);
  }

  lemma NinthGenerated()
    ensures
      var x := CRun(Generated(NINTH), [[IDLE]]);
      x.config == {0, 8, 9} && x.flags.topLevelFinal && !x.flags.finished
  {
    hide Descend, CMicroStep, CEnterFrom;
    var c, g := NINTH, Generated(NINTH);
    var x := CFRESH.(flags := CPRISTINE.(spontaneous := true, initialized := true));
    assert SameRow(c, g, 0) && SameRow(c, g, 9);
    assert [[IDLE]][..0] == [];
    assert CRun(g, [[IDLE]]) == CStep(g, CFRESH, [IDLE]).ctx;
    assert CStep(g, CFRESH, [IDLE]) == CMicroStep(g, x, {}, {8}, {});
    CKeeps(g, x, {}, {8}, {});
    NinthEnters(x);
  }

  lemma NinthEnters(x: Ctx)
    requires x.config == {} && x.history == {}
    ensures
      var y := CMicroStep(Generated(NINTH), x, {}, {8}, {}).ctx;
      y.config == {0, 8, 9} && y.flags.topLevelFinal
  {
    hide Descend, CEnterFrom, TakeActions, ExitActions;
    var c, g := NINTH, Generated(NINTH);
    NinthTables();
    ClimbAdds(c, g, {8});
    assert WithAncestors(c, {8}) == {0, 8} by { assert c.states[8].ancestors == {0}; }
    NinthGeneratedPass();
    var e := Entry({0, 8, 9}, {});
    var s := Entering({} - {}, x.initializedData, x.flags.topLevelFinal, ExitActions({} * {}, Size(g)) + TakeActions(g, {}, 0));
    assert SameRow(c, g, 0) && SameRow(c, g, 8) && SameRow(c, g, 9);
    CEntered(g, e, s, 0);
    NinthFirstByte();
    CFinalSeen(g, e, s, 0, 9);
  }

  lemma NinthGeneratedPass()
    ensures Descend(Generated(NINTH), {}, {}, {}, Entry({0, 8}, {}), 0) == Entry({0, 8, 9}, {})
  {
    var g := Generated(NINTH);
    assert DirectChildren(NINTH, 0) == {1, 2, 3, 4, 5, 6, 7, 8};
    assert DirectChildren(NINTH, 8) == {9};
    forall i: nat | i < 10 ensures g.states[i] == NINTH_ROWS[i].(children := g.states[i].children) {
      assert SameRow(NINTH, g, i);
    }
    assert SameRow(NINTH, g, 0) && SameRow(NINTH, g, 8);
    NinthDescend(g, 0);
  }

  lemma NinthFirstByte()
    ensures FirstByteFinal(Generated(NINTH), 9)
  {
    assert SameRow(NINTH, Generated(NINTH), 9);
    assert NINTH_ROWS[9].ancestors == {0, 8};
  }
}
