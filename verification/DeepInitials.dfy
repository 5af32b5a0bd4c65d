/** Compound states whose `initial` attribute names a state that is no child: generated
    C, which lists direct children only, adds the states in between and stays legal. */
module DeepInitials {
  import opened Charts
  import opened EntrySets
  import opened Transitions
  import opened MicroSteps
  import opened Stepping
  import opened GeneratedTables
  import opened Gaps

  lemma {:induction false} OnlyTarget(c: Chart, g: Chart, x: nat, k: nat)
    requires SameChart(c, g) && k <= x < Size(c)
    ensures FirstTargetAncestors(g, {x}, k) == c.states[x].ancestors
    decreases x - k
  {
    assert SameRow(c, g, k);
    if k < x { OnlyTarget(c, g, x, k + 1); }
  }

  /** With direct children listed, completing a compound state adds its initial state
      together with everything in between. */
  lemma GeneratedCompletion(c: Chart, g: Chart, cfg: set<nat>, exits: set<nat>, e: Entry, i: nat, x: nat)
    requires TablesOk(c) && SameChart(c, g) && IsCompound(c, i) && CompletesTo(c, i, x)
    requires i in e.states && ParentsIn(c, e.states) && Completes(g, cfg, exits, e.states, i)
    ensures ResolveCompound(g, cfg, exits, e, i).states == e.states + Cover(c, i, {x})
  {
    assert SameRow(c, g, i) && TableAt(c, x);
    UnderBounds(c, x, i);
    OnlyTarget(c, g, x, i + 1);
    var b := Cover(c, i, {x});
    forall y | y in b + c.states[x].ancestors ensures y in b || y in e.states || y == x {
      if y !in b { AboveCompleted(c, e.states, i, x, y); }
    }
    assert AtOrUnder(c, x, x) && Reaches(c, {x}, x);
    if ChildOf(c, x, i) {
      assert x in g.states[i].completion * g.states[i].children;
      OnlyChildCover(c, i, x);
    } else {
      assert g.states[i].completion * g.states[i].children == {};
      forall y | y in b ensures y == x || y in c.states[x].ancestors {
        if y != x { UnderBounds(c, x, y); }
      }
    }
  }

  lemma AboveCompleted(c: Chart, e: set<nat>, i: nat, x: nat, y: nat)
    requires Under(c, x, i) && Under(c, x, y) && i in e && ParentsIn(c, e) && y !in Cover(c, i, {x})
    ensures y in e
  {
    Comparable(c, x, i, y);
    UnderBounds(c, x, y);
    assert AtOrUnder(c, x, y) && Reaches(c, {x}, y);
    if y != i { AncestorIn(c, e, i, y); }
  }

  lemma OnlyChildCover(c: Chart, i: nat, x: nat)
    requires ChildOf(c, x, i)
    ensures Cover(c, i, {x}) == {x}
  {
    ChildUnder(c, x, i);
    assert AtOrUnder(c, x, x) && Reaches(c, {x}, x);
    forall y | y in Cover(c, i, {x}) ensures y == x {
      if y != x { NotBetween(c, x, i, y); }
    }
  }

  lemma GeneratedCompoundStep(c: Chart, g: Chart, cfg: set<nat>, hist: set<nat>, z: set<nat>, e: Entry, i: nat)
    requires SameChart(c, g) && Setting(c, cfg, hist, z) && PassInv(c, cfg, z, e.states, i)
    requires Recorded(c, hist, z, e.states) && i in e.states && IsCompound(c, i)
    ensures
      var e' := Resolve(g, cfg, hist, cfg * z, e, i).states;
      PassInv(c, cfg, z, e', i + 1) && Recorded(c, hist, z, e')
  {
    hide PassInv, HistoryReady, Completes, Recorded;
    assert SameRow(c, g, i) && StateOk(c, i);
    InvShape(c, cfg, z, e.states, i);
    SameCompletes(c, g, cfg, z, e.states, i);
    if Completes(c, cfg, cfg * z, e.states, i) {
      var x := CompletionListed(c, i);
      if i !in z { KeptNotCompleted(c, cfg, z, e.states, i); }
      ZoneCompletes(c, cfg, z, e.states, i);
      GeneratedCompletion(c, g, cfg, cfg * z, e, i, x);
      PathCompletion(c, i, x);
      PassCompletion(c, cfg, z, e.states, i, Cover(c, i, {x}));
      RecordedPath(c, hist, z, e.states, i, Cover(c, i, {x}));
    } else {
      PassCompoundBusy(c, cfg, z, e.states, i) by {
        if i in z { ZoneCompletes(c, cfg, z, e.states, i); }
      }
    }
  }

  lemma InvShape(c: Chart, cfg: set<nat>, z: set<nat>, e: set<nat>, i: nat)
    requires PassInv(c, cfg, z, e, i)
    ensures Shape(c, cfg, z, e, i)
  {
  }

  lemma RecordedPath(c: Chart, hist: set<nat>, z: set<nat>, e: set<nat>, i: nat, b: set<nat>)
    requires Recorded(c, hist, z, e) && Completion(c, b, i)
    ensures Recorded(c, hist, z, e + b)
  {
    hide Restorable;
  }

  lemma {:induction false} GeneratedPass(c: Chart, g: Chart, cfg: set<nat>, hist: set<nat>, z: set<nat>, e: Entry, i: nat)
    requires SameChart(c, g) && Setting(c, cfg, hist, z) && PassInv(c, cfg, z, e.states, i) && Recorded(c, hist, z, e.states)
    requires i <= Size(c) && DefaultsClosed(c)
    ensures PassInv(c, cfg, z, Descend(g, cfg, hist, cfg * z, e, i).states, Size(c))
    decreases Size(c) - i
  {
    hide PassInv, Setting, Resolve, Recorded, DefaultsClosed;
    if i < Size(c) {
      if i !in e.states {
        PassSkips(c, cfg, z, e.states, i);
        GeneratedPass(c, g, cfg, hist, z, e, i + 1);
      } else {
        var e' := Resolve(g, cfg, hist, cfg * z, e, i);
        if IsCompound(c, i) {
          GeneratedCompoundStep(c, g, cfg, hist, z, e, i);
        } else {
          RecordedHere(c, hist, z, e.states, i);
          PassStep(c, cfg, hist, z, e, i);
          RecordedStays(c, cfg, hist, z, e, i);
          SameResolve(c, g, cfg, hist, z, e, i);
        }
        GeneratedPass(c, g, cfg, hist, z, e', i + 1);
      }
    }
  }

  /** With the tables of generated C a microstep keeps the configuration legal however
      deep the initial states lie. */
  lemma GeneratedDeepLegal(c: Chart, st: Stepper, m: Stimulus)
    requires WellFormed(c) && DefaultsClosed(c) && HistoriesFromOutside(c)
    requires Legal(c, st.configuration) && HistoryLegal(c, st.configuration, st.history)
    ensures Legal(c, SelectAndStep(Generated(c), st, m).stepper.configuration)
  {
    var g := Generated(c);
    var cfg := st.configuration;
    SameSelect(c, g, cfg, m, NOTHING, 0);
    var sel := Select(c, cfg, m);
    if sel.trans != {} {
      hide Consistent, PassInv, Select, Recorded, Setting, Remember, HistoriesFromOutside, NextConfiguration, Legal, HistoryLegal;
      SelectionSetting(c, st, m);
      var z := Zone(c, sel.trans);
      var hist := Remember(c, cfg, cfg * z, st.history, 0);
      OutsideRecorded(c, sel.trans, hist);
      SeedsRecorded(c, cfg, sel.trans, sel.targets, hist);
      SameRemember(c, g, cfg, cfg * z, st.history, 0);
      SelectedConfiguration(g, st, m);
      SameAncestors(c, g, sel.targets, 0);
      var e := Entry(WithAncestors(c, sel.targets), sel.trans);
      GeneratedPass(c, g, cfg, hist, z, e, 0);
      var d := Descend(g, cfg, hist, cfg * z, e, 0).states;
      PassLegal(c, cfg, z, d) by { assert Setting(c, cfg, hist, z); InSetting(c, cfg, hist, z); }
      SameNext(c, g, cfg, cfg * z, d);
    }
  }

  lemma InSetting(c: Chart, cfg: set<nat>, hist: set<nat>, z: set<nat>)
    requires Setting(c, cfg, hist, z)
    ensures StatesOk(c) && ZoneOk(c, cfg, z)
  {
  }

  lemma SameNext(c: Chart, g: Chart, cfg: set<nat>, exits: set<nat>, e: set<nat>)
    requires SameChart(c, g)
    ensures NextConfiguration(g, cfg, exits, e) == NextConfiguration(c, cfg, exits, e)
  {
    forall x | x in e ensures Proper(g, x) == Proper(c, x) {
      if x < Size(c) { assert SameRow(c, g, x); }
    }
  }

  // ---- Two charts ----

  /** State 1 starts in state 3, which lies two levels down. */
  const DEEP: Chart :=
    assert IsTree(RawChart([
      State(0, Compound, {1}, {}, {1, 2, 3}), State(0, Compound, {3}, {0}, {2, 3}),
      State(1, Compound, {3}, {0, 1}, {3}), State(2, Atomic, {}, {0, 1, 2}, {})], []));
    RawChart([
      State(0, Compound, {1}, {}, {1, 2, 3}), State(0, Compound, {3}, {0}, {2, 3}),
      State(1, Compound, {3}, {0, 1}, {3}), State(2, Atomic, {}, {0, 1, 2}, {})], [])

  const QUIET := Call(Input(false, false, {}, {}))

  /** The interpreter's first call enters state 3 without its parent. */
  lemma DeepInitialGap()
    ensures
      var cfg := Run(DEEP, [QUIET]).configuration;
      cfg == {0, 1, 3} && ChildOf(DEEP, 3, 2) && !Legal(DEEP, cfg)
  {
    hide Descend, MicroStep, NextConfiguration, WithAncestors;
    var c := DEEP;
    FirstCall(c);
    var st := FRESH.(flags := PRISTINE.(spontaneous := true, initialized := true));
    MicroStepConfiguration(c, st, {}, {1}, {});
    DeepTargets();
    DeepPass();
    assert ChildOf(c, 3, 2);
    assert !ParentsIn(c, {0, 1, 3});
  }

  lemma DeepTargets()
    ensures WithAncestors(DEEP, {1}) == {0, 1} && NextConfiguration(DEEP, {}, {}, {0, 1, 3}) == {0, 1, 3}
  {
    assert DEEP.states[1].ancestors == {0};
  }

  lemma DeepPass()
    ensures Descend(DEEP, {}, {}, {}, Entry({0, 1}, {}), 0) == Entry({0, 1, 3}, {})
  {
    var c := DEEP;
    var e, f := Entry({0, 1}, {}), Entry({0, 1, 3}, {});
    assert Resolve(c, {}, {}, {}, e, 0) == e by {
      assert 1 in {0, 1} * c.states[0].children;
    }
    assert Resolve(c, {}, {}, {}, e, 1) == f by {
      assert {0, 1} * c.states[1].children == {} && {} * c.states[1].children == {};
      assert 3 in c.states[1].completion * c.states[1].children;
      assert {0, 1} + {3} + {} == {0, 1, 3};
    }
    assert Descend(c, {}, {}, {}, e, 0) == Descend(c, {}, {}, {}, e, 1) == Descend(c, {}, {}, {}, f, 2);
    assert Descend(c, {}, {}, {}, f, 2) == Descend(c, {}, {}, {}, f, 3) == Descend(c, {}, {}, {}, f, 4) == f;
  }

  lemma FirstCall(c: Chart)
    ensures Run(c, [QUIET])
            == MicroStep(c, FRESH.(flags := PRISTINE.(spontaneous := true, initialized := true)), {}, c.states[0].completion, {}).stepper
  {
    assert [QUIET][..0] == [];
    assert Run(c, [QUIET]) == Next(c, FRESH, QUIET);
  }

  /** As before, but state 3 has an `<initial>` child that leads to state 5. */
  const HEALED: Chart :=
    assert IsTree(RawChart([
      State(0, Compound, {1}, {}, {1, 2, 3, 4, 5}), State(0, Compound, {3}, {0}, {2, 3, 4, 5}),
      State(1, Compound, {3}, {0, 1}, {3, 4, 5}), State(2, Compound, {4}, {0, 1, 2}, {4, 5}),
      State(3, Initial, {}, {0, 1, 2, 3}, {}), State(3, Atomic, {}, {0, 1, 2, 3}, {})],
      [Transition(4, {5}, {5}, {0}, OfInitial, false, false, false)]));
    RawChart([
      State(0, Compound, {1}, {}, {1, 2, 3, 4, 5}), State(0, Compound, {3}, {0}, {2, 3, 4, 5}),
      State(1, Compound, {3}, {0, 1}, {3, 4, 5}), State(2, Compound, {4}, {0, 1, 2}, {4, 5}),
      State(3, Initial, {}, {0, 1, 2, 3}, {}), State(3, Atomic, {}, {0, 1, 2, 3}, {})],
      [Transition(4, {5}, {5}, {0}, OfInitial, false, false, false)])

  /** State 1 completes to a state that is no child, and still the transition of the
      `<initial>` element brings in what was left out. */
  lemma DeepInitialHealed()
    ensures CompletesTo(HEALED, 1, 3) && !ChildOf(HEALED, 3, 1) && !Gaping(HEALED, 1)
    ensures Run(HEALED, [QUIET]).configuration == {0, 1, 2, 3, 5} && Legal(HEALED, {0, 1, 2, 3, 5})
  {
    hide Descend, Gaping, Legal, MicroStep, CompletesTo, NextConfiguration, WithAncestors;
    var c := HEALED;
    FirstCall(c);
    MicroStepConfiguration(c, FRESH.(flags := PRISTINE.(spontaneous := true, initialized := true)), {}, {1}, {});
    HealedTargets();
    HealedFirst();
    HealedRest();
    HealedNotGaping();
    HealedLegal();
  }

  lemma HealedTargets()
    ensures WithAncestors(HEALED, {1}) == {0, 1}
    ensures NextConfiguration(HEALED, {}, {}, {0, 1, 2, 3, 5}) == {0, 1, 2, 3, 5}
  {
    assert HEALED.states[1].ancestors == {0};
  }

  lemma HealedFirst()
    ensures Descend(HEALED, {}, {}, {}, Entry({0, 1}, {}), 0) == Descend(HEALED, {}, {}, {}, Entry({0, 1, 3}, {}), 2)
  {
    var c := HEALED;
    var e, f := Entry({0, 1}, {}), Entry({0, 1, 3}, {});
    assert Resolve(c, {}, {}, {}, e, 0) == e by {
      assert 1 in {0, 1} * c.states[0].children;
    }
    assert Resolve(c, {}, {}, {}, e, 1) == f by {
      assert {0, 1} * c.states[1].children == {} && {} * c.states[1].children == {};
      assert 3 in c.states[1].completion * c.states[1].children;
      assert {0, 1} + {3} + {} == {0, 1, 3};
    }
    assert Descend(c, {}, {}, {}, e, 0) == Descend(c, {}, {}, {}, e, 1);
  }

  lemma HealedLegal()
    ensures Legal(HEALED, {0, 1, 2, 3, 5})
  {
    hide OneChildEach, CompoundsFilled;
    HealedSingle();
    HealedFilled();
  }

  lemma HealedFilled()
    ensures CompoundsFilled(HEALED, {0, 1, 2, 3, 5})
  {
    var c, n := HEALED, {0, 1, 2, 3, 5};
    assert ChildOf(c, 1, 0) && ChildOf(c, 2, 1) && ChildOf(c, 3, 2) && ChildOf(c, 5, 3);
    assert HasChildIn(c, 0, n) && HasChildIn(c, 1, n) && HasChildIn(c, 2, n) && HasChildIn(c, 3, n);
  }

  lemma HealedSingle()
    ensures OneChildEach(HEALED, {0, 1, 2, 3, 5})
  {
    var c := HEALED;
    assert Parent(c, 1) == 0 && Parent(c, 2) == 1 && Parent(c, 3) == 2 && Parent(c, 5) == 3;
  }

  lemma HealedRest()
    ensures Descend(HEALED, {}, {}, {}, Entry({0, 1, 3}, {}), 2) == Entry({0, 1, 2, 3, 5}, {0})
  {
    var c := HEALED;
    var f, g, h := Entry({0, 1, 3}, {}), Entry({0, 1, 3, 4}, {}), Entry({0, 1, 2, 3, 5}, {0});
    assert Resolve(c, {}, {}, {}, f, 3) == g by {
      assert {0, 1, 3} * c.states[3].children == {} && {} * c.states[3].children == {};
      assert 4 in c.states[3].completion * c.states[3].children;
      assert {0, 1, 3} + {4} + {} == {0, 1, 3, 4};
    }
    assert Resolve(c, {}, {}, {}, g, 4) == h by { HealedInitial(); }
    assert Descend(c, {}, {}, {}, f, 2) == Descend(c, {}, {}, {}, f, 3) == Descend(c, {}, {}, {}, g, 4);
    assert Descend(c, {}, {}, {}, g, 4) == Descend(c, {}, {}, {}, h, 5) == Descend(c, {}, {}, {}, h, 6) == h;
  }

  lemma HealedInitial()
    ensures ResolveInitial(HEALED, Entry({0, 1, 3, 4}, {}), 4, 0) == Entry({0, 1, 2, 3, 5}, {0})
  {
    var c, g := HEALED, Entry({0, 1, 3, 4}, {});
    assert TargetAncestors(c, {5}, 5) == {0, 1, 2, 3} by {
      assert c.states[5].ancestors == {0, 1, 2, 3};
    }
    assert {0, 1, 3, 4} - {4} + {5} + {0, 1, 2, 3} == {0, 1, 2, 3, 5};
    assert ResolveInitial(c, g, 4, 0) == ResolveInitial(c, Entry({0, 1, 2, 3, 5}, {0}), 4, 1);
  }

  lemma HealedNotGaping()
    ensures CompletesTo(HEALED, 1, 3) && !ChildOf(HEALED, 3, 1) && !Gaping(HEALED, 1)
  {
    var c := HEALED;
    assert Parent(c, 3) == 2 && Parent(c, 2) == 1;
    assert 4 in Defaults(c, 4);
    assert 4 in Defaults(c, 3);
    assert Repairs(c, 3);
    forall x: nat | CompletesTo(c, 1, x) ensures x == 3 {
      assert x in c.states[1].completion;
    }
  }
}
