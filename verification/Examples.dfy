/** A small chart that meets every assumption made about charts: a history state, a
    parallel state and transitions into both. */
module Examples {
  import opened Charts
  import opened EntrySets
  import opened Transitions
  import opened MicroSteps
  import opened Stepping
  import opened Exactness

  const ROWS: seq<State> := [
    State(0, Compound, {1}, {}, {1, 2, 3, 4, 5, 6, 7, 8}),
    State(0, Compound, {3}, {0}, {2, 3, 4}),
    State(1, HistoryShallow, {3, 4}, {0, 1}, {}),
    State(1, Atomic, {}, {0, 1}, {}),
    State(1, Atomic, {}, {0, 1}, {}),
    State(0, Parallel, {6, 8}, {0}, {6, 7, 8}),
    State(5, Compound, {7}, {0, 5}, {7}),
    State(6, Atomic, {}, {0, 5, 6}, {}),
    State(5, Atomic, {}, {0, 5}, {})]

  const MOVES: seq<Transition> := [
    Transition(3, {4}, {3, 4}, {0, 1, 2, 3}, Normal, false, true, false),
    Transition(1, {5}, {1, 3, 4, 5, 6, 7, 8}, {0, 1, 2, 3}, Normal, false, true, true),
    Transition(8, {2}, {1, 3, 4, 5, 6, 7, 8}, {0, 1, 2, 3}, Normal, false, false, true),
    Transition(2, {3}, {3, 4}, {0, 1, 2, 3}, OfHistory, false, false, false)]

  const PLAYER: Chart :=
    assert IsTree(RawChart(ROWS, MOVES));
    RawChart(ROWS, MOVES)

  ghost predicate UnderIs(c: Chart, k: nat, above: set<nat>) {
    k < Size(c) && forall a: nat :: Under(c, k, a) <==> a in above
  }

  lemma AllUnder(c: Chart)
    requires c.states == ROWS
    ensures UnderIs(c, 0, {}) && UnderIs(c, 1, {0}) && UnderIs(c, 2, {0, 1}) && UnderIs(c, 3, {0, 1}) && UnderIs(c, 4, {0, 1})
    ensures UnderIs(c, 5, {0}) && UnderIs(c, 6, {0, 5}) && UnderIs(c, 7, {0, 5, 6}) && UnderIs(c, 8, {0, 5})
    ensures forall k: nat, a: nat | k < 9 :: Under(c, k, a) <==> a in ROWS[k].ancestors
  {
    assert Parent(c, 1) == 0 && Parent(c, 2) == 1 && Parent(c, 3) == 1 && Parent(c, 4) == 1;
    assert Parent(c, 5) == 0 && Parent(c, 6) == 5 && Parent(c, 7) == 6 && Parent(c, 8) == 5;
    assert UnderIs(c, 0, {}) && UnderIs(c, 1, {0}) && UnderIs(c, 5, {0});
    assert UnderIs(c, 2, {0, 1}) && UnderIs(c, 3, {0, 1}) && UnderIs(c, 4, {0, 1}) && UnderIs(c, 6, {0, 5}) && UnderIs(c, 8, {0, 5});
    assert UnderIs(c, 7, {0, 5, 6});
  }

  lemma RowTables(c: Chart)
    requires c.states == ROWS
    ensures TablesOk(c)
  {
    hide AncestorsOf, Descendants;
    forall i: nat | i < Size(c) ensures TableAt(c, i) {
      RowAncestors(c, i);
      RowDescendants(c, i);
    }
  }

  lemma RowAncestors(c: Chart, i: nat)
    requires c.states == ROWS && i < 9
    ensures AncestorsOf(c, i) == ROWS[i].ancestors
  {
    AllUnder(c);
    assert forall a | a in ROWS[i].ancestors :: Under(c, i, a);
  }

  lemma RowDescendants(c: Chart, i: nat)
    requires c.states == ROWS && i < 9
    ensures Descendants(c, i) == ROWS[i].children
  {
    AllUnder(c);
    assert forall k: nat | k < 9 :: Under(c, k, i) <==> i in ROWS[k].ancestors;
  }

  /** History state 2 with the default transition `j` to state 3. */
  lemma RowHistory(c: Chart, j: nat)
    requires c.states == ROWS && j < |c.transitions| && FirstFrom(c, 2, 0) == j && c.transitions[j].target == {3}
    ensures HistoryOk(c, 2) && HistoryMask(c, 2) == {3, 4} && DefaultClosed(c, 2, j)
  {
    AllUnder(c);
    SingletonCompatible(c, 3);
    assert HistoryMask(c, 2) == {3, 4} by {
      assert ChildOf(c, 3, 1) && ChildOf(c, 4, 1);
    }
    assert HistoryDefault(c, 2, j) == {3};
  }

  lemma RowStates(c: Chart, j: nat)
    requires c.states == ROWS && j < |c.transitions| && FirstFrom(c, 2, 0) == j && c.transitions[j].target == {3}
    ensures StatesOk(c) && ChildCompletions(c) && DefaultsClosed(c)
  {
    AllUnder(c);
    RowTables(c);
    RowHistory(c, j);
    hide HistoryOk, TableAt, HistoryMask, DefaultClosed;
    assert ChildOf(c, 1, 0) && ChildOf(c, 3, 1) && ChildOf(c, 7, 6);
    assert CompletesTo(c, 0, 1) && CompletesTo(c, 1, 3) && CompletesTo(c, 6, 7);
    assert ProperChildren(c, 5) == {6, 8} by {
      assert ChildOf(c, 6, 5) && ChildOf(c, 8, 5);
    }
    forall i: nat | i < Size(c) ensures StateOk(c, i) { }
  }

  lemma RowMasks(c: Chart)
    requires c.states == ROWS
    ensures MasksApart(c)
  {
    assert forall g: nat | g < Size(c) && IsHistory(c, g) :: g == 2;
  }

  lemma PlayerDomains()
    ensures Domain(PLAYER, MOVES[0]) == 1 && Domain(PLAYER, MOVES[1]) == 0
    ensures Domain(PLAYER, MOVES[2]) == 0 && Domain(PLAYER, MOVES[3]) == 1
  {
    AllUnder(PLAYER);
    var c := PLAYER;
    assert Lcca(c, 1, {3} + {4}) == 1;
    assert Lcca(c, 0, {1} + {5}) == 0;
    assert !IsCompound(c, 5) && Lcca(c, 5, {8} + {2}) == Lcca(c, 0, {8} + {2}) == 0;
    assert Lcca(c, 1, {2} + {3}) == 1;
  }

  lemma PlayerExits()
    ensures forall j: nat | j < 4 :: ExitSetOf(PLAYER, MOVES[j]) == MOVES[j].exitSet
  {
    hide Domain, Under;
    PlayerDomains();
    PlayerBelow();
  }

  lemma PlayerBelow()
    ensures ProperBelow(PLAYER, 1) == {3, 4} && ProperBelow(PLAYER, 0) == {1, 3, 4, 5, 6, 7, 8}
  {
    hide Under;
    AllUnder(PLAYER);
  }

  lemma PlayerConflicts(j: nat)
    requires j < 4
    ensures (set k | 0 <= k < |PLAYER.transitions| && ConflictAt(PLAYER, j, k)) == {0, 1, 2, 3}
  {
    PlayerExits();
    hide ExitSetOf;
    var c := PLAYER;
    forall k: nat | k < 4 ensures ConflictAt(c, j, k) {
      assert 3 in MOVES[j].exitSet && 3 in MOVES[k].exitSet;
      assert 3 in ExitSetOf(c, MOVES[j]) * ExitSetOf(c, MOVES[k]);
    }
  }

  lemma PlayerTransition(j: nat)
    requires j < 4
    ensures TransitionOk(PLAYER, MOVES[j])
  {
    PlayerDomains();
    hide Domain, Compatible;
    SingletonCompatible(PLAYER, 4);
    SingletonCompatible(PLAYER, 5);
    SingletonCompatible(PLAYER, 2);
    SingletonCompatible(PLAYER, 3);
  }

  lemma PlayerHistoryFrom()
    ensures FirstFrom(PLAYER, 2, 0) == 3
  {
    assert FirstFrom(PLAYER, 2, 0) == FirstFrom(PLAYER, 2, 1) == FirstFrom(PLAYER, 2, 2) == FirstFrom(PLAYER, 2, 3);
  }

  /** The assumptions can be met. */
  lemma PlayerOk()
    ensures ChartOk(PLAYER)
  {
    hide StatesOk, ExitSetOf, TransitionOk, ConflictAt, Domain, ChildCompletions, DefaultsClosed;
    PlayerHistoryFrom();
    RowStates(PLAYER, 3);
    PlayerExits();
    PlayerDomains();
    forall j: nat | j < 4 ensures TransitionTableAt(PLAYER, j) {
      PlayerTransition(j);
      PlayerConflicts(j);
      assert ExitSetOf(PLAYER, MOVES[j]) == MOVES[j].exitSet;
    }
    assert Parent(PLAYER, 2) == 1;
  }

  // ---- A history state entered from inside its own parent ----

  const INSIDE: seq<Transition> := [
    Transition(3, {2}, {3, 4}, {0, 1}, Normal, false, true, false),
    Transition(2, {3}, {3, 4}, {0, 1}, OfHistory, false, false, false)]

  const LOOPER: Chart :=
    assert IsTree(RawChart(ROWS, INSIDE));
    RawChart(ROWS, INSIDE)

  const QUIET := Call(Input(false, false, {}, {}))

  /** Its event arrives before state 1 has been left: nothing is recorded. */
  const TOO_EARLY := [QUIET, QUIET, Call(Input(true, false, {0}, {}))]

  lemma LooperDomains()
    ensures Domain(LOOPER, INSIDE[0]) == 1 && Domain(LOOPER, INSIDE[1]) == 1
    ensures forall j: nat | j < 2 :: ExitSetOf(LOOPER, INSIDE[j]) == INSIDE[j].exitSet
  {
    var c := LOOPER;
    AllUnder(c);
    assert Lcca(c, 1, {3} + {2}) == 1 && Lcca(c, 1, {2} + {3}) == 1;
    assert ProperBelow(c, 1) == {3, 4};
  }

  lemma LooperConflicts(j: nat)
    requires j < 2
    ensures (set k | 0 <= k < |LOOPER.transitions| && ConflictAt(LOOPER, j, k)) == {0, 1}
  {
    LooperDomains();
    hide ExitSetOf;
    var c := LOOPER;
    forall k: nat | k < 2 ensures ConflictAt(c, j, k) {
      assert 3 in INSIDE[j].exitSet && 3 in INSIDE[k].exitSet;
      assert 3 in ExitSetOf(c, INSIDE[j]) * ExitSetOf(c, INSIDE[k]);
    }
  }

  /** Only the transition from inside keeps the chart from being in order. */
  lemma LooperWellFormed()
    ensures WellFormed(LOOPER) && ChildCompletions(LOOPER) && DefaultsClosed(LOOPER) && MasksApart(LOOPER)
    ensures FromInside(LOOPER, INSIDE[0], 2)
  {
    hide StatesOk, ExitSetOf, ConflictAt, Domain, Compatible, MasksApart, ChildCompletions, DefaultsClosed;
    var c := LOOPER;
    assert FirstFrom(c, 2, 0) == FirstFrom(c, 2, 1) == 1;
    RowStates(c, 1);
    RowMasks(c);
    LooperDomains();
    SingletonCompatible(c, 2);
    SingletonCompatible(c, 3);
    assert Parent(c, 2) == 1;
    forall j: nat | j < 2 ensures TransitionTableAt(c, j) {
      LooperConflicts(j);
    }
  }

  /** From the start, the third call empties state 1 ... */
  lemma HistoryFromInside()
    ensures Run(LOOPER, TOO_EARLY).configuration == {0, 1} && !Legal(LOOPER, {0, 1})
  {
    hide Select, Remember, EntrySet, SelectAndStep, Legal, Step, MicroStep;
    var c := LOOPER;
    LooperBefore();
    var st := Run(c, TOO_EARLY[..2]);
    var m := Stimulus(true, {0}, {});
    assert TOO_EARLY == TOO_EARLY[..2] + [TOO_EARLY[2]];
    RunLonger(c, TOO_EARLY[..2], TOO_EARLY[2]);
    LooperThird(st);
    LooperSelects();
    assert {3, 4} * {0, 1, 3} == {3};
    NothingRemembered(0);
    SelectedConfiguration(c, st, m);
    LooperEnters();
    LooperIllegal();
  }

  lemma LooperBefore()
    ensures
      var st := Run(LOOPER, TOO_EARLY[..2]);
      st.configuration == {0, 1, 3} && st.history == {} && st.flags == Flags(false, true, false, false, false)
  {
    hide Descend, MicroStep;
    var c := LOOPER;
    var start := FRESH.(flags := PRISTINE.(spontaneous := true, initialized := true));
    assert TOO_EARLY[..2] == [QUIET] + [QUIET];
    RunLonger(c, [], QUIET);
    RunLonger(c, [QUIET], QUIET);
    assert [] + [QUIET] == [QUIET];
    var st := Run(c, [QUIET]);
    assert st == MicroStep(c, start, {}, {1}, {}).stepper;
    LooperStarts(start);
    assert Select(c, {0, 1, 3}, Stimulus(false, {}, {})) == NOTHING by { LooperQuiet(); }
  }

  lemma LooperQuiet()
    ensures Select(LOOPER, {0, 1, 3}, Stimulus(false, {}, {})) == NOTHING
  {
    var c, m := LOOPER, Stimulus(false, {}, {});
    assert SelectFrom(c, {0, 1, 3}, m, NOTHING, 0) == SelectFrom(c, {0, 1, 3}, m, NOTHING, 1)
        == SelectFrom(c, {0, 1, 3}, m, NOTHING, 2);
  }

  lemma LooperStarts(start: Stepper)
    requires start == FRESH.(flags := PRISTINE.(spontaneous := true, initialized := true))
    ensures
      var st := MicroStep(LOOPER, start, {}, {1}, {}).stepper;
      st.configuration == {0, 1, 3} && st.history == {} && st.flags == Flags(true, true, false, false, false)
  {
    hide Descend, MicroStep, WithAncestors;
    var c := LOOPER;
    LooperPass();
    LooperTargets();
    MicroStepConfiguration(c, start, {}, {1}, {});
    assert NextConfiguration(c, {}, {}, {0, 1, 3}) == {0, 1, 3};
    StartKeeps(c, start);
    LooperNoFinal(start);
  }

  lemma LooperNoFinal(start: Stepper)
    requires !start.flags.topLevelFinal && start.configuration == {}
    ensures !MicroStep(LOOPER, start, {}, {1}, {}).stepper.flags.topLevelFinal
  {
    hide EntrySet, TakeActions, ExitActions;
    var c := LOOPER;
    var e := EntrySet(c, {}, start.history, {}, {1}, {});
    NoFinals(e, Entering({} - {}, start.initializedData, false, ExitActions({} * {}, Size(c)) + TakeActions(c, e.trans, 0)), 0);
  }

  lemma LooperTargets()
    ensures WithAncestors(LOOPER, {1}) == {0, 1}
  {
    assert LOOPER.states[1].ancestors == {0};
  }

  lemma LooperPass()
    ensures Descend(LOOPER, {}, {}, {}, Entry({0, 1}, {}), 0) == Entry({0, 1, 3}, {})
  {
    var c := LOOPER;
    var e, f := Entry({0, 1}, {}), Entry({0, 1, 3}, {});
    assert Resolve(c, {}, {}, {}, e, 0) == e by {
      assert 1 in e.states * c.states[0].children;
    }
    assert Resolve(c, {}, {}, {}, e, 1) == f by {
      assert {0, 1} * c.states[1].children == {} && {} * c.states[1].children == {};
      assert 3 in c.states[1].completion * c.states[1].children;
      assert {0, 1} + {3} + {} == {0, 1, 3};
    }
    assert Descend(c, {}, {}, {}, e, 0) == Descend(c, {}, {}, {}, e, 1) == Descend(c, {}, {}, {}, f, 2);
    OnlyAtoms(f, 2);
  }

  lemma {:induction false} OnlyAtoms(f: Entry, i: nat)
    requires f.states == {0, 1, 3} && 2 <= i
    ensures Descend(LOOPER, {}, {}, {}, f, i) == f
    decreases 9 - i
  {
    if i < 9 { OnlyAtoms(f, i + 1); }
  }

  lemma {:induction false} NoFinals(e: Entry, s: Entering, i: nat)
    ensures EnterFrom(LOOPER, e, s, i).topLevelFinal == s.topLevelFinal
    decreases 9 - i
  {
    if i < 9 {
      NoFinals(e, if i in e.states && i !in s.configuration && Proper(LOOPER, i) then EnterOne(LOOPER, e.trans, s, i) else s, i + 1);
    }
  }

  lemma LooperThird(st: Stepper)
    requires st.flags == Flags(false, true, false, false, false)
    ensures Next(LOOPER, st, TOO_EARLY[2]) == SelectAndStep(LOOPER, st, Stimulus(true, {0}, {})).stepper
  {
    hide SelectAndStep;
  }

  /** ... while the same event is harmless once something is recorded. */
  lemma HistoryFromInsideRecorded(st: Stepper)
    requires st.configuration == {0, 1, 3} && st.history == {4}
    ensures Legal(LOOPER, SelectAndStep(LOOPER, st, Stimulus(true, {0}, {})).stepper.configuration)
  {
    hide WellFormed, MasksApart, Legal, ChildCompletions, DefaultsClosed, SelectAndStep, HistoryLegal, RecordsUsable, GoesWrong, Select, NoneGaping;
    var c, m := LOOPER, Stimulus(true, {0}, {});
    LooperWellFormed();
    LooperLegal();
    LooperRecords();
    SelectionExact(c, st, m);
    LooperSelects();
    InOrderDoesNotGape(c);
    assert 4 in HistoryMask(c, 2) * {4};
    assert forall h: nat | IsHistory(c, h) :: h == 2;
    SelectionGoesRight(c, st, m);
  }

  lemma LooperLegal()
    ensures Legal(LOOPER, {0, 1, 3})
  {
    hide CompoundsFilled, OneChildEach;
    LooperFilled();
    LooperSingle();
  }

  lemma LooperFilled()
    ensures CompoundsFilled(LOOPER, {0, 1, 3})
  {
    var c := LOOPER;
    assert ChildOf(c, 1, 0) && ChildOf(c, 3, 1);
    assert HasChildIn(c, 0, {0, 1, 3}) && HasChildIn(c, 1, {0, 1, 3});
  }

  lemma LooperSingle()
    ensures OneChildEach(LOOPER, {0, 1, 3})
  {
    var c := LOOPER;
    assert Parent(c, 1) == 0 && Parent(c, 3) == 1;
  }

  lemma LooperRecords()
    ensures HistoryLegal(LOOPER, {0, 1, 3}, {4}) && RecordsUsable(LOOPER, {4}) && 4 in HistoryMask(LOOPER, 2)
  {
    hide LegalBelow, HistoryMask;
    var c := LOOPER;
    RowHistory(c, 1) by { assert FirstFrom(c, 2, 0) == FirstFrom(c, 2, 1) == 1; }
    assert HistoryMask(c, 2) * {4} == {4};
    LooperRecord();
    forall h: nat | 0 < h && IsHistory(c, h) ensures h == 2 && Parent(c, h) == 1 { }
  }

  lemma LooperRecord()
    ensures LegalBelow(LOOPER, 1, {4}, false)
  {
    var c := LOOPER;
    AllUnder(c);
    assert ChildOf(c, 4, 1) && HasChildIn(c, 1, {4});
    assert Parent(c, 4) == 1;
  }

  lemma LooperSelects()
    ensures Select(LOOPER, {0, 1, 3}, Stimulus(true, {0}, {})) == Selection({0}, {0, 1}, {2}, {3, 4})
  {
    var c, m := LOOPER, Stimulus(true, {0}, {});
    assert SelectFrom(c, {0, 1, 3}, m, NOTHING, 0) == SelectFrom(c, {0, 1, 3}, m, Choose(c, NOTHING, 0), 1)
        == SelectFrom(c, {0, 1, 3}, m, Choose(c, NOTHING, 0), 2);
  }

  lemma LooperEnters()
    ensures NextConfiguration(LOOPER, {0, 1, 3}, {3}, EntrySet(LOOPER, {0, 1, 3}, {}, {3}, {2}, {0}).states) == {0, 1}
  {
    hide Descend;
    assert LOOPER.states[2].ancestors == {0, 1};
    assert WithAncestors(LOOPER, {2}) == {2} + {0, 1} == {0, 1, 2};
    NothingAdded(0);
  }

  lemma LooperIllegal()
    ensures !Legal(LOOPER, {0, 1})
  {
    assert IsCompound(LOOPER, 1) && forall x: nat | ChildOf(LOOPER, x, 1) :: x > 1;
    assert !CompoundsFilled(LOOPER, {0, 1});
  }

  lemma {:induction false} NothingRemembered(i: nat)
    ensures Remember(LOOPER, {0, 1, 3}, {3}, {}, i) == {}
    decreases 9 - i
  {
    if i < 9 { NothingRemembered(i + 1); }
  }

  lemma {:induction false} NothingAdded(i: nat)
    ensures Descend(LOOPER, {0, 1, 3}, {}, {3}, Entry({0, 1, 2}, {0}), i) == Entry({0, 1, 2}, {0})
    decreases 9 - i
  {
    hide Resolve;
    if i < 9 {
      NothingAdded(i + 1);
      if i < 3 { NothingResolved(i); }
    }
  }

  lemma NothingResolved(i: nat)
    requires i < 3
    ensures Resolve(LOOPER, {0, 1, 3}, {}, {3}, Entry({0, 1, 2}, {0}), i) == Entry({0, 1, 2}, {0})
  {
    var c, e := LOOPER, Entry({0, 1, 2}, {0});
    if i == 0 {
      assert 1 in e.states * c.states[0].children;
    } else if i == 1 {
      assert 2 in e.states * c.states[1].children;
    } else {
      assert c.states[2].completion * {} == {};
    }
  }

  // ---- The default of a deep history state that leaves a gap ----

  /** Deep history state 3 defaults to states 6 and 9 in the two regions of state 4;
      state 8 lies between region 7 and state 9. */
  const FORK_ROWS: seq<State> := [
    State(0, Compound, {1}, {}, {1, 2, 3, 4, 5, 6, 7, 8, 9}),
    State(0, Initial, {}, {0}, {}),
    State(0, Compound, {4}, {0}, {3, 4, 5, 6, 7, 8, 9}),
    State(2, HistoryDeep, {4, 5, 6, 7, 8, 9}, {0, 2}, {}),
    State(2, Parallel, {5, 7}, {0, 2}, {5, 6, 7, 8, 9}),
    State(4, Compound, {6}, {0, 2, 4}, {6}),
    State(5, Atomic, {}, {0, 2, 4, 5}, {}),
    State(4, Compound, {8}, {0, 2, 4}, {8, 9}),
    State(7, Compound, {9}, {0, 2, 4, 7}, {9}),
    State(8, Atomic, {}, {0, 2, 4, 7, 8}, {})]

  const FORK_MOVES: seq<Transition> := [
    Transition(1, {3}, {}, {0, 1}, OfInitial, false, false, false),
    Transition(3, {6, 9}, {4, 5, 6, 7, 8, 9}, {0, 1}, OfHistory, false, false, false)]

  const FORK: Chart :=
    assert IsTree(RawChart(FORK_ROWS, FORK_MOVES));
    RawChart(FORK_ROWS, FORK_MOVES)

  /** Only the first target's ancestors are added, and state 9 is entered without its
      parent. */
  lemma HistoryDefaultGap()
    ensures Run(FORK, [QUIET]).configuration == {0, 2, 4, 5, 6, 7, 9}
    ensures ChildOf(FORK, 9, 8) && !Legal(FORK, {0, 2, 4, 5, 6, 7, 9})
  {
    hide Descend, MicroStep, Legal;
    var c := FORK;
    var st := FRESH.(flags := PRISTINE.(spontaneous := true, initialized := true));
    RunLonger(c, [], QUIET);
    assert [] + [QUIET] == [QUIET];
    ForkTargets();
    ForkBegins();
    ForkDefault();
    ForkEnds();
    MicroStepConfiguration(c, st, {}, {1}, {});
    ForkNext();
    ForkIllegal();
  }

  lemma ForkTargets()
    ensures WithAncestors(FORK, {1}) == {0, 1}
  {
    assert FORK.states[1].ancestors == {0};
  }

  lemma ForkNext()
    ensures NextConfiguration(FORK, {}, {}, {0, 2, 3, 4, 5, 6, 7, 9}) == {0, 2, 4, 5, 6, 7, 9}
  {
  }

  lemma ForkIllegal()
    ensures ChildOf(FORK, 9, 8) && !Legal(FORK, {0, 2, 4, 5, 6, 7, 9})
  {
    assert ChildOf(FORK, 9, 8);
    assert !ParentsIn(FORK, {0, 2, 4, 5, 6, 7, 9});
  }

  lemma ForkBegins()
    ensures Descend(FORK, {}, {}, {}, Entry({0, 1}, {}), 0) == Descend(FORK, {}, {}, {}, Entry({0, 2, 3}, {0}), 3)
  {
    var c := FORK;
    var e, f := Entry({0, 1}, {}), Entry({0, 2, 3}, {0});
    assert Resolve(c, {}, {}, {}, e, 0) == e by { assert 1 in e.states * c.states[0].children; }
    assert Resolve(c, {}, {}, {}, e, 1) == f by {
      assert TargetAncestors(c, {3}, 2) == {0, 2} by { assert c.states[3].ancestors == {0, 2}; }
      assert {0, 1} - {1} + {3} + {0, 2} == {0, 2, 3};
      assert ResolveInitial(c, e, 1, 0) == ResolveInitial(c, f, 1, 1) == ResolveInitial(c, f, 1, 2);
    }
    assert Resolve(c, {}, {}, {}, f, 2) == f by { assert 3 in f.states * c.states[2].children; }
    assert Descend(c, {}, {}, {}, e, 0) == Descend(c, {}, {}, {}, e, 1) == Descend(c, {}, {}, {}, f, 2);
  }

  lemma ForkDefault()
    ensures Descend(FORK, {}, {}, {}, Entry({0, 2, 3}, {0}), 3)
            == Descend(FORK, {}, {}, {}, Entry({0, 2, 3, 4, 5, 6, 9}, {0, 1}), 4)
  {
    var c := FORK;
    var e, f := Entry({0, 2, 3}, {0}), Entry({0, 2, 3, 4, 5, 6, 9}, {0, 1});
    assert FirstFrom(c, 3, 0) == FirstFrom(c, 3, 1) == 1;
    assert FirstTargetAncestors(c, {6, 9}, 4) == FirstTargetAncestors(c, {6, 9}, 5) == FirstTargetAncestors(c, {6, 9}, 6)
        == {0, 2, 4, 5};
    assert c.states[3].completion * {} == {} && {6, 9} * c.states[3].children == {};
    assert {0, 2, 3} + {6, 9} + {0, 2, 4, 5} == {0, 2, 3, 4, 5, 6, 9} && {0} + {1} == {0, 1};
    assert ResolveHistory(c, {}, {}, e, 3) == f;
  }

  lemma ForkEnds()
    ensures Descend(FORK, {}, {}, {}, Entry({0, 2, 3, 4, 5, 6, 9}, {0, 1}), 4) == Entry({0, 2, 3, 4, 5, 6, 7, 9}, {0, 1})
  {
    var c := FORK;
    var e, f := Entry({0, 2, 3, 4, 5, 6, 9}, {0, 1}), Entry({0, 2, 3, 4, 5, 6, 7, 9}, {0, 1});
    assert Resolve(c, {}, {}, {}, e, 4) == f by { assert e.states + {5, 7} == f.states; }
    assert Resolve(c, {}, {}, {}, f, 5) == f by { assert 6 in f.states * c.states[5].children; }
    assert Resolve(c, {}, {}, {}, f, 7) == f by { assert 9 in f.states * c.states[7].children; }
    assert Descend(c, {}, {}, {}, e, 4) == Descend(c, {}, {}, {}, f, 5) == Descend(c, {}, {}, {}, f, 6);
    assert Descend(c, {}, {}, {}, f, 6) == Descend(c, {}, {}, {}, f, 7) == Descend(c, {}, {}, {}, f, 8);
    assert Descend(c, {}, {}, {}, f, 8) == Descend(c, {}, {}, {}, f, 9) == Descend(c, {}, {}, {}, f, 10) == f;
  }
}
