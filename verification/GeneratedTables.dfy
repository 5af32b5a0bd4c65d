/** The tables of generated C list only direct children where the interpreter's
    list every descendant.  Both lead to the same entry set. */
module GeneratedTables {
  import opened Charts
  import opened EntrySets
  import opened Transitions
  import opened MicroSteps
  import opened Stepping

  function DirectChildren(c: Chart, a: nat): set<nat> {
    set k | 0 <= k < Size(c) && ChildOf(c, k, a)
  }

  /** The same chart with direct children only. */
  function Generated(c: Chart): (g: Chart)
    ensures Size(g) == Size(c) && g.transitions == c.transitions
    ensures forall i: nat | i < Size(c) :: SameRow(c, g, i)
  {
    var states := seq(Size(c), (i: nat) requires i < Size(c) => c.states[i].(children := DirectChildren(c, i)));
    assert forall i: nat | 0 < i < Size(c) :: PlacedAt(states, i) by {
      forall i: nat | 0 < i < Size(c) ensures PlacedAt(states, i) { assert PlacedAt(c.states, i); }
    }
    RawChart(states, c.transitions)
  }

  predicate SameRow(c: Chart, g: Chart, i: nat) {
    && i < Size(c) && i < Size(g)
    && g.states[i] == c.states[i].(children := DirectChildren(c, i))
  }

  ghost predicate SameChart(c: Chart, g: Chart) {
    && Size(g) == Size(c) && g.transitions == c.transitions
    && forall i: nat | i < Size(c) :: SameRow(c, g, i)
  }

  // ---- The parts of the pass that do not look at children ----

  lemma {:induction false} SameFirstFrom(c: Chart, g: Chart, i: nat, j: nat)
    requires g.transitions == c.transitions && j <= |c.transitions|
    ensures FirstFrom(g, i, j) == FirstFrom(c, i, j)
    decreases |c.transitions| - j
  {
    if j < |c.transitions| { SameFirstFrom(c, g, i, j + 1); }
  }

  lemma {:induction false} SameFirstAncestors(c: Chart, g: Chart, t: set<nat>, k: nat)
    requires SameChart(c, g)
    ensures FirstTargetAncestors(g, t, k) == FirstTargetAncestors(c, t, k)
    decreases Size(c) - k
  {
    if k < Size(c) {
      assert SameRow(c, g, k);
      SameFirstAncestors(c, g, t, k + 1);
    }
  }

  lemma SameAncestors(c: Chart, g: Chart, t: set<nat>, k: nat)
    requires SameChart(c, g)
    ensures TargetAncestors(g, t, k) == TargetAncestors(c, t, k) && WithAncestors(g, t) == WithAncestors(c, t)
  {
    forall x: nat | x < Size(c) ensures g.states[x].ancestors == c.states[x].ancestors {
      assert SameRow(c, g, x);
    }
  }

  lemma {:induction false} SameInitial(c: Chart, g: Chart, e: Entry, i: nat, j: nat)
    requires SameChart(c, g) && j <= |c.transitions|
    ensures ResolveInitial(g, e, i, j) == ResolveInitial(c, e, i, j)
    decreases |c.transitions| - j
  {
    if j < |c.transitions| {
      var t := c.transitions[j].target;
      SameAncestors(c, g, t, i + 1);
      SameInitial(c, g, e, i, j + 1);
      SameInitial(c, g, Entry(e.states - {i} + t + TargetAncestors(c, t, i + 1), e.trans + {j}), i, j + 1);
    }
  }

  lemma SameHistory(c: Chart, g: Chart, cfg: set<nat>, hist: set<nat>, e: Entry, i: nat)
    requires SameChart(c, g) && i < Size(c) && c.states[i].children == {} && IsHistory(c, i)
    ensures ResolveHistory(g, cfg, hist, e, i) == ResolveHistory(c, cfg, hist, e, i)
  {
    assert SameRow(c, g, i);
    SameFirstFrom(c, g, i, 0);
    var j := FirstFrom(c, i, 0);
    if j < |c.transitions| { SameFirstAncestors(c, g, c.transitions[j].target, i + 1); }
    assert DirectChildren(c, i) == {};
  }

  // ---- The completion test ----

  /** Closed upward, a set meets the descendants exactly if it meets the children. */
  lemma MeetsChildren(c: Chart, s: set<nat>, i: nat)
    requires ParentsIn(c, s)
    ensures s * Descendants(c, i) == {} <==> s * DirectChildren(c, i) == {}
  {
    if s * DirectChildren(c, i) != {} {
      var x :| x in s * DirectChildren(c, i);
      ChildUnder(c, x, i);
      assert x in s * Descendants(c, i);
    }
    if s * Descendants(c, i) != {} {
      var y :| y in s * Descendants(c, i);
      var w := TowardIn(c, s, y, i);
      assert w in s * DirectChildren(c, i);
    }
  }

  /** With direct children the test asks the same question, although the states
      being left are not closed upward. */
  lemma SameCompletes(c: Chart, g: Chart, cfg: set<nat>, z: set<nat>, e: set<nat>, i: nat)
    requires StatesOk(c) && SameRow(c, g, i) && ZoneOk(c, cfg, z) && Shape(c, cfg, z, e, i)
    requires i in e && IsCompound(c, i)
    ensures Completes(g, cfg, cfg * z, e, i) == Completes(c, cfg, cfg * z, e, i)
  {
    assert TableAt(c, i);
    assert ParentsIn(c, cfg) by { assert cfg == {} || Legal(c, cfg); }
    MeetsChildren(c, e, i);
    MeetsChildren(c, cfg, i);
    if i in z {
      forall y | y in Descendants(c, i) ensures y in z { UnderInZone(c, cfg, z, y, i); }
      forall y | y in DirectChildren(c, i) ensures y in z { }
      assert cfg * z * Descendants(c, i) == cfg * Descendants(c, i);
      assert cfg * z * DirectChildren(c, i) == cfg * DirectChildren(c, i);
    } else {
      KeptNotCompleted(c, cfg, z, e, i);
      KeptNotCompletedDirect(c, g, cfg, z, e, i);
    }
  }

  lemma KeptNotCompletedDirect(c: Chart, g: Chart, cfg: set<nat>, z: set<nat>, e: set<nat>, i: nat)
    requires StatesOk(c) && SameRow(c, g, i) && ZoneOk(c, cfg, z) && Shape(c, cfg, z, e, i)
    requires i in e && i !in z && IsCompound(c, i)
    ensures !Completes(g, cfg, cfg * z, e, i)
  {
    var x: nat :| ChildOf(c, x, i) && Proper(c, x) && x in cfg;
    assert x in cfg * g.states[i].children;
    if x in z {
      var y: nat :| ChildOf(c, y, i) && Live(c, e, y, i);
      assert y in e * g.states[i].children;
    } else {
      assert forall y: nat | ChildOf(c, y, i) :: y !in z;
    }
  }

  lemma SameResolve(c: Chart, g: Chart, cfg: set<nat>, hist: set<nat>, z: set<nat>, e: Entry, i: nat)
    requires SameChart(c, g) && Setting(c, cfg, hist, z) && PassInv(c, cfg, z, e.states, i)
    requires i < Size(c) && i in e.states && (IsCompound(c, i) ==> ChildCompletions(c))
    ensures Resolve(g, cfg, hist, cfg * z, e, i) == Resolve(c, cfg, hist, cfg * z, e, i)
  {
    hide Compatible, ChildCompletions, HistoryReady, Apart, Filled, EdgesFilled;
    assert StateOk(c, i) && SameRow(c, g, i);
    match c.states[i].kind
    case Atomic =>
    case Final =>
    case Parallel =>
    case Initial => SameInitial(c, g, e, i, 0);
    case HistoryDeep => SameHistory(c, g, cfg, hist, e, i);
    case HistoryShallow => SameHistory(c, g, cfg, hist, e, i);
    case Compound =>
      SameCompletes(c, g, cfg, z, e.states, i);
      var x := CompletedBy(c, i);
      assert x in g.states[i].completion * g.states[i].children;
  }

  lemma {:induction false} SameDescend(c: Chart, g: Chart, cfg: set<nat>, hist: set<nat>, z: set<nat>, e: Entry, i: nat)
    requires SameChart(c, g) && Setting(c, cfg, hist, z) && ChildCompletions(c) && PassInv(c, cfg, z, e.states, i)
    requires DefaultsClosed(c) && Recorded(c, hist, z, e.states) && i <= Size(c)
    ensures Descend(g, cfg, hist, cfg * z, e, i) == Descend(c, cfg, hist, cfg * z, e, i)
    decreases Size(c) - i
  {
    hide PassInv, Setting, Resolve, Recorded, ChildCompletions, DefaultsClosed;
    if i < Size(c) {
      if i in e.states {
        RecordedHere(c, hist, z, e.states, i);
        PassStep(c, cfg, hist, z, e, i);
        RecordedStays(c, cfg, hist, z, e, i);
        SameResolve(c, g, cfg, hist, z, e, i);
        SameDescend(c, g, cfg, hist, z, Resolve(c, cfg, hist, cfg * z, e, i), i + 1);
      } else {
        PassSkips(c, cfg, z, e.states, i);
        SameDescend(c, g, cfg, hist, z, e, i + 1);
      }
    }
  }

  // ---- Selection, history and entering ----

  lemma {:induction false} SameSelect(c: Chart, g: Chart, cfg: set<nat>, m: Stimulus, s: Selection, i: nat)
    requires g.transitions == c.transitions && i <= |c.transitions|
    ensures SelectFrom(g, cfg, m, s, i) == SelectFrom(c, cfg, m, s, i)
    decreases |c.transitions| - i
  {
    if i < |c.transitions| {
      SameSelect(c, g, cfg, m, if Enabled(c, cfg, m, i) && i !in s.conflicts then Choose(c, s, i) else s, i + 1);
    }
  }

  lemma {:induction false} SameRemember(c: Chart, g: Chart, cfg: set<nat>, exits: set<nat>, hist: set<nat>, i: nat)
    requires SameChart(c, g)
    ensures Remember(g, cfg, exits, hist, i) == Remember(c, cfg, exits, hist, i)
    decreases Size(c) - i
  {
    if i < Size(c) {
      assert SameRow(c, g, i);
      var s := c.states[i];
      SameRemember(c, g, cfg, exits,
        if IsHistoryKind(s.kind) && s.parent in exits then hist - s.completion + s.completion * cfg else hist, i + 1);
    }
  }

  /** Entering differs at most in the handlers' actions. */
  predicate SameEntering(s: Entering, t: Entering) {
    s.configuration == t.configuration && s.initializedData == t.initializedData && s.topLevelFinal == t.topLevelFinal
  }

  lemma {:induction false} SameEnter(c: Chart, g: Chart, e: Entry, s: Entering, t: Entering, i: nat)
    requires SameChart(c, g) && SameEntering(s, t)
    ensures SameEntering(EnterFrom(g, e, s, i), EnterFrom(c, e, t, i))
    decreases Size(c) - i
  {
    if i < Size(c) {
      assert SameRow(c, g, i);
      if i in e.states && i !in s.configuration && Proper(c, i) {
        SameEnter(c, g, e, EnterOne(g, e.trans, s, i), EnterOne(c, e.trans, t, i), i + 1);
      } else {
        SameEnter(c, g, e, s, t, i + 1);
      }
    }
  }

  lemma SameMicroStep(c: Chart, g: Chart, st: Stepper, z: set<nat>, targets: set<nat>, trans: set<nat>)
    requires SameChart(c, g) && Setting(c, st.configuration, st.history, z) && ChildCompletions(c) && DefaultsClosed(c)
    requires PassInv(c, st.configuration, z, WithAncestors(c, targets), 0)
    requires Recorded(c, st.history, z, WithAncestors(c, targets))
    ensures
      var exits := st.configuration * z;
      && EntrySet(g, st.configuration, st.history, exits, targets, trans)
         == EntrySet(c, st.configuration, st.history, exits, targets, trans)
      && MicroStep(g, st, exits, targets, trans).stepper == MicroStep(c, st, exits, targets, trans).stepper
  {
    var cfg, exits := st.configuration, st.configuration * z;
    SameAncestors(c, g, targets, 0);
    SameDescend(c, g, cfg, st.history, z, Entry(WithAncestors(c, targets), trans), 0);
    var e := EntrySet(c, cfg, st.history, exits, targets, trans);
    SameEnter(c, g, e,
      Entering(cfg - exits, st.initializedData, st.flags.topLevelFinal,
               ExitActions(exits * cfg, Size(c)) + TakeActions(g, e.trans, 0)),
      Entering(cfg - exits, st.initializedData, st.flags.topLevelFinal,
               ExitActions(exits * cfg, Size(c)) + TakeActions(c, e.trans, 0)), 0);
  }

  /** From any legal configuration, a chart's interpreter tables and its generated
      tables lead to the same next stepper, for whatever is enabled. */
  lemma GeneratedAgrees(c: Chart, st: Stepper, m: Stimulus)
    requires ChartOk(c) && Legal(c, st.configuration) && HistoryLegal(c, st.configuration, st.history)
    ensures SelectAndStep(Generated(c), st, m).stepper == SelectAndStep(c, st, m).stepper
  {
    var g := Generated(c);
    var cfg := st.configuration;
    SameSelect(c, g, cfg, m, NOTHING, 0);
    var sel := Select(c, cfg, m);
    if sel.trans != {} {
      hide Consistent, PassInv, Select, Recorded;
      ChartSetting(c, st, m);
      var z := Zone(c, sel.trans);
      SameRemember(c, g, cfg, cfg * z, st.history, 0);
      var woken := st.(flags := st.flags.(stable := false, spontaneous := true),
                       history := Remember(c, cfg, cfg * z, st.history, 0));
      SameMicroStep(c, g, woken, z, sel.targets, sel.trans);
    }
  }

  /** ... and so do whole runs. */
  lemma {:induction false} GeneratedRuns(c: Chart, evs: seq<Event>)
    requires ChartOk(c)
    ensures Run(Generated(c), evs) == Run(c, evs)
  {
    if evs != [] {
      var before, ev := evs[..|evs| - 1], evs[|evs| - 1];
      GeneratedRuns(c, before);
      RunsAreLegal(c, before);
      if ev.Call? { GeneratedSteps(c, Run(c, before), ev.input); }
    }
  }

  lemma GeneratedSteps(c: Chart, st: Stepper, input: Input)
    requires ChartOk(c) && Sound(c, st)
    ensures Step(Generated(c), st, input).stepper == Step(c, st, input).stepper
  {
    hide Legal, HistoryLegal, MicroStep, SelectAndStep;
    assert AllStates(Generated(c)) == AllStates(c);
    if st.flags.finished || st.flags.topLevelFinal {
    } else if st.flags == PRISTINE {
      GeneratedStart(c, st.(flags := st.flags.(spontaneous := true, initialized := true)));
    } else {
      var managed := st.(invocations := (st.invocations - AllStates(c)) + st.configuration * AllStates(c));
      GeneratedAgrees(c, st, Stimulus(false, input.matched, input.holds));
      GeneratedAgrees(c, st, Stimulus(true, input.matched, input.holds));
      GeneratedAgrees(c, managed, Stimulus(true, input.matched, input.holds));
    }
  }

  lemma GeneratedStart(c: Chart, st: Stepper)
    requires ChartOk(c) && st.configuration == {} && st.history == {}
    ensures Generated(c).states[0].completion == c.states[0].completion
    ensures MicroStep(Generated(c), st, {}, c.states[0].completion, {}).stepper
            == MicroStep(c, st, {}, c.states[0].completion, {}).stepper
  {
    var g := Generated(c);
    assert SameRow(c, g, 0) && StateOk(c, 0);
    StartSetting(c);
    assert {} * AllStates(c) == {};
    SameMicroStep(c, g, st, AllStates(c), c.states[0].completion, {});
  }
}
