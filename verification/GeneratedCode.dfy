/** The step function of generated C code on sets.  One call goes on taking events
    until some transition is found, where the interpreter returns after each. */
module GeneratedCode {
  import opened Charts
  import opened EntrySets
  import opened Transitions
  import opened MicroSteps
  import opened Stepping
  import opened GeneratedTables
  import opened Interpreter
  import opened Invocations

  datatype CFlags = CFlags(spontaneous: bool, initialized: bool, topLevelFinal: bool, finished: bool)

  const CPRISTINE := CFlags(false, false, false, false)

  datatype Ctx = Ctx(
    config: set<nat>,
    history: set<nat>,
    invocations: set<nat>,
    initializedData: set<nat>,
    flags: CFlags)

  const CFRESH := Ctx({}, {}, {}, {}, CPRISTINE)

  datatype Code = Ok | Done | IdleCode

  datatype COutcome = COutcome(ctx: Ctx, actions: seq<Action>, code: Code)

  // ---- A microstep ----

  /** Ancestors are added in place, in document order. */
  function Climb(c: Chart, s: set<nat>, i: nat): set<nat>
    decreases Size(c) - i
  {
    if i >= Size(c) then s else Climb(c, if i in s then s + c.states[i].ancestors else s, i + 1)
  }

  /** The test for a top-level final state sees the first eight states only. */
  predicate FirstByteFinal(c: Chart, i: nat)
    requires i < Size(c)
  {
    c.states[i].kind == Final && (set a | a in c.states[i].ancestors && a < 8) == {0}
  }

  function CEnterOne(c: Chart, trans: set<nat>, s: Entering, i: nat): Entering
    requires i < Size(c)
  {
    Entering(
      s.configuration + {i},
      s.initializedData + {i},
      s.topLevelFinal || FirstByteFinal(c, i),
      s.actions + (if i in s.initializedData then [] else [InitData(i)]) + [OnEntry(i)] + DefaultActions(c, trans, i, 0))
  }

  function CEnterFrom(c: Chart, e: Entry, s: Entering, i: nat): Entering
    decreases Size(c) - i
  {
    if i >= Size(c) then s
    else
      CEnterFrom(c, e,
                 if i in e.states && i !in s.configuration && Proper(c, i) then CEnterOne(c, e.trans, s, i) else s, i + 1)
  }

  function CMicroStep(c: Chart, x: Ctx, exits: set<nat>, targets: set<nat>, trans: set<nat>): (o: COutcome)
    ensures o.code == Ok
  {
    var e := Descend(c, x.config, x.history, exits, Entry(Climb(c, targets, 0), trans), 0);
    var s := CEnterFrom(c, e, Entering(x.config - exits, x.initializedData, x.flags.topLevelFinal,
                                       ExitActions(exits * x.config, Size(c)) + TakeActions(c, e.trans, 0)), 0);
    COutcome(
      x.(config := s.configuration,
         initializedData := s.initializedData,
         flags := x.flags.(topLevelFinal := s.topLevelFinal)),
      s.actions, Ok)
  }

  function CSelected(c: Chart, x: Ctx, sel: Selection): (o: COutcome)
    ensures o.code == Ok
  {
    var exits := sel.exits * x.config;
    CMicroStep(c,
               x.(flags := x.flags.(spontaneous := true),
                  history := Remember(c, x.config, exits, x.history, 0)),
               exits, sel.targets, sel.trans)
  }

  // ---- One call ----

  /** The answer when the environment has nothing more to say. */
  const QUIET := Input(false, false, {}, {})

  function Head(rounds: seq<Input>): Input {
    if rounds == [] then QUIET else rounds[0]
  }

  function Tail(rounds: seq<Input>): seq<Input> {
    if rounds == [] then [] else rounds[1..]
  }

  function Managed(c: Chart, x: Ctx): Ctx {
    x.(invocations := (x.invocations - AllStates(c)) + x.config * AllStates(c))
  }

  predicate AtRest(x: Ctx, r: Input) {
    !x.flags.spontaneous && !r.internal
  }

  /** The context and the stimulus with which a round selects, if it does. */
  function Ready(c: Chart, x: Ctx, r: Input): Ctx {
    if AtRest(x, r) then Managed(c, x) else x
  }

  function RoundActions(c: Chart, x: Ctx, r: Input): seq<Action> {
    if AtRest(x, r) then ManageFrom(c, x.config, x.invocations, 0) else []
  }

  function StimulusOf(x: Ctx, r: Input): Stimulus {
    Stimulus(!x.flags.spontaneous, r.matched, r.holds)
  }

  /** Takes events until one enables a transition or there is none left. */
  function Dequeue(c: Chart, x: Ctx, rounds: seq<Input>): COutcome
    decreases |rounds|, x.flags.spontaneous
  {
    var r := Head(rounds);
    var y := Ready(c, x, r);
    var before := RoundActions(c, x, r);
    if AtRest(x, r) && !r.external then COutcome(y, before, IdleCode)
    else
      var sel := Select(c, y.config, StimulusOf(x, r));
      var o := if sel.trans == {} then Dequeue(c, y.(flags := y.flags.(spontaneous := false)), Tail(rounds))
               else CSelected(c, y, sel);
      o.(actions := before + o.actions)
  }

  function CStep(c: Chart, x: Ctx, rounds: seq<Input>): COutcome {
    if x.flags.finished then COutcome(x, [], Done)
    else if x.flags.topLevelFinal then
      COutcome(x.(invocations := x.invocations - AllStates(c), flags := x.flags.(finished := true)),
               ShutdownActions(x.config, x.invocations, Size(c)), Done)
    else if x.flags == CPRISTINE then
      CMicroStep(c, x.(flags := x.flags.(spontaneous := true, initialized := true)), {}, c.states[0].completion, {})
    else Dequeue(c, x, rounds)
  }

  /** A run of the generated code: each call sees its own events. */
  function CRun(c: Chart, calls: seq<seq<Input>>): Ctx {
    if calls == [] then CFRESH else CStep(c, CRun(c, calls[..|calls| - 1]), calls[|calls| - 1]).ctx
  }

  // ---- The calls of the interpreter that correspond to one call ----

  predicate Continues(o: Outcome) {
    o.result == MicroStepped && !o.stepper.flags.spontaneous
  }

  predicate Reports(st: Stepper, r: Input) {
    !st.flags.spontaneous && !r.internal && !st.flags.stable
  }

  predicate Dequeues(st: Stepper) {
    st.flags != PRISTINE && !st.flags.topLevelFinal && !st.flags.finished && !st.cancelled
  }

  /** An interpreter that has become stable says so first; one that finds no
      transition returns and is called again. */
  function Expand(c: Chart, st: Stepper, rounds: seq<Input>): seq<Input>
    decreases |rounds|, st.flags.spontaneous, !st.flags.stable
  {
    var r := Head(rounds);
    var o := Step(c, st, r);
    if !Dequeues(st) then [r]
    else if Reports(st, r) then [r] + Expand(c, o.stepper, rounds)
    else if Continues(o) then
      ContinuesLess(c, st, r);
      [r] + Expand(c, o.stepper, Tail(rounds))
    else [r]
  }

  lemma ContinuesLess(c: Chart, st: Stepper, r: Input)
    requires Dequeues(st) && !Reports(st, r) && Continues(Step(c, st, r))
    ensures Step(c, st, r).stepper.flags.spontaneous == false
    ensures r == QUIET ==> st.flags.spontaneous
  {
  }

  function Replay(c: Chart, st: Stepper, inputs: seq<Input>): Stepper
    decreases |inputs|
  {
    if inputs == [] then st else Replay(c, Step(c, st, inputs[0]).stepper, inputs[1..])
  }

  function ReplayActions(c: Chart, st: Stepper, inputs: seq<Input>): seq<Action>
    decreases |inputs|
  {
    if inputs == [] then []
    else Step(c, st, inputs[0]).actions + ReplayActions(c, Step(c, st, inputs[0]).stepper, inputs[1..])
  }

  /** What the model of the generated code shows: no done events, no monitor. */
  function Shown(s: seq<Action>): seq<Action> {
    if s == [] then []
    else (if s[0].DoneEvent? || s[0] == StableConfiguration then [] else [s[0]]) + Shown(s[1..])
  }

  predicate Matches(x: Ctx, st: Stepper) {
    && x.config == st.configuration && x.history == st.history
    && x.invocations == st.invocations && x.initializedData == st.initializedData
    && x.flags == CFlags(st.flags.spontaneous, st.flags.initialized, st.flags.topLevelFinal, st.flags.finished)
  }

  /** The one-byte test is right for every final state. */
  ghost predicate FinalsFit(c: Chart) {
    forall i: nat | i < Size(c) :: FirstByteFinal(c, i) <==> TopLevelFinal(c, i)
  }

  // ---- Shown ----

  lemma {:induction false} ShownJoins(s: seq<Action>, t: seq<Action>)
    ensures Shown(s + t) == Shown(s) + Shown(t)
    decreases |s|
  {
    if s == [] {
      assert s + t == t;
    } else {
      assert (s + t)[1..] == s[1..] + t;
      ShownJoins(s[1..], t);
    }
  }

  lemma {:induction false} ShownAll(s: seq<Action>)
    requires forall a | a in s :: !a.DoneEvent? && a != StableConfiguration
    ensures Shown(s) == s
    decreases |s|
  {
    if s != [] { ShownAll(s[1..]); }
  }

  lemma {:induction false} ShownNone(s: seq<Action>)
    requires forall a | a in s :: a.DoneEvent?
    ensures Shown(s) == []
    decreases |s|
  {
    if s != [] { ShownNone(s[1..]); }
  }

  lemma {:induction false} ExitsShown(s: set<nat>, i: nat)
    ensures Shown(ExitActions(s, i)) == ExitActions(s, i)
    decreases i
  {
    if i > 0 {
      ExitsShown(s, i - 1);
      ShownJoins(if i - 1 in s then [OnExit(i - 1)] else [], ExitActions(s, i - 1));
      ShownAll(if i - 1 in s then [OnExit(i - 1)] else []);
    }
  }

  lemma {:induction false} TakesShown(c: Chart, trans: set<nat>, j: nat)
    ensures forall a | a in TakeActions(c, trans, j) :: a.Taken?
    decreases |c.transitions| - j
  {
    if j < |c.transitions| { TakesShown(c, trans, j + 1); }
  }

  lemma {:induction false} DefaultsShown(c: Chart, trans: set<nat>, i: nat, j: nat)
    ensures forall a | a in DefaultActions(c, trans, i, j) :: a.Taken?
    decreases |c.transitions| - j
  {
    if j < |c.transitions| { DefaultsShown(c, trans, i, j + 1); }
  }

  lemma {:induction false} ManageShown(c: Chart, cfg: set<nat>, invoked: set<nat>, i: nat)
    ensures forall a | a in ManageFrom(c, cfg, invoked, i) :: a.Invoke? || a.Uninvoke?
    decreases Size(c) - i
  {
    if i < Size(c) { ManageShown(c, cfg, invoked, i + 1); }
  }

  lemma {:induction false} ShutdownShown(cfg: set<nat>, invoked: set<nat>, i: nat)
    ensures forall a | a in ShutdownActions(cfg, invoked, i) :: a.OnExit? || a.Uninvoke?
    decreases i
  {
    if i > 0 { ShutdownShown(cfg, invoked, i - 1); }
  }

  lemma {:induction false} DoneAboveShown(c: Chart, cfg: set<nat>, s: nat)
    requires s < Size(c)
    ensures forall a | a in DoneAbove(c, cfg, s) :: a.DoneEvent?
    decreases s
  {
    if !(s == 0 || !IsParallel(c, Parent(c, s))) { DoneAboveShown(c, cfg, Parent(c, s)); }
  }

  lemma DoneShown(c: Chart, cfg: set<nat>, i: nat)
    requires i < Size(c)
    ensures Shown(DoneActions(c, cfg, i)) == []
  {
    if !(c.states[i].kind != Final || i == 0 || TopLevelFinal(c, i)) { DoneAboveShown(c, cfg, Parent(c, i)); }
    ShownNone(DoneActions(c, cfg, i));
  }

  // ---- One microstep ----

  lemma {:induction false} ClimbReaches(c: Chart, g: Chart, t: set<nat>, i: nat)
    requires TablesOk(c) && SameChart(c, g) && i <= Size(c)
    ensures Climb(g, Reached(c, t, i), i) == WithAncestors(c, t)
    decreases Size(c) - i
  {
    if i < Size(c) {
      assert SameRow(c, g, i);
      if i in Reached(c, t, i) {
        ReachedStep(c, t, i);
      } else {
        ReachedSkips(c, t, i, i + 1);
      }
      ClimbReaches(c, g, t, i + 1);
    }
  }

  /** Adding ancestors in place, in document order, adds all of them. */
  lemma ClimbAdds(c: Chart, g: Chart, t: set<nat>)
    requires TablesOk(c) && SameChart(c, g)
    ensures Climb(g, t, 0) == WithAncestors(c, t)
  {
    assert Reached(c, t, 0) == t;
    ClimbReaches(c, g, t, 0);
  }

  predicate SameButDone(s: Entering, t: Entering) {
    && s.configuration == t.configuration && s.initializedData == t.initializedData && s.topLevelFinal == t.topLevelFinal
    && s.actions == Shown(t.actions)
  }

  lemma {:induction false} SameDefaults(c: Chart, g: Chart, trans: set<nat>, i: nat, j: nat)
    requires SameChart(c, g)
    ensures DefaultActions(g, trans, i, j) == DefaultActions(c, trans, i, j)
    decreases |c.transitions| - j
  {
    if j < |c.transitions| {
      var t := c.transitions[j];
      if t.source < Size(c) { assert SameRow(c, g, t.source); }
      SameDefaults(c, g, trans, i, j + 1);
    }
  }

  lemma CEnterOneSame(c: Chart, g: Chart, trans: set<nat>, s: Entering, t: Entering, i: nat)
    requires SameChart(c, g) && FinalsFit(c) && SameButDone(s, t) && i < Size(c)
    ensures SameButDone(CEnterOne(g, trans, s, i), EnterOne(c, trans, t, i))
  {
    hide Shown, DefaultActions, DoneActions;
    assert SameRow(c, g, i);
    SameDefaults(c, g, trans, i, 0);
    var data := if i in s.initializedData then [] else [InitData(i)];
    var defaults, done := DefaultActions(c, trans, i, 0), DoneActions(c, t.configuration + {i}, i);
    DefaultsShown(c, trans, i, 0);
    DoneShown(c, t.configuration + {i}, i);
    ShownAll(data + [OnEntry(i)] + defaults);
    ShownJoins(data + [OnEntry(i)] + defaults, done);
    ShownJoins(t.actions, data + [OnEntry(i)] + defaults + done);
    assert t.actions + data + [OnEntry(i)] + defaults + done == t.actions + (data + [OnEntry(i)] + defaults + done);
    assert s.actions + data + [OnEntry(i)] + defaults == s.actions + (data + [OnEntry(i)] + defaults);
    assert data + [OnEntry(i)] + defaults + [] == data + [OnEntry(i)] + defaults;
  }

  lemma {:induction false} CEnterSame(c: Chart, g: Chart, e: Entry, s: Entering, t: Entering, i: nat)
    requires SameChart(c, g) && FinalsFit(c) && SameButDone(s, t)
    ensures SameButDone(CEnterFrom(g, e, s, i), EnterFrom(c, e, t, i))
    decreases Size(c) - i
  {
    if i < Size(c) {
      assert SameRow(c, g, i);
      if i in e.states && i !in s.configuration && Proper(c, i) {
        CEnterOneSame(c, g, e.trans, s, t, i);
        CEnterSame(c, g, e, CEnterOne(g, e.trans, s, i), EnterOne(c, e.trans, t, i), i + 1);
      } else {
        CEnterSame(c, g, e, s, t, i + 1);
      }
    }
  }

  /** What a call of the interpreter and one of the generated code have in common. */
  predicate Agrees(x: COutcome, o: Outcome) {
    && Matches(x.ctx, o.stepper) && x.actions == Shown(o.actions)
    && x.code == match o.result case Finished => Done case Idle => IdleCode case _ => Ok
  }

  lemma CMicroStepAgrees(c: Chart, g: Chart, x: Ctx, st: Stepper, z: set<nat>, targets: set<nat>, trans: set<nat>)
    requires SameChart(c, g) && FinalsFit(c) && Matches(x, st) && Setting(c, st.configuration, st.history, z)
    requires PassInv(c, st.configuration, z, WithAncestors(c, targets), 0) && ChildCompletions(c) && DefaultsClosed(c)
    requires Recorded(c, st.history, z, WithAncestors(c, targets))
    ensures Agrees(CMicroStep(g, x, st.configuration * z, targets, trans), MicroStep(c, st, st.configuration * z, targets, trans))
  {
    hide PassInv, CEnterFrom, EnterFrom, Shown, ExitActions, TakeActions, Recorded, ChildCompletions, DefaultsClosed;
    var cfg, exits := st.configuration, st.configuration * z;
    assert TablesOk(c);
    ClimbAdds(c, g, targets);
    SameDescend(c, g, cfg, st.history, z, Entry(WithAncestors(c, targets), trans), 0);
    var e := EntrySet(c, cfg, st.history, exits, targets, trans);
    var acts := ExitActions(exits * cfg, Size(c)) + TakeActions(c, e.trans, 0);
    SameTakes(c, g, e.trans, 0);
    ExitsShown(exits * cfg, Size(c));
    TakesShown(c, e.trans, 0);
    ShownAll(TakeActions(c, e.trans, 0));
    ShownJoins(ExitActions(exits * cfg, Size(c)), TakeActions(c, e.trans, 0));
    CEnterSame(c, g, e, Entering(cfg - exits, st.initializedData, st.flags.topLevelFinal, acts),
               Entering(cfg - exits, st.initializedData, st.flags.topLevelFinal, acts), 0);
  }

  lemma {:induction false} SameTakes(c: Chart, g: Chart, trans: set<nat>, j: nat)
    requires g.transitions == c.transitions
    ensures TakeActions(g, trans, j) == TakeActions(c, trans, j)
    decreases |c.transitions| - j
  {
    if j < |c.transitions| { SameTakes(c, g, trans, j + 1); }
  }

  /** A round that finds transitions. */
  lemma CSelectedAgrees(c: Chart, g: Chart, x: Ctx, st: Stepper, m: Stimulus)
    requires ChartOk(c) && SameChart(c, g) && FinalsFit(c) && Matches(x, st)
    requires Legal(c, st.configuration) && HistoryLegal(c, st.configuration, st.history)
    ensures Select(g, x.config, m) == Select(c, st.configuration, m)
    ensures Select(c, st.configuration, m).trans != {} ==>
              Agrees(CSelected(g, x, Select(g, x.config, m)), SelectAndStep(c, st, m))
  {
    var cfg := st.configuration;
    SameSelect(c, g, cfg, m, NOTHING, 0);
    var sel := Select(c, cfg, m);
    if sel.trans != {} {
      hide Consistent, PassInv, Select, CMicroStep, MicroStep, Setting, Remember, Recorded;
      ChartSetting(c, st, m);
      var z := Zone(c, sel.trans);
      SameRemember(c, g, cfg, cfg * z, st.history, 0);
      var woken := st.(flags := st.flags.(stable := false, spontaneous := true),
                       history := Remember(c, cfg, cfg * z, st.history, 0));
      var y := x.(flags := x.flags.(spontaneous := true), history := woken.history);
      assert y.flags == CFlags(true, st.flags.initialized, st.flags.topLevelFinal, st.flags.finished);
      assert SelectAndStep(c, st, m) == MicroStep(c, woken, cfg * z, sel.targets, sel.trans);
      CMicroStepAgrees(c, g, y, woken, z, sel.targets, sel.trans);
    }
  }

  lemma CStartAgrees(c: Chart, g: Chart, x: Ctx, st: Stepper)
    requires ChartOk(c) && SameChart(c, g) && FinalsFit(c) && Matches(x, st)
    requires st.configuration == {} && st.history == {}
    ensures Agrees(CMicroStep(g, x, {}, g.states[0].completion, {}), MicroStep(c, st, {}, c.states[0].completion, {}))
  {
    assert SameRow(c, g, 0) && StateOk(c, 0);
    StartSetting(c);
    assert {} * AllStates(c) == {};
    CMicroStepAgrees(c, g, x, st, AllStates(c), c.states[0].completion, {});
  }

  // ---- One call ----

  lemma {:induction false} SameManage(c: Chart, g: Chart, cfg: set<nat>, invoked: set<nat>, i: nat)
    requires SameChart(c, g)
    ensures ManageFrom(g, cfg, invoked, i) == ManageFrom(c, cfg, invoked, i)
    decreases Size(c) - i
  {
    if i < Size(c) { SameManage(c, g, cfg, invoked, i + 1); }
  }

  lemma {:induction false} ManagedTwice(c: Chart, cfg: set<nat>, invoked: set<nat>, i: nat)
    ensures ManageFrom(c, cfg, (invoked - AllStates(c)) + cfg * AllStates(c), i) == []
    decreases Size(c) - i
  {
    if i < Size(c) {
      assert IsState(c, i);
      ManagedTwice(c, cfg, invoked, i + 1);
    }
  }

  lemma SameStates(c: Chart, g: Chart)
    requires SameChart(c, g)
    ensures AllStates(g) == AllStates(c)
  {
    assert forall i: nat | i < Size(c) :: IsState(c, i) && IsState(g, i);
  }

  /** What calling the interpreter `inputs` times leads to. */
  ghost predicate Refines(c: Chart, o: COutcome, st: Stepper, inputs: seq<Input>) {
    && inputs != []
    && Matches(o.ctx, Replay(c, st, inputs))
    && o.actions == Shown(ReplayActions(c, st, inputs))
    && (o.code == Ok <==> Replay(c, st, inputs).flags.spontaneous && !st.flags.topLevelFinal && !st.flags.finished)
    && (o.code == Done <==> Replay(c, st, inputs).flags.finished)
  }

  /** One more call in front. */
  lemma RefinesPrepends(c: Chart, o: COutcome, st: Stepper, r: Input, rest: seq<Input>, acts: seq<Action>)
    requires Dequeues(st) && !Step(c, st, r).stepper.flags.topLevelFinal && !Step(c, st, r).stepper.flags.finished
    requires Refines(c, o, Step(c, st, r).stepper, rest) && acts == Shown(Step(c, st, r).actions)
    ensures Refines(c, o.(actions := acts + o.actions), st, [r] + rest)
  {
    hide Step, Shown;
    assert ([r] + rest)[1..] == rest;
    var st' := Step(c, st, r).stepper;
    ShownJoins(Step(c, st, r).actions, ReplayActions(c, st', rest));
  }

  lemma RefinesOnce(c: Chart, x: COutcome, st: Stepper, r: Input)
    requires Dequeues(st) && Agrees(x, Step(c, st, r)) && (x.code == IdleCode || Step(c, st, r).result == MicroStepped)
    requires x.code == Ok <==> Step(c, st, r).stepper.flags.spontaneous
    requires !Step(c, st, r).stepper.flags.finished
    ensures Refines(c, x, st, [r])
  {
    hide Step;
    assert [r][1..] == [];
    assert Replay(c, st, [r]) == Step(c, st, r).stepper;
    assert Step(c, st, r).actions + [] == Step(c, st, r).actions;
    assert ReplayActions(c, Step(c, st, r).stepper, []) == [];
  }

  /** Reporting stability makes the managing of the next call idle. */
  lemma ReportsFirst(c: Chart, g: Chart, x: Ctx, st: Stepper, rounds: seq<Input>)
    requires SameChart(c, g) && Matches(x, st) && Dequeues(st) && Reports(st, Head(rounds))
    ensures
      var o := Step(c, st, Head(rounds));
      && o.stepper == st.(invocations := Managed(g, x).invocations, flags := st.flags.(stable := true))
      && Matches(Managed(g, x), o.stepper)
      && Shown(o.actions) == RoundActions(g, x, Head(rounds))
      && Dequeue(g, x, rounds)
         == Dequeue(g, Managed(g, x), rounds).(actions := Shown(o.actions) + Dequeue(g, Managed(g, x), rounds).actions)
  {
    hide Shown, ManageFrom, Select, CSelected;
    var r := Head(rounds);
    SameStates(c, g);
    SameManage(c, g, x.config, x.invocations, 0);
    ManagedTwice(g, x.config, x.invocations, 0);
    ManageShown(c, x.config, x.invocations, 0);
    var m := ManageFrom(c, x.config, x.invocations, 0);
    ShownAll(m);
    ShownJoins(m, [StableConfiguration]);
    assert Shown([StableConfiguration]) == [] by { ShownSingle(); }
    assert m + [] == m;
    var y := Managed(g, x);
    assert Managed(g, y) == y;
    assert forall s: seq<Action> :: [] + s == s;
    assert AtRest(x, r) && AtRest(y, r);
  }

  lemma ShownSingle()
    ensures Shown([StableConfiguration]) == []
  {
    assert [StableConfiguration][1..] == [];
    assert Shown([]) == [];
  }

  /** The state a round selects in, as the interpreter has it. */
  function ReadyStepper(c: Chart, st: Stepper, r: Input): Stepper {
    if !st.flags.spontaneous && !r.internal then
      st.(invocations := (st.invocations - AllStates(c)) + st.configuration * AllStates(c))
    else st
  }

  /** A round in which events are looked at. */
  lemma RoundSelects(c: Chart, g: Chart, x: Ctx, st: Stepper, r: Input)
    requires ChartOk(c) && SameChart(c, g) && FinalsFit(c) && Matches(x, st) && Sound(c, st)
    requires Dequeues(st) && !Reports(st, r) && !(AtRest(x, r) && !r.external)
    ensures
      var y := Ready(g, x, r);
      var sel := Select(g, y.config, StimulusOf(x, r));
      var o := Step(c, st, r);
      && (sel.trans == {} <==> Continues(o))
      && (sel.trans == {} ==> Matches(y.(flags := y.flags.(spontaneous := false)), o.stepper) && Dequeues(o.stepper)
                              && Shown(o.actions) == RoundActions(g, x, r))
      && (sel.trans != {} ==>
            Agrees(CSelected(g, y, sel).(actions := RoundActions(g, x, r) + CSelected(g, y, sel).actions), o)
            && o.result == MicroStepped && o.stepper.flags.spontaneous && !o.stepper.flags.finished)
  {
    hide Shown, ManageFrom, CSelected, MicroStep, ChartOk, Legal, HistoryLegal, Select;
    var y, rs, m := Ready(g, x, r), ReadyStepper(c, st, r), StimulusOf(x, r);
    SameStates(c, g);
    SameManage(c, g, x.config, x.invocations, 0);
    ManageShown(c, x.config, x.invocations, 0);
    var before := RoundActions(g, x, r);
    assert Shown(before) == before by { ShownAll(ManageFrom(c, x.config, x.invocations, 0)); ShownAll([]); }
    CSelectedAgrees(c, g, y, rs, m);
    var o := SelectAndStep(c, rs, m);
    ShownJoins(before, o.actions);
    assert forall s: seq<Action> :: [] + s == s;
    assert forall s: seq<Action> :: s + [] == s;
    SelectedFlags(c, rs, m);
    assert Step(c, st, r) == o.(actions := before + o.actions);
    assert Shown([]) == [] by { ShownAll([]); }
  }

  lemma SelectedFlags(c: Chart, st: Stepper, m: Stimulus)
    ensures
      var o := SelectAndStep(c, st, m);
      if Select(c, st.configuration, m).trans == {} then
        o == Outcome(st.(flags := st.flags.(stable := false, spontaneous := false)), [], MicroStepped)
      else o.result == MicroStepped && o.stepper.flags.spontaneous && o.stepper.flags.finished == st.flags.finished
  {
    hide Select;
  }

  /** One call of the generated code does what the corresponding calls of the
      interpreter do. */
  lemma {:induction false} DequeueRefines(c: Chart, g: Chart, x: Ctx, st: Stepper, rounds: seq<Input>)
    requires ChartOk(c) && SameChart(c, g) && FinalsFit(c) && Matches(x, st) && Sound(c, st) && Dequeues(st)
    ensures Refines(c, Dequeue(g, x, rounds), st, Expand(c, st, rounds))
    decreases |rounds|, st.flags.spontaneous, !st.flags.stable
  {
    hide ChartOk, Step, Sound, Refines, CSelected, Select, Shown, RoundActions;
    var r := Head(rounds);
    var o := Step(c, st, r);
    StepSound(c, st, r);
    if Reports(st, r) {
      ReportsFirst(c, g, x, st, rounds);
      DequeueRefines(c, g, Managed(g, x), o.stepper, rounds);
      RefinesPrepends(c, Dequeue(g, Managed(g, x), rounds), st, r, Expand(c, o.stepper, rounds), Shown(o.actions));
    } else if AtRest(x, r) && !r.external {
      IdleAgrees(c, g, x, st, r);
      RefinesOnce(c, Dequeue(g, x, rounds), st, r);
    } else {
      RoundSelects(c, g, x, st, r);
      var y := Ready(g, x, r);
      if Continues(o) {
        ContinuesLess(c, st, r);
        var x' := y.(flags := y.flags.(spontaneous := false));
        DequeueRefines(c, g, x', o.stepper, Tail(rounds));
        RefinesPrepends(c, Dequeue(g, x', Tail(rounds)), st, r, Expand(c, o.stepper, Tail(rounds)), Shown(o.actions));
      } else {
        RefinesOnce(c, Dequeue(g, x, rounds), st, r);
      }
    }
  }

  lemma IdleAgrees(c: Chart, g: Chart, x: Ctx, st: Stepper, r: Input)
    requires SameChart(c, g) && Matches(x, st) && Dequeues(st) && !Reports(st, r) && AtRest(x, r) && !r.external
    ensures Agrees(COutcome(Ready(g, x, r), RoundActions(g, x, r), IdleCode), Step(c, st, r))
    ensures !Continues(Step(c, st, r)) && !Step(c, st, r).stepper.flags.spontaneous && !Step(c, st, r).stepper.flags.finished
  {
    hide Shown, ManageFrom;
    SameStates(c, g);
    SameManage(c, g, x.config, x.invocations, 0);
    ManageShown(c, x.config, x.invocations, 0);
    ShownAll(ManageFrom(c, x.config, x.invocations, 0));
  }

  lemma SoundStart(c: Chart, st: Stepper)
    requires Sound(c, st)
    ensures st.flags.initialized || st.flags == PRISTINE
    ensures st.flags == PRISTINE ==> st.configuration == {} && st.history == {}
  {
  }

  lemma CStepRefines(c: Chart, g: Chart, x: Ctx, st: Stepper, rounds: seq<Input>)
    requires ChartOk(c) && SameChart(c, g) && FinalsFit(c) && Matches(x, st) && Sound(c, st) && !st.cancelled
    ensures
      var o := CStep(g, x, rounds);
      var inputs := Expand(c, st, rounds);
      Matches(o.ctx, Replay(c, st, inputs)) && o.actions == Shown(ReplayActions(c, st, inputs))
  {
    hide ChartOk, Sound, Dequeue, Shown, CMicroStep, MicroStep;
    var r := Head(rounds);
    SoundStart(c, st);
    if Dequeues(st) {
      DequeueRefines(c, g, x, st, rounds);
    } else {
      assert Replay(c, st, [r]) == Step(c, st, r).stepper by { assert [r][1..] == []; }
      assert ReplayActions(c, st, [r]) == Step(c, st, r).actions by {
        assert [r][1..] == [];
        assert ReplayActions(c, Step(c, st, r).stepper, []) == [];
        assert Step(c, st, r).actions + [] == Step(c, st, r).actions;
      }
      SameStates(c, g);
      if st.flags.finished {
        ShownAll([]);
      } else if st.flags.topLevelFinal {
        ShutdownShown(st.configuration, st.invocations, Size(c));
        ShownAll(ShutdownActions(st.configuration, st.invocations, Size(c)));
      } else {
        CStartAgrees(c, g, x.(flags := x.flags.(spontaneous := true, initialized := true)),
                     st.(flags := st.flags.(spontaneous := true, initialized := true)));
      }
    }
  }

  // ---- Runs ----

  function CallsOf(inputs: seq<Input>): seq<Event>
  {
    seq(|inputs|, (i: nat) requires i < |inputs| => Call(inputs[i]))
  }

  lemma {:induction false} RunReplays(c: Chart, evs: seq<Event>, inputs: seq<Input>)
    ensures Run(c, evs + CallsOf(inputs)) == Replay(c, Run(c, evs), inputs)
    ensures Shown(Trace(c, evs + CallsOf(inputs))) == Shown(Trace(c, evs)) + Shown(ReplayActions(c, Run(c, evs), inputs))
    decreases |inputs|
  {
    hide Step, Shown;
    if inputs == [] {
      assert evs + CallsOf(inputs) == evs;
      assert Shown([]) == [] by { ShownAll([]); }
    } else {
      var next := evs + [Call(inputs[0])];
      assert evs + CallsOf(inputs) == next + CallsOf(inputs[1..]);
      assert next[..|next| - 1] == evs;
      RunReplays(c, next, inputs[1..]);
      ShownJoins(Trace(c, evs), Step(c, Run(c, evs), inputs[0]).actions);
      ShownJoins(Step(c, Run(c, evs), inputs[0]).actions, ReplayActions(c, Run(c, next), inputs[1..]));
    }
  }

  /** The calls of an interpreter that keep it in step with a run of generated code. */
  function InterpreterRun(c: Chart, calls: seq<seq<Input>>): seq<Event> {
    if calls == [] then []
    else
      var evs := InterpreterRun(c, calls[..|calls| - 1]);
      evs + CallsOf(Expand(c, Run(c, evs), calls[|calls| - 1]))
  }

  /** All callbacks of a run of generated code, in order. */
  function CTrace(g: Chart, calls: seq<seq<Input>>): seq<Action> {
    if calls == [] then []
    else CTrace(g, calls[..|calls| - 1]) + CStep(g, CRun(g, calls[..|calls| - 1]), calls[|calls| - 1]).actions
  }

  /** Every run of the generated code is a run of the interpreter: the same
      configuration, history, invocations and flags after every call, and the same
      callbacks in the same order, done events and stability reports aside. */
  lemma {:induction false} GeneratedCodeRefines(c: Chart, calls: seq<seq<Input>>)
    requires ChartOk(c) && FinalsFit(c)
    ensures Matches(CRun(Generated(c), calls), Run(c, InterpreterRun(c, calls)))
    ensures CTrace(Generated(c), calls) == Shown(Trace(c, InterpreterRun(c, calls)))
    ensures !Run(c, InterpreterRun(c, calls)).cancelled
  {
    hide ChartOk, FinalsFit, Step, CStep, Sound, Expand;
    if calls != [] {
      var before, call := calls[..|calls| - 1], calls[|calls| - 1];
      GeneratedCodeRefines(c, before);
      var evs := InterpreterRun(c, before);
      RunsAreLegal(c, evs);
      var st := Run(c, evs);
      CStepRefines(c, Generated(c), CRun(Generated(c), before), st, call);
      RunReplays(c, evs, Expand(c, st, call));
      ReplayNotCancelled(c, st, Expand(c, st, call));
    }
  }

  lemma {:induction false} ReplayNotCancelled(c: Chart, st: Stepper, inputs: seq<Input>)
    requires !st.cancelled
    ensures !Replay(c, st, inputs).cancelled
    decreases |inputs|
  {
    if inputs != [] {
      StepNotCancelled(c, st, inputs[0]);
      hide Step;
      ReplayNotCancelled(c, Step(c, st, inputs[0]).stepper, inputs[1..]);
    }
  }

  lemma StepNotCancelled(c: Chart, st: Stepper, input: Input)
    ensures Step(c, st, input).stepper.cancelled == st.cancelled
  {
    hide Select;
  }

  // ---- Nothing but states is ever recorded ----

  /** No set of the context holds anything but states of the chart. */
  predicate Within(c: Chart, x: Ctx) {
    x.config <= AllStates(c) && x.history <= AllStates(c) && x.invocations <= AllStates(c) && x.initializedData <= AllStates(c)
  }

  lemma {:induction false} CEnterWithin(c: Chart, e: Entry, s: Entering, i: nat)
    requires s.configuration <= AllStates(c) && s.initializedData <= AllStates(c)
    ensures CEnterFrom(c, e, s, i).configuration <= AllStates(c) && CEnterFrom(c, e, s, i).initializedData <= AllStates(c)
    decreases Size(c) - i
  {
    if i < Size(c) {
      assert IsState(c, i);
      hide DefaultActions;
      CEnterWithin(c, e, if i in e.states && i !in s.configuration && Proper(c, i) then CEnterOne(c, e.trans, s, i) else s, i + 1);
    }
  }

  lemma {:induction false} RememberWithin(c: Chart, cfg: set<nat>, exits: set<nat>, hist: set<nat>, i: nat)
    requires cfg <= AllStates(c) && hist <= AllStates(c)
    ensures Remember(c, cfg, exits, hist, i) <= AllStates(c)
    decreases Size(c) - i
  {
    if i < Size(c) {
      var s := c.states[i];
      RememberWithin(c, cfg, exits,
        if IsHistoryKind(s.kind) && s.parent in exits then hist - s.completion + s.completion * cfg else hist, i + 1);
    }
  }

  lemma CMicroStepWithin(c: Chart, x: Ctx, exits: set<nat>, targets: set<nat>, trans: set<nat>)
    requires Within(c, x)
    ensures Within(c, CMicroStep(c, x, exits, targets, trans).ctx)
  {
    hide AllStates;
    var e := Descend(c, x.config, x.history, exits, Entry(Climb(c, targets, 0), trans), 0);
    CEnterWithin(c, e, Entering(x.config - exits, x.initializedData, x.flags.topLevelFinal,
      ExitActions(exits * x.config, Size(c)) + TakeActions(c, e.trans, 0)), 0);
  }

  lemma {:induction false} DequeueWithin(c: Chart, x: Ctx, rounds: seq<Input>)
    requires Within(c, x)
    ensures Within(c, Dequeue(c, x, rounds).ctx)
    decreases |rounds|, x.flags.spontaneous
  {
    hide CMicroStep, Select, AllStates;
    var r := Head(rounds);
    var y := Ready(c, x, r);
    assert Within(c, y);
    if !(AtRest(x, r) && !r.external) {
      var sel := Select(c, y.config, StimulusOf(x, r));
      if sel.trans == {} {
        DequeueWithin(c, y.(flags := y.flags.(spontaneous := false)), Tail(rounds));
      } else {
        var exits := sel.exits * y.config;
        RememberWithin(c, y.config, exits, y.history, 0);
        CMicroStepWithin(c, y.(flags := y.flags.(spontaneous := true), history := Remember(c, y.config, exits, y.history, 0)),
                         exits, sel.targets, sel.trans);
      }
    }
  }

  lemma CStepWithin(c: Chart, x: Ctx, rounds: seq<Input>)
    requires Within(c, x)
    ensures Within(c, CStep(c, x, rounds).ctx)
  {
    hide CMicroStep, Dequeue, AllStates;
    if x.flags.finished || x.flags.topLevelFinal {
    } else if x.flags == CPRISTINE {
      CMicroStepWithin(c, x.(flags := x.flags.(spontaneous := true, initialized := true)), {}, c.states[0].completion, {});
    } else {
      DequeueWithin(c, x, rounds);
    }
  }

  /** In no run, on no table, is a bit beyond the states ever set. */
  lemma {:induction false} CRunWithin(c: Chart, calls: seq<seq<Input>>)
    ensures Within(c, CRun(c, calls))
  {
    if calls != [] {
      CRunWithin(c, calls[..|calls| - 1]);
      CStepWithin(c, CRun(c, calls[..|calls| - 1]), calls[|calls| - 1]);
    }
  }

  // ---- The first call: the exit set was never written ----

  lemma {:induction false} GarbageDescend(c: Chart, hist: set<nat>, exits: set<nat>, e: Entry, i: nat)
    ensures Descend(c, {}, hist, exits, e, i) == Descend(c, {}, hist, {}, e, i)
    decreases Size(c) - i
  {
    if i < Size(c) {
      hide ResolveHistory, ResolveInitial;
      assert Resolve(c, {}, hist, exits, e, i) == Resolve(c, {}, hist, {}, e, i);
      GarbageDescend(c, hist, exits, if i in e.states then Resolve(c, {}, hist, {}, e, i) else e, i + 1);
    }
  }

  /** Whatever the exit set happens to hold, the first microstep is the same. */
  lemma GarbageExits(c: Chart, x: Ctx, exits: set<nat>, targets: set<nat>)
    requires x.config == {}
    ensures CMicroStep(c, x, exits, targets, {}) == CMicroStep(c, x, {}, targets, {})
  {
    hide CEnterFrom, ExitActions, TakeActions;
    GarbageDescend(c, x.history, exits, Entry(Climb(c, targets, 0), {}), 0);
    assert exits * x.config == {} * x.config == {};
    assert x.config - exits == x.config - {};
  }

  // ---- Actions are only ever appended ----

  lemma {:induction false} CEnterAppends(c: Chart, e: Entry, s: Entering, i: nat, before: seq<Action>)
    ensures
      var t := CEnterFrom(c, e, s, i);
      CEnterFrom(c, e, s.(actions := before + s.actions), i) == t.(actions := before + t.actions)
    decreases Size(c) - i
  {
    hide DefaultActions;
    if i < Size(c) {
      if i in e.states && i !in s.configuration && Proper(c, i) {
        var u := CEnterOne(c, e.trans, s, i);
        assert CEnterOne(c, e.trans, s.(actions := before + s.actions), i) == u.(actions := before + u.actions);
        hide CEnterOne;
        CEnterAppends(c, e, u, i + 1, before);
      } else {
        CEnterAppends(c, e, s, i + 1, before);
      }
    }
  }

  // ---- The test for a top-level final state ----

  ghost predicate NearAncestor(c: Chart, i: nat) {
    exists a: nat :: 0 < a < 8 && Under(c, i, a)
  }

  /** The test that looks at one byte of the ancestors is right exactly for children
      of the root and for states with another ancestor in that byte. */
  lemma FirstByteExact(c: Chart, i: nat)
    requires TablesOk(c) && 0 < i < Size(c) && c.states[i].kind == Final
    ensures (FirstByteFinal(c, i) <==> TopLevelFinal(c, i))
            <==> c.states[i].parent == 0 || NearAncestor(c, i)
  {
    assert TableAt(c, i);
    UnderRoot(c, i);
    var p := Parent(c, i);
    ChildUnder(c, i, p);
    forall a | a in c.states[i].ancestors ensures a <= p {
      UnderAtMostParent(c, i, a);
    }
    assert 0 in c.states[i].ancestors && p in c.states[i].ancestors;
    var near := set a | a in c.states[i].ancestors && a < 8;
    assert 0 in near;
    assert FirstByteFinal(c, i) <==> near == {0};
    if p == 0 {
      assert c.states[i].ancestors == {0};
      assert near == {0};
    } else {
      assert c.states[i].ancestors != {0};
      if NearAncestor(c, i) {
        var a: nat :| 0 < a < 8 && Under(c, i, a);
        UnderBounds(c, i, a);
        assert a in near && a !in {0};
      } else {
        assert near == {0};
      }
    }
  }

  lemma UnderAtMostParent(c: Chart, k: nat, a: nat)
    requires Under(c, k, a)
    ensures a <= Parent(c, k)
  {
    if Parent(c, k) != a { UnderBounds(c, Parent(c, k), a); }
  }
}
