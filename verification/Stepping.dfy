/** The interpreter's step function on values: what one call does to the
    configuration, the history, the invocations and the flags, and which
    callbacks it makes in which order. */
module Stepping {
  import opened Charts
  import opened EntrySets
  import opened Transitions
  import opened MicroSteps

  datatype Action =
    | OnExit(state: nat)
    | Taken(transition: nat)
    | InitData(state: nat)
    | OnEntry(state: nat)
    | DoneEvent(state: nat)
    | Invoke(state: nat)
    | Uninvoke(state: nat)
    | StableConfiguration

  datatype Flags = Flags(spontaneous: bool, initialized: bool, topLevelFinal: bool, finished: bool, stable: bool)

  const PRISTINE := Flags(false, false, false, false, false)

  datatype Stepper = Stepper(
    configuration: set<nat>,
    history: set<nat>,
    invocations: set<nat>,
    initializedData: set<nat>,
    flags: Flags,
    cancelled: bool)

  const FRESH := Stepper({}, {}, {}, {}, PRISTINE, false)

  datatype Result = Finished | MicroStepped | MacroStepped | Idle | Cancelled

  /** What the callbacks answer during one call. */
  datatype Input = Input(internal: bool, external: bool, matched: set<nat>, holds: set<nat>)

  datatype Outcome = Outcome(stepper: Stepper, actions: seq<Action>, result: Result)

  // ---- Leaving states and taking transitions ----

  /** Exit handlers of the members of `s` below `i`, innermost first. */
  function ExitActions(s: set<nat>, i: nat): seq<Action>
    decreases i
  {
    if i == 0 then []
    else (if i - 1 in s then [OnExit(i - 1)] else []) + ExitActions(s, i - 1)
  }

  function TakeActions(c: Chart, trans: set<nat>, j: nat): seq<Action>
    decreases |c.transitions| - j
  {
    if j >= |c.transitions| then []
    else (if j in trans && c.transitions[j].kind == Normal then [Taken(j)] else []) + TakeActions(c, trans, j + 1)
  }

  // ---- Done events ----

  function Xor(a: set<nat>, b: set<nat>): set<nat> {
    (a - b) + (b - a)
  }

  /** Clears the parallel states above `s`, as far as `q`, that have nothing left. */
  function ClearUp(c: Chart, q: nat, tmp: set<nat>, s: nat): set<nat>
    requires s < Size(c)
    decreases s
  {
    if s == 0 then tmp
    else
      var n := Parent(c, s);
      if IsParallel(c, n) && tmp * c.states[n].children == {} then
        var tmp' := tmp - {n};
        if tmp' == {} || n == q then tmp' else ClearUp(c, q, tmp', n)
      else tmp
  }

  /** What is left below the parallel state `q` after taking out the regions of
      the active final states from `k` on. */
  function RemainFrom(c: Chart, cfg: set<nat>, q: nat, tmp: set<nat>, k: nat): set<nat>
    decreases Size(c) - k
  {
    if k >= Size(c) then tmp
    else if k in cfg && q in c.states[k].ancestors && c.states[k].kind == Final && 0 < k then
      var p := Parent(c, k);
      RemainFrom(c, cfg, q, ClearUp(c, q, Xor(tmp, c.states[p].children) - {p}, p), k + 1)
    else RemainFrom(c, cfg, q, tmp, k + 1)
  }

  /** Done events of the unbroken chain of parallel states above `s`. */
  function DoneAbove(c: Chart, cfg: set<nat>, s: nat): seq<Action>
    requires s < Size(c)
    decreases s
  {
    if s == 0 || !IsParallel(c, Parent(c, s)) then []
    else
      var q := Parent(c, s);
      (if RemainFrom(c, cfg, q, c.states[q].children, 0) == {} then [DoneEvent(q)] else []) + DoneAbove(c, cfg, q)
  }

  predicate TopLevelFinal(c: Chart, i: nat)
    requires i < Size(c)
  {
    c.states[i].kind == Final && c.states[i].ancestors == {0}
  }

  function DoneActions(c: Chart, cfg: set<nat>, i: nat): seq<Action>
    requires i < Size(c)
  {
    if c.states[i].kind != Final || i == 0 || TopLevelFinal(c, i) then []
    else [DoneEvent(Parent(c, i))] + DoneAbove(c, cfg, Parent(c, i))
  }

  // ---- Entering states ----

  datatype Entering = Entering(configuration: set<nat>, initializedData: set<nat>, topLevelFinal: bool, actions: seq<Action>)

  /** Transitions of the pseudo-states directly below `i`, from `j` on. */
  function DefaultActions(c: Chart, trans: set<nat>, i: nat, j: nat): seq<Action>
    decreases |c.transitions| - j
  {
    if j >= |c.transitions| then []
    else
      var t := c.transitions[j];
      (if j in trans && t.kind != Normal && t.source < Size(c) && c.states[t.source].parent == i then [Taken(j)] else [])
      + DefaultActions(c, trans, i, j + 1)
  }

  function EnterOne(c: Chart, trans: set<nat>, s: Entering, i: nat): Entering
    requires i < Size(c)
  {
    var cfg := s.configuration + {i};
    Entering(
      cfg,
      s.initializedData + {i},
      s.topLevelFinal || TopLevelFinal(c, i),
      s.actions + (if i in s.initializedData then [] else [InitData(i)]) + [OnEntry(i)]
      + DefaultActions(c, trans, i, 0) + DoneActions(c, cfg, i))
  }

  function EnterFrom(c: Chart, e: Entry, s: Entering, i: nat): Entering
    decreases Size(c) - i
  {
    if i >= Size(c) then s
    else
      EnterFrom(c, e,
                if i in e.states && i !in s.configuration && Proper(c, i) then EnterOne(c, e.trans, s, i) else s, i + 1)
  }

  // ---- Invocations ----

  function Manage(cfg: set<nat>, invoked: set<nat>, i: nat): seq<Action> {
    if i in cfg && i !in invoked then [Invoke(i)]
    else if i !in cfg && i in invoked then [Uninvoke(i)]
    else []
  }

  function ManageFrom(c: Chart, cfg: set<nat>, invoked: set<nat>, i: nat): seq<Action>
    decreases Size(c) - i
  {
    if i >= Size(c) then [] else Manage(cfg, invoked, i) + ManageFrom(c, cfg, invoked, i + 1)
  }

  /** Shutting down: exit handlers and invocations, innermost first. */
  function ShutdownActions(cfg: set<nat>, invoked: set<nat>, i: nat): seq<Action>
    decreases i
  {
    if i == 0 then []
    else
      (if i - 1 in cfg then [OnExit(i - 1)] else []) + (if i - 1 in invoked then [Uninvoke(i - 1)] else [])
      + ShutdownActions(cfg, invoked, i - 1)
  }

  // ---- One call ----

  function EntrySet(c: Chart, cfg: set<nat>, hist: set<nat>, exits: set<nat>, targets: set<nat>, trans: set<nat>): Entry {
    Descend(c, cfg, hist, exits, Entry(WithAncestors(c, targets), trans), 0)
  }

  /** Leaving `exits`, taking the transitions and entering the entry set. */
  function MicroStep(c: Chart, st: Stepper, exits: set<nat>, targets: set<nat>, trans: set<nat>): (o: Outcome)
    ensures o.result == MicroStepped
  {
    var e := EntrySet(c, st.configuration, st.history, exits, targets, trans);
    var kept := st.configuration - exits;
    var s := EnterFrom(c, e, Entering(kept, st.initializedData, st.flags.topLevelFinal,
                                      ExitActions(exits * st.configuration, Size(c)) + TakeActions(c, e.trans, 0)), 0);
    Outcome(
      st.(configuration := s.configuration,
          initializedData := s.initializedData,
          flags := st.flags.(topLevelFinal := s.topLevelFinal)),
      s.actions, MicroStepped)
  }

  /** A microstep for the transitions enabled by `m`, if there are any. */
  function SelectAndStep(c: Chart, st: Stepper, m: Stimulus): (o: Outcome)
    ensures o.result == MicroStepped
  {
    var sel := Select(c, st.configuration, m);
    var woken := st.(flags := st.flags.(stable := false));
    if sel.trans == {} then
      Outcome(woken.(flags := woken.flags.(spontaneous := false)), [], MicroStepped)
    else
      var exits := sel.exits * st.configuration;
      MicroStep(c,
                woken.(flags := woken.flags.(spontaneous := true),
                       history := Remember(c, st.configuration, exits, st.history, 0)),
                exits, sel.targets, sel.trans)
  }

  function Step(c: Chart, st: Stepper, input: Input): Outcome {
    if st.flags.finished then
      Outcome(st, [], Finished)
    else if st.flags.topLevelFinal then
      Outcome(st.(invocations := st.invocations - AllStates(c), flags := st.flags.(finished := true)),
              ShutdownActions(st.configuration, st.invocations, Size(c)), Finished)
    else if st.flags == PRISTINE then
      MicroStep(c, st.(flags := st.flags.(spontaneous := true, initialized := true)),
                {}, c.states[0].completion, {})
    else if st.flags.spontaneous then
      SelectAndStep(c, st, Stimulus(false, input.matched, input.holds))
    else if input.internal then
      SelectAndStep(c, st, Stimulus(true, input.matched, input.holds))
    else
      var managed := st.(invocations := (st.invocations - AllStates(c)) + st.configuration * AllStates(c));
      var actions := ManageFrom(c, st.configuration, st.invocations, 0);
      if !st.flags.stable then
        Outcome(managed.(flags := st.flags.(stable := true)), actions + [StableConfiguration], MacroStepped)
      else if input.external then
        var o := SelectAndStep(c, managed, Stimulus(true, input.matched, input.holds));
        o.(actions := actions + o.actions)
      else if st.cancelled then
        Outcome(managed.(flags := st.flags.(topLevelFinal := true)), actions, Cancelled)
      else
        Outcome(managed, actions, Idle)
  }

  /** A run: each call may be preceded by a cancellation. */
  datatype Event = Cancel | Call(input: Input)

  function Next(c: Chart, st: Stepper, ev: Event): Stepper {
    match ev
    case Cancel => st.(cancelled := true)
    case Call(input) => Step(c, st, input).stepper
  }

  function Run(c: Chart, evs: seq<Event>): Stepper {
    if evs == [] then FRESH else Next(c, Run(c, evs[..|evs| - 1]), evs[|evs| - 1])
  }

  lemma RunLonger(c: Chart, evs: seq<Event>, ev: Event)
    ensures Run(c, evs + [ev]) == Next(c, Run(c, evs), ev)
  {
    assert (evs + [ev])[..|evs|] == evs;
  }

  // ---- Every run stays legal ----

  ghost predicate Sound(c: Chart, st: Stepper) {
    && (st.flags == PRISTINE ==> st.configuration == {} && st.history == {})
    && (st.flags != PRISTINE ==> st.flags.initialized)
    && (st.flags != PRISTINE ==> Legal(c, st.configuration) && HistoryLegal(c, st.configuration, st.history))
  }

  lemma {:induction false} EnteredConfiguration(c: Chart, e: Entry, s: Entering, i: nat)
    ensures EnterFrom(c, e, s, i).configuration == s.configuration + set x | x in e.states && i <= x && Proper(c, x)
    decreases Size(c) - i
  {
    if i < Size(c) {
      var s' := if i in e.states && i !in s.configuration && Proper(c, i) then EnterOne(c, e.trans, s, i) else s;
      EnteredConfiguration(c, e, s', i + 1);
    }
  }

  lemma MicroStepConfiguration(c: Chart, st: Stepper, exits: set<nat>, targets: set<nat>, trans: set<nat>)
    ensures
      var e := EntrySet(c, st.configuration, st.history, exits, targets, trans);
      MicroStep(c, st, exits, targets, trans).stepper.configuration
      == NextConfiguration(c, st.configuration, exits, e.states)
  {
    var e := EntrySet(c, st.configuration, st.history, exits, targets, trans);
    EnteredConfiguration(c, e, Entering(st.configuration - exits, st.initializedData, st.flags.topLevelFinal,
      ExitActions(exits * st.configuration, Size(c)) + TakeActions(c, e.trans, 0)), 0);
  }

  /** The first microstep enters a legal configuration. */
  lemma StartLegal(c: Chart, st: Stepper)
    requires ChartOk(c) && st.configuration == {} && st.history == {}
    ensures Legal(c, MicroStep(c, st, {}, c.states[0].completion, {}).stepper.configuration)
  {
    var z := AllStates(c);
    var t := c.states[0].completion;
    StartSetting(c);
    var e0 := WithAncestors(c, t);
    PassAll(c, {}, {}, z, Entry(e0, {}), 0);
    assert {} * z == {};
    PassLegal(c, {}, z, Descend(c, {}, {}, {}, Entry(e0, {}), 0).states);
    MicroStepConfiguration(c, st, {}, t, {});
  }

  /** What the first microstep starts its pass with. */
  lemma StartSetting(c: Chart)
    requires StatesOk(c)
    ensures
      var z := AllStates(c);
      var e0 := WithAncestors(c, c.states[0].completion);
      Setting(c, {}, {}, z) && PassInv(c, {}, z, e0, 0) && Recorded(c, {}, z, e0)
  {
    assert StateOk(c, 0);
    var x := CompletionListed(c, 0);
    StartSeeds(c, x);
    StartInv(c, x);
    assert ZoneOk(c, {}, AllStates(c));
  }

  lemma StartSeeds(c: Chart, x: nat)
    requires TablesOk(c) && Under(c, x, 0)
    ensures WithAncestors(c, {x}) == {x} + AncestorsOf(c, x)
  {
    assert TableAt(c, x);
    assert WithAncestors(c, {x}) <= {x} + AncestorsOf(c, x);
    forall a | a in AncestorsOf(c, x) ensures a in WithAncestors(c, {x}) {
      assert x in {x} && a in c.states[x].ancestors;
    }
  }

  lemma StartInv(c: Chart, x: nat)
    requires CompletesTo(c, 0, x)
    ensures PassInv(c, {}, AllStates(c), {x} + AncestorsOf(c, x), 0)
  {
    var z, e := AllStates(c), {x} + AncestorsOf(c, x);
    forall k: nat, y | ChildOf(c, y, k) && y in e ensures k in e {
      ChildUnder(c, y, k);
      AtOrUnderTransitive(c, x, y, k);
    }
    forall y | y in AncestorsOf(c, x) ensures Proper(c, y) { UnderBounds(c, x, y); }
    assert Shape(c, {}, z, e, 0);
    SingletonCompatible(c, x);
    forall k: nat, y: nat, w: nat | ChildOf(c, y, k) && ChildOf(c, w, k) && y != w && Live(c, e, y, 0) && Live(c, e, w, 0)
      ensures IsParallel(c, k)
    {
      assert AtOrUnder(c, x, y) && AtOrUnder(c, x, w);
      assert Reaches(c, {x}, y) && Reaches(c, {x}, w);
    }
    assert Apart(c, e, 0);
  }

  /** What selecting, remembering and adding ancestors establish for the pass. */
  lemma SelectionSetting(c: Chart, st: Stepper, m: Stimulus)
    requires WellFormed(c) && Legal(c, st.configuration) && HistoryLegal(c, st.configuration, st.history)
    ensures
      var cfg := st.configuration;
      var sel := Select(c, cfg, m);
      var z := Zone(c, sel.trans);
      && Consistent(c, cfg, sel.trans)
      && sel.targets == (set k, x | k in sel.trans && x in c.transitions[k].target :: x)
      && sel.exits * cfg == cfg * z
      && Setting(c, cfg, Remember(c, cfg, cfg * z, st.history, 0), z)
      && PassInv(c, cfg, z, WithAncestors(c, sel.targets), 0)
  {
    var cfg := st.configuration;
    var sel := Select(c, cfg, m);
    SelectSpec(c, cfg, m);
    SelectedConsistent(c, cfg, m);
    var z := Zone(c, sel.trans);
    ZoneIsOk(c, cfg, sel.trans);
    ExitsAreZone(c, cfg, sel.trans, sel.exits);
    SeedsInv(c, cfg, sel.trans, sel.targets);
    SettingKept(c, st, z);
  }

  lemma SettingKept(c: Chart, st: Stepper, z: set<nat>)
    requires StatesOk(c) && Legal(c, st.configuration) && HistoryLegal(c, st.configuration, st.history)
    requires ZoneOk(c, st.configuration, z)
    ensures Setting(c, st.configuration, Remember(c, st.configuration, st.configuration * z, st.history, 0), z)
  {
    var cfg := st.configuration;
    RememberLegal(c, cfg, st.history, cfg * z);
    assert HistoryReady(c, cfg, Remember(c, cfg, cfg * z, st.history, 0), z);
  }

  /** Every history state entered from inside its parent has something recorded. */
  ghost predicate InsideRecorded(c: Chart, trans: set<nat>, hist: set<nat>) {
    forall j: nat, h: nat | j in trans && j < |c.transitions| && 0 < c.transitions[j].source < Size(c) && FromInside(c, c.transitions[j], h) ::
      Restorable(c, hist, h)
  }

  lemma SeedsRecorded(c: Chart, cfg: set<nat>, s: set<nat>, t: set<nat>, hist: set<nat>)
    requires StatesOk(c) && Legal(c, cfg) && Consistent(c, cfg, s) && InsideRecorded(c, s, hist)
    requires t == set k, x | k in s && x in c.transitions[k].target :: x
    ensures Recorded(c, hist, Zone(c, s), WithAncestors(c, t))
  {
    hide Restorable;
    SeedsFromTargets(c, cfg, s, t);
    var e := WithAncestors(c, t);
    forall h: nat, p | ChildOf(c, h, p) && IsHistory(c, h) && h in e && p !in Zone(c, s)
      ensures Restorable(c, hist, h)
    {
      var j, y :| OnTheWay(c, s, h, j, y);
      InsideSeed(c, cfg, s, h, j, y);
    }
  }

  /** A step with a selection makes the configuration the pass leads to. */
  lemma SelectedConfiguration(c: Chart, st: Stepper, m: Stimulus)
    requires Select(c, st.configuration, m).trans != {}
    ensures
      var sel := Select(c, st.configuration, m);
      var exits := sel.exits * st.configuration;
      var hist := Remember(c, st.configuration, exits, st.history, 0);
      var o := SelectAndStep(c, st, m).stepper;
      && o.history == hist
      && o.configuration == NextConfiguration(c, st.configuration, exits,
           EntrySet(c, st.configuration, hist, exits, sel.targets, sel.trans).states)
  {
    var sel := Select(c, st.configuration, m);
    var exits := sel.exits * st.configuration;
    var woken := st.(flags := st.flags.(stable := false, spontaneous := true),
                     history := Remember(c, st.configuration, exits, st.history, 0));
    MicroStepConfiguration(c, woken, exits, sel.targets, sel.trans);
  }

  /** On a chart in order the pass finds all it needs. */
  lemma ChartSetting(c: Chart, st: Stepper, m: Stimulus)
    requires ChartOk(c) && Legal(c, st.configuration) && HistoryLegal(c, st.configuration, st.history)
    ensures
      var cfg := st.configuration;
      var sel := Select(c, cfg, m);
      var z := Zone(c, sel.trans);
      var hist := Remember(c, cfg, cfg * z, st.history, 0);
      && sel.exits * cfg == cfg * z
      && Setting(c, cfg, hist, z)
      && PassInv(c, cfg, z, WithAncestors(c, sel.targets), 0)
      && Recorded(c, hist, z, WithAncestors(c, sel.targets))
  {
    hide PassInv, Select, HistoriesFromOutside, Recorded;
    SelectionSetting(c, st, m);
    var sel := Select(c, st.configuration, m);
    var hist := Remember(c, st.configuration, st.configuration * Zone(c, sel.trans), st.history, 0);
    OutsideRecorded(c, sel.trans, hist);
    SeedsRecorded(c, st.configuration, sel.trans, sel.targets, hist);
  }

  /** A microstep over a consistent selection leads from one legal configuration
      to another, and keeps the history usable. */
  lemma SelectionLegal(c: Chart, st: Stepper, m: Stimulus)
    requires ChartOk(c) && Legal(c, st.configuration) && HistoryLegal(c, st.configuration, st.history)
    ensures
      var o := SelectAndStep(c, st, m).stepper;
      Legal(c, o.configuration) && HistoryLegal(c, o.configuration, o.history)
  {
    var cfg := st.configuration;
    var sel := Select(c, cfg, m);
    if sel.trans != {} {
      hide Consistent, PassInv, Select, HistoriesFromOutside, ChildCompletions, DefaultsClosed, Recorded;
      ChartSetting(c, st, m);
      SelectedConfiguration(c, st, m);
      var z := Zone(c, sel.trans);
      var hist := Remember(c, cfg, cfg * z, st.history, 0);
      PassAll(c, cfg, hist, z, Entry(WithAncestors(c, sel.targets), sel.trans), 0);
      var e := EntrySet(c, cfg, hist, cfg * z, sel.targets, sel.trans);
      PassLegal(c, cfg, z, e.states);
      SelectionKeepsHistory(c, st, z, NextConfiguration(c, cfg, cfg * z, e.states));
    }
  }

  lemma OutsideRecorded(c: Chart, trans: set<nat>, hist: set<nat>)
    requires HistoriesFromOutside(c)
    ensures InsideRecorded(c, trans, hist)
  {
  }

  lemma SelectionKeepsHistory(c: Chart, st: Stepper, z: set<nat>, next: set<nat>)
    requires StatesOk(c) && Legal(c, st.configuration) && HistoryLegal(c, st.configuration, st.history)
    requires st.configuration - st.configuration * z <= next
    ensures HistoryLegal(c, next, Remember(c, st.configuration, st.configuration * z, st.history, 0))
  {
    var cfg := st.configuration;
    RememberLegal(c, cfg, st.history, cfg * z);
    HistoryStays(c, cfg, Remember(c, cfg, cfg * z, st.history, 0), cfg * z, next);
  }

  lemma HistoryStays(c: Chart, cfg: set<nat>, hist: set<nat>, exits: set<nat>, next: set<nat>)
    requires forall h: nat, p: nat | ChildOf(c, h, p) && IsHistory(c, h) && (p in exits || p !in cfg) ::
      var r := HistoryMask(c, h) * hist;
      (r == {} && p !in exits) || LegalBelow(c, p, r, c.states[h].kind == HistoryDeep)
    requires cfg - exits <= next
    ensures HistoryLegal(c, next, hist)
  {
  }

  lemma StepSound(c: Chart, st: Stepper, input: Input)
    requires ChartOk(c) && Sound(c, st)
    ensures Sound(c, Step(c, st, input).stepper)
  {
    hide Legal, HistoryLegal, MicroStep, Select, Remember;
    if st.flags.finished || st.flags.topLevelFinal {
    } else if st.flags == PRISTINE {
      var st' := st.(flags := st.flags.(spontaneous := true, initialized := true));
      StartLegal(c, st');
      EmptyHistory(c, Step(c, st, input).stepper.configuration);
      StartKeeps(c, st');
    } else {
      SelectionLegal(c, st, Stimulus(false, input.matched, input.holds));
      SelectionLegal(c, st, Stimulus(true, input.matched, input.holds));
      var managed := st.(invocations := (st.invocations - AllStates(c)) + st.configuration * AllStates(c));
      SelectionLegal(c, managed, Stimulus(true, input.matched, input.holds));
      StepStarted(c, st, input);
    }
  }

  lemma EmptyHistory(c: Chart, cfg: set<nat>)
    ensures HistoryLegal(c, cfg, {})
  {
  }

  lemma StartKeeps(c: Chart, st: Stepper)
    ensures
      var o := MicroStep(c, st, {}, c.states[0].completion, {}).stepper;
      o.history == st.history && o.flags == st.flags.(topLevelFinal := o.flags.topLevelFinal)
  {
  }

  /** Once started, a stepper never looks pristine again. */
  lemma StepStarted(c: Chart, st: Stepper, input: Input)
    requires st.flags.initialized
    ensures Step(c, st, input).stepper.flags.initialized
  {
  }

  /** In every run, whatever the callbacks answer, the configuration is legal as
      soon as the first microstep has been taken. */
  lemma {:induction false} RunsAreLegal(c: Chart, evs: seq<Event>)
    requires ChartOk(c)
    ensures Sound(c, Run(c, evs))
  {
    if evs != [] {
      RunsAreLegal(c, evs[..|evs| - 1]);
      var ev := evs[|evs| - 1];
      if ev.Call? { StepSound(c, Run(c, evs[..|evs| - 1]), ev.input); }
    }
  }
}
