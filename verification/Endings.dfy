/** How runs end: when the interpreter decides to stop, what it runs on the way out,
    and that nothing happens afterwards. */
module Endings {
  import opened Charts
  import opened EntrySets
  import opened Transitions
  import opened MicroSteps
  import opened Stepping
  import opened HandlerOrder
  import opened DoneInSteps

  // ---- Shutting down ----

  /** What belongs to the states below `n`: the exit of every active one and the end of every invocation. */
  predicate LeavesOrEnds(a: Action, cfg: set<nat>, invoked: set<nat>, n: nat) {
    (a.OnExit? && a.state in cfg && a.state < n) || (a.Uninvoke? && a.state in invoked && a.state < n)
  }

  /** Inner states come first, and for one state its exit handler. */
  predicate Outwards(a: Action, b: Action) {
    && (a.OnExit? || a.Uninvoke?) && (b.OnExit? || b.Uninvoke?)
    && (a.state > b.state || (a.state == b.state && a.OnExit? && b.Uninvoke?))
  }

  predicate InOrder(log: seq<Action>) {
    forall i, j | 0 <= i < j < |log| :: Outwards(log[i], log[j])
  }

  /** Shutting down runs the exit handler of every active state and ends every
      invocation, each exactly once, and nothing else; from the inside out. */
  lemma {:induction false} ShutdownExact(cfg: set<nat>, invoked: set<nat>, n: nat)
    ensures
      var log := ShutdownActions(cfg, invoked, n);
      && (forall a :: a in log <==> LeavesOrEnds(a, cfg, invoked, n))
      && InOrder(log)
    decreases n
  {
    if n > 0 {
      ShutdownExact(cfg, invoked, n - 1);
      var first := (if n - 1 in cfg then [OnExit(n - 1)] else []) + (if n - 1 in invoked then [Uninvoke(n - 1)] else []);
      var rest := ShutdownActions(cfg, invoked, n - 1);
      var log := ShutdownActions(cfg, invoked, n);
      assert log == first + rest;
      assert forall a :: a in first <==> (a == OnExit(n - 1) && n - 1 in cfg) || (a == Uninvoke(n - 1) && n - 1 in invoked);
      OneMore(cfg, invoked, n, first, rest);
    }
  }

  lemma OneMore(cfg: set<nat>, invoked: set<nat>, n: nat, first: seq<Action>, rest: seq<Action>)
    requires n > 0
    requires first == (if n - 1 in cfg then [OnExit(n - 1)] else []) + (if n - 1 in invoked then [Uninvoke(n - 1)] else [])
    requires forall a :: a in rest <==> LeavesOrEnds(a, cfg, invoked, n - 1)
    requires InOrder(rest)
    ensures forall a :: a in first + rest <==> LeavesOrEnds(a, cfg, invoked, n)
    ensures InOrder(first + rest)
  {
    var log := first + rest;
    forall a ensures a in log <==> LeavesOrEnds(a, cfg, invoked, n) {
      assert a in log <==> a in first || a in rest;
    }
    forall i, j | 0 <= i < j < |log| ensures Outwards(log[i], log[j]) {
      assert i < |first| || log[i] == rest[i - |first|];
      assert j < |first| || (log[j] == rest[j - |first|] && log[j] in rest);
    }
  }

  // ---- When the interpreter decides to stop ----

  /** A final child of the root is active. */
  predicate FinalActive(c: Chart, cfg: set<nat>) {
    exists x | x in cfg :: ChildOf(c, x, 0) && c.states[x].kind == Final
  }

  lemma {:induction false} EnteringEnds(c: Chart, e: Entry, s: Entering, i: nat)
    requires TablesOk(c)
    ensures
      var t := EnterFrom(c, e, s, i);
      t.topLevelFinal <==> s.topLevelFinal || FinalActive(c, t.configuration - s.configuration)
    decreases Size(c) - i
  {
    hide EnterOne, FinalActive;
    if i >= Size(c) {
      assert s.configuration - s.configuration == {};
      NobodyActive(c);
    } else {
      if i in e.states && i !in s.configuration && Proper(c, i) {
        var s1 := EnterOne(c, e.trans, s, i);
        var t := EnterFrom(c, e, s1, i + 1);
        EnteringEnds(c, e, s1, i + 1);
        EnteredConfiguration(c, e, s1, i + 1);
        EntryEnds(c, e.trans, s, i);
        OneActive(c, t.configuration - s1.configuration, t.configuration - s.configuration, i);
      } else {
        EnteringEnds(c, e, s, i + 1);
      }
    }
  }

  lemma NobodyActive(c: Chart)
    ensures !FinalActive(c, {})
  {
  }

  lemma EntryEnds(c: Chart, trans: set<nat>, s: Entering, i: nat)
    requires TablesOk(c) && i < Size(c)
    ensures
      var t := EnterOne(c, trans, s, i);
      && t.configuration == s.configuration + {i}
      && (t.topLevelFinal <==> s.topLevelFinal || (ChildOf(c, i, 0) && c.states[i].kind == Final))
  {
    FinalChild(c, i);
  }

  lemma OneActive(c: Chart, a: set<nat>, b: set<nat>, i: nat)
    requires b == a + {i}
    ensures FinalActive(c, b) <==> FinalActive(c, a) || (ChildOf(c, i, 0) && c.states[i].kind == Final)
  {
    if ChildOf(c, i, 0) && c.states[i].kind == Final {
      assert i in b;
    }
  }

  lemma FinalChild(c: Chart, i: nat)
    requires TablesOk(c) && i < Size(c)
    ensures TopLevelFinal(c, i) <==> ChildOf(c, i, 0) && c.states[i].kind == Final
  {
    assert TableAt(c, i);
    if c.states[i].kind == Final && i != 0 { TopLevelMeans(c, i); }
  }

  /** A microstep decides to stop exactly if it enters a final child of the root. */
  lemma MicroStepEnds(c: Chart, st: Stepper, exits: set<nat>, targets: set<nat>, trans: set<nat>)
    requires TablesOk(c)
    ensures
      var o := MicroStep(c, st, exits, targets, trans).stepper;
      o.flags.topLevelFinal
      <==> st.flags.topLevelFinal || FinalActive(c, o.configuration - (st.configuration - exits))
  {
    var e := EntrySet(c, st.configuration, st.history, exits, targets, trans);
    EnteringEnds(c, e, Entering(st.configuration - exits, st.initializedData, st.flags.topLevelFinal,
                                ExitActions(exits * st.configuration, Size(c)) + TakeActions(c, e.trans, 0)), 0);
  }

  /** The decision to stop, and nothing but a cancellation besides final states. */
  ghost predicate Decided(c: Chart, st: Stepper, cancelled: bool) {
    && st.cancelled == cancelled
    && (FinalActive(c, st.configuration) ==> st.flags.topLevelFinal)
    && (st.flags.topLevelFinal ==> cancelled || FinalActive(c, st.configuration))
    && (st.flags.finished ==> st.flags.topLevelFinal)
    && (st.flags == PRISTINE ==> st.configuration == {})
  }

  lemma MicroStepDecides(c: Chart, st: Stepper, exits: set<nat>, targets: set<nat>, trans: set<nat>, cancelled: bool)
    requires TablesOk(c) && exits <= st.configuration && Decided(c, st, cancelled)
    requires !st.flags.topLevelFinal && st.flags != PRISTINE
    ensures Decided(c, MicroStep(c, st, exits, targets, trans).stepper, cancelled)
  {
    hide FinalActive;
    var o := MicroStep(c, st, exits, targets, trans).stepper;
    MicroStepEnds(c, st, exits, targets, trans);
    var kept := st.configuration - exits;
    MicroStepConfiguration(c, st, exits, targets, trans);
    NoneActive(c, st.configuration, kept, o.configuration);
  }

  lemma NoneActive(c: Chart, before: set<nat>, kept: set<nat>, after: set<nat>)
    requires !FinalActive(c, before) && kept <= before && kept <= after
    ensures FinalActive(c, after) <==> FinalActive(c, after - kept)
  {
    if FinalActive(c, after) {
      var x :| x in after && ChildOf(c, x, 0) && c.states[x].kind == Final;
      assert x in after - kept;
    }
  }

  lemma SelectDecides(c: Chart, st: Stepper, m: Stimulus, cancelled: bool)
    requires TablesOk(c) && Decided(c, st, cancelled) && !st.flags.topLevelFinal && st.flags.initialized
    ensures Decided(c, SelectAndStep(c, st, m).stepper, cancelled)
  {
    hide FinalActive;
    var sel := Select(c, st.configuration, m);
    if sel.trans != {} {
      var exits := sel.exits * st.configuration;
      var woken := st.(flags := st.flags.(stable := false, spontaneous := true),
                       history := Remember(c, st.configuration, exits, st.history, 0));
      MicroStepDecides(c, woken, exits, sel.targets, sel.trans, cancelled);
    }
  }

  lemma StepDecides(c: Chart, st: Stepper, input: Input, cancelled: bool)
    requires TablesOk(c) && Decided(c, st, cancelled)
    requires st.flags != PRISTINE ==> st.flags.initialized
    ensures Decided(c, Step(c, st, input).stepper, cancelled)
    ensures Step(c, st, input).stepper.flags.initialized
  {
    hide FinalActive, SelectAndStep, MicroStep, ManageFrom, ShutdownActions;
    var managed := st.(invocations := (st.invocations - AllStates(c)) + st.configuration * AllStates(c));
    if st.flags.topLevelFinal {
    } else if st.flags == PRISTINE {
      MicroStepDecides(c, st.(flags := st.flags.(spontaneous := true, initialized := true)),
                       {}, c.states[0].completion, {}, cancelled);
      FlagsKept(c, st.(flags := st.flags.(spontaneous := true, initialized := true)), {}, c.states[0].completion, {});
    } else if st.flags.spontaneous {
      SelectKeeps(c, st, Stimulus(false, input.matched, input.holds));
      SelectDecides(c, st, Stimulus(false, input.matched, input.holds), cancelled);
    } else {
      SelectDecides(c, st, Stimulus(true, input.matched, input.holds), cancelled);
      SelectKeeps(c, st, Stimulus(true, input.matched, input.holds));
      SelectKeeps(c, managed, Stimulus(true, input.matched, input.holds));
      SelectDecides(c, managed, Stimulus(true, input.matched, input.holds), cancelled);
    }
  }

  lemma FlagsKept(c: Chart, st: Stepper, exits: set<nat>, targets: set<nat>, trans: set<nat>)
    ensures MicroStep(c, st, exits, targets, trans).stepper.flags.initialized == st.flags.initialized
  {
  }

  lemma SelectKeeps(c: Chart, st: Stepper, m: Stimulus)
    ensures SelectAndStep(c, st, m).stepper.flags.initialized == st.flags.initialized
  {
  }

  lemma {:induction false} RunDecides(c: Chart, evs: seq<Event>)
    requires TablesOk(c)
    ensures Decided(c, Run(c, evs), Cancel in evs)
    ensures Run(c, evs).flags != PRISTINE ==> Run(c, evs).flags.initialized
    decreases |evs|
  {
    hide FinalActive, Step;
    if evs == [] {
      NobodyActive(c);
    } else {
      var before, ev := evs[..|evs| - 1], evs[|evs| - 1];
      RunDecides(c, before);
      assert evs == before + [ev];
      if ev.Call? { StepDecides(c, Run(c, before), ev.input, Cancel in before); }
    }
  }

  /** A call of a run finishes if a final child of the root is active, and otherwise
      only if the run was cancelled; it reports a cancellation only if there was one,
      no event is left, and no final child of the root is active. */
  lemma FinishesExactly(c: Chart, evs: seq<Event>, input: Input)
    requires TablesOk(c)
    ensures
      var st := Run(c, evs);
      var o := Step(c, st, input);
      && (FinalActive(c, st.configuration) ==> o.result == Finished)
      && (o.result == Finished ==> FinalActive(c, st.configuration) || Cancel in evs)
      && (o.result == Cancelled ==> Cancel in evs && st.flags.stable && !input.internal && !input.external && !FinalActive(c, st.configuration))
  {
    hide FinalActive, SelectAndStep, MicroStep, ManageFrom, ShutdownActions;
    RunDecides(c, evs);
  }

  /** The call that finishes leaves every active state and ends every invocation, and
      all later ones do nothing. */
  lemma LastCall(c: Chart, evs: seq<Event>, input: Input, later: Input)
    requires TablesOk(c) && !Run(c, evs).flags.finished && Step(c, Run(c, evs), input).result == Finished
    ensures
      var st := Run(c, evs);
      var o := Step(c, st, input);
      && (forall a :: a in o.actions <==> LeavesOrEnds(a, st.configuration, st.invocations, Size(c)))
      && InOrder(o.actions)
      && o.stepper.invocations * AllStates(c) == {}
      && Step(c, o.stepper, later) == Outcome(o.stepper, [], Finished)
  {
    hide FinalActive, SelectAndStep, MicroStep, ManageFrom;
    RunDecides(c, evs);
    var st := Run(c, evs);
    ShutdownExact(st.configuration, st.invocations, Size(c));
    assert st.flags.topLevelFinal;
    assert (st.invocations - AllStates(c)) * AllStates(c) == {};
  }

  /** A cancelled run that is stable and has no event left reports the cancellation,
      in the same configuration; the next call finishes. */
  lemma CancelEnds(c: Chart, evs: seq<Event>, quiet: Input, input: Input)
    requires TablesOk(c) && !quiet.internal && !quiet.external && Cancel in evs
    requires var st := Run(c, evs); st.flags.stable && !st.flags.spontaneous && !st.flags.topLevelFinal
    ensures
      var st := Run(c, evs);
      var o := Step(c, st, quiet);
      && o.result == Cancelled && o.stepper.configuration == st.configuration
      && !o.stepper.flags.finished && Step(c, o.stepper, input).result == Finished
  {
    hide FinalActive, SelectAndStep, MicroStep, ManageFrom, ShutdownActions;
    RunDecides(c, evs);
  }
}
