/** Invocations and handlers over whole runs. */
module Invocations {
  import opened Charts
  import opened EntrySets
  import opened Transitions
  import opened MicroSteps
  import opened Stepping

  // ---- The invocation protocol of one state ----

  datatype Phase = Off | On | Broken

  /** Where a state's invocation stands after one action. */
  function After(p: Phase, a: Action, i: nat): Phase {
    if a == Invoke(i) then (if p == Off then On else Broken)
    else if a == Uninvoke(i) then (if p == On then Off else Broken)
    else p
  }

  /** Invoke and uninvoke must alternate, starting with invoke. */
  function PhaseOf(p: Phase, log: seq<Action>, i: nat): Phase
    decreases |log|
  {
    if log == [] then p else PhaseOf(After(p, log[0], i), log[1..], i)
  }

  lemma {:induction false} PhaseJoins(p: Phase, a: seq<Action>, b: seq<Action>, i: nat)
    ensures PhaseOf(p, a + b, i) == PhaseOf(PhaseOf(p, a, i), b, i)
    decreases |a|
  {
    if a == [] {
      assert a + b == b;
    } else {
      assert (a + b)[1..] == a[1..] + b;
      PhaseJoins(After(p, a[0], i), a[1..], b, i);
    }
  }

  predicate Quiet(log: seq<Action>) {
    forall a | a in log :: !a.Invoke? && !a.Uninvoke?
  }

  lemma {:induction false} QuietPhase(p: Phase, log: seq<Action>, i: nat)
    requires Quiet(log)
    ensures PhaseOf(p, log, i) == p
    decreases |log|
  {
    if log != [] {
      assert log[0] in log;
      assert forall a | a in log[1..] :: a in log;
      QuietPhase(p, log[1..], i);
    }
  }

  // ---- Microsteps neither invoke nor uninvoke ----

  lemma {:induction false} ExitQuiet(s: set<nat>, i: nat)
    ensures Quiet(ExitActions(s, i))
    decreases i
  {
    if i > 0 { ExitQuiet(s, i - 1); }
  }

  lemma {:induction false} TakeQuiet(c: Chart, trans: set<nat>, j: nat)
    ensures Quiet(TakeActions(c, trans, j))
    decreases |c.transitions| - j
  {
    if j < |c.transitions| { TakeQuiet(c, trans, j + 1); }
  }

  lemma {:induction false} DefaultQuiet(c: Chart, trans: set<nat>, i: nat, j: nat)
    ensures Quiet(DefaultActions(c, trans, i, j))
    decreases |c.transitions| - j
  {
    if j < |c.transitions| { DefaultQuiet(c, trans, i, j + 1); }
  }

  lemma {:induction false} DoneQuiet(c: Chart, cfg: set<nat>, s: nat)
    requires s < Size(c)
    ensures Quiet(DoneAbove(c, cfg, s))
    decreases s
  {
    if s != 0 && IsParallel(c, Parent(c, s)) { DoneQuiet(c, cfg, Parent(c, s)); }
  }

  lemma EnterOneQuiet(c: Chart, trans: set<nat>, s: Entering, i: nat)
    requires i < Size(c) && Quiet(s.actions)
    ensures Quiet(EnterOne(c, trans, s, i).actions)
  {
    DefaultQuiet(c, trans, i, 0);
    if i != 0 { DoneQuiet(c, s.configuration + {i}, Parent(c, i)); }
  }

  lemma {:induction false} EnterQuiet(c: Chart, e: Entry, s: Entering, i: nat)
    requires Quiet(s.actions)
    ensures Quiet(EnterFrom(c, e, s, i).actions)
    decreases Size(c) - i
  {
    if i < Size(c) {
      if i in e.states && i !in s.configuration && Proper(c, i) {
        EnterOneQuiet(c, e.trans, s, i);
        EnterQuiet(c, e, EnterOne(c, e.trans, s, i), i + 1);
      } else {
        EnterQuiet(c, e, s, i + 1);
      }
    }
  }

  lemma MicroStepQuiet(c: Chart, st: Stepper, exits: set<nat>, targets: set<nat>, trans: set<nat>)
    ensures Quiet(MicroStep(c, st, exits, targets, trans).actions)
  {
    var e := EntrySet(c, st.configuration, st.history, exits, targets, trans);
    ExitQuiet(exits * st.configuration, Size(c));
    TakeQuiet(c, e.trans, 0);
    EnterQuiet(c, e, Entering(st.configuration - exits, st.initializedData, st.flags.topLevelFinal,
      ExitActions(exits * st.configuration, Size(c)) + TakeActions(c, e.trans, 0)), 0);
  }

  lemma SelectQuiet(c: Chart, st: Stepper, m: Stimulus)
    ensures Quiet(SelectAndStep(c, st, m).actions)
    ensures SelectAndStep(c, st, m).stepper.invocations == st.invocations
  {
    var sel := Select(c, st.configuration, m);
    if sel.trans != {} {
      var exits := sel.exits * st.configuration;
      var woken := st.(flags := st.flags.(stable := false, spontaneous := true),
                       history := Remember(c, st.configuration, exits, st.history, 0));
      MicroStepQuiet(c, woken, exits, sel.targets, sel.trans);
    }
  }

  // ---- Managing and shutting down ----

  function Standing(invoked: set<nat>, i: nat): Phase {
    if i in invoked then On else Off
  }

  lemma ManageOne(cfg: set<nat>, invoked: set<nat>, k: nat, i: nat)
    ensures PhaseOf(Standing(if i < k then cfg else invoked, i), Manage(cfg, invoked, k), i)
            == Standing(if i < k + 1 then cfg else invoked, i)
  {
  }

  lemma {:induction false} ManagePhase(c: Chart, cfg: set<nat>, invoked: set<nat>, k: nat, i: nat)
    requires i < Size(c)
    ensures PhaseOf(Standing(if i < k then cfg else invoked, i), ManageFrom(c, cfg, invoked, k), i) == Standing(cfg, i)
    decreases Size(c) - k
  {
    hide PhaseOf;
    if k >= Size(c) {
      QuietPhase(Standing(cfg, i), [], i);
    } else {
      ManageOne(cfg, invoked, k, i);
      PhaseJoins(Standing(if i < k then cfg else invoked, i), Manage(cfg, invoked, k), ManageFrom(c, cfg, invoked, k + 1), i);
      ManagePhase(c, cfg, invoked, k + 1, i);
    }
  }

  lemma {:induction false} ShutdownPhase(cfg: set<nat>, invoked: set<nat>, k: nat, i: nat)
    ensures PhaseOf(if i < k then Standing(invoked, i) else Off, ShutdownActions(cfg, invoked, k), i) == Off
    decreases k
  {
    if k > 0 {
      var p := if i < k then Standing(invoked, i) else Off;
      var here := (if k - 1 in cfg then [OnExit(k - 1)] else []) + (if k - 1 in invoked then [Uninvoke(k - 1)] else []);
      PhaseJoins(p, here, ShutdownActions(cfg, invoked, k - 1), i);
      PhaseJoins(p, if k - 1 in cfg then [OnExit(k - 1)] else [], if k - 1 in invoked then [Uninvoke(k - 1)] else [], i);
      ShutdownPhase(cfg, invoked, k - 1, i);
    }
  }

  lemma StepPhase(c: Chart, st: Stepper, input: Input, i: nat)
    requires ChartOk(c) && Sound(c, st) && st.invocations <= AllStates(c) && i < Size(c)
    ensures
      var o := Step(c, st, input);
      && PhaseOf(Standing(st.invocations, i), o.actions, i) == Standing(o.stepper.invocations, i)
      && o.stepper.invocations <= AllStates(c)
  {
    hide SelectAndStep, MicroStep, ManageFrom, ShutdownActions, PhaseOf, Sound, ChartOk;
    assert IsState(c, i);
    var p := Standing(st.invocations, i);
    QuietPhase(p, [], i);
    if st.flags.finished {
    } else if st.flags.topLevelFinal {
      ShutdownPhase(st.configuration, st.invocations, Size(c), i);
    } else if st.flags == PRISTINE {
      var st' := st.(flags := st.flags.(spontaneous := true, initialized := true));
      MicroStepQuiet(c, st', {}, c.states[0].completion, {});
      MicroStepInvokes(c, st', {}, c.states[0].completion, {});
      QuietPhase(p, Step(c, st, input).actions, i);
    } else if st.flags.spontaneous || input.internal {
      SelectQuiet(c, st, Stimulus(!st.flags.spontaneous, input.matched, input.holds));
      QuietPhase(p, Step(c, st, input).actions, i);
    } else {
      var managed := st.(invocations := (st.invocations - AllStates(c)) + st.configuration * AllStates(c));
      var q := Standing(managed.invocations, i);
      var actions := ManageFrom(c, st.configuration, st.invocations, 0);
      ManagePhase(c, st.configuration, st.invocations, 0, i);
      SelectQuiet(c, managed, Stimulus(true, input.matched, input.holds));
      var more := SelectAndStep(c, managed, Stimulus(true, input.matched, input.holds)).actions;
      QuietPhase(q, more, i);
      QuietPhase(q, [StableConfiguration], i);
      PhaseJoins(p, actions, more, i);
      PhaseJoins(p, actions, [StableConfiguration], i);
    }
  }

  lemma MicroStepInvokes(c: Chart, st: Stepper, exits: set<nat>, targets: set<nat>, trans: set<nat>)
    ensures MicroStep(c, st, exits, targets, trans).stepper.invocations == st.invocations
  {
  }

  /** All actions of a run, in order. */
  function Trace(c: Chart, evs: seq<Event>): seq<Action> {
    if evs == [] then []
    else
      var before, ev := evs[..|evs| - 1], evs[|evs| - 1];
      Trace(c, before) + match ev case Cancel => [] case Call(input) => Step(c, Run(c, before), input).actions
  }

  /** In every run, invoke and uninvoke strictly alternate for every state, starting
      with invoke, and the books say where each state stands. */
  lemma {:induction false} InvocationsAlternate(c: Chart, evs: seq<Event>, i: nat)
    requires ChartOk(c) && i < Size(c)
    ensures PhaseOf(Off, Trace(c, evs), i) == Standing(Run(c, evs).invocations, i)
    ensures Run(c, evs).invocations <= AllStates(c)
  {
    hide Sound, ChartOk, Step;
    if evs != [] {
      var before, ev := evs[..|evs| - 1], evs[|evs| - 1];
      InvocationsAlternate(c, before, i);
      RunsAreLegal(c, before);
      if ev.Call? {
        StepPhase(c, Run(c, before), ev.input, i);
        PhaseJoins(Off, Trace(c, before), Step(c, Run(c, before), ev.input).actions, i);
      } else {
        assert Trace(c, before) + [] == Trace(c, before);
      }
    }
  }

  const SETTLED := Flags(false, true, false, false, true)

  /** At every stable point exactly the active states are invoked, and nothing is
      pending; once finished, nothing is invoked. */
  lemma StablePoints(c: Chart, evs: seq<Event>, input: Input)
    requires ChartOk(c)
    ensures
      var o := Step(c, Run(c, evs), input);
      && (o.result in {MacroStepped, Idle} ==> o.stepper.flags == SETTLED && o.stepper.invocations == o.stepper.configuration)
      && (o.result == Cancelled ==> o.stepper.invocations == o.stepper.configuration)
      && (o.result == Finished ==> o.stepper.invocations == {})
  {
    hide SelectAndStep, MicroStep, ManageFrom, ShutdownActions;
    var st := Run(c, evs);
    RunsAreLegal(c, evs);
    InvocationsAlternate(c, evs, 0);
    FinishedSettled(c, evs);
    assert forall x | x in st.configuration :: IsState(c, x);
  }

  lemma {:induction false} FinishedSettled(c: Chart, evs: seq<Event>)
    requires ChartOk(c)
    ensures Run(c, evs).flags.finished ==> Run(c, evs).invocations == {}
  {
    hide SelectAndStep, MicroStep, ManageFrom, ShutdownActions;
    if evs != [] {
      var before, ev := evs[..|evs| - 1], evs[|evs| - 1];
      FinishedSettled(c, before);
      InvocationsAlternate(c, before, 0);
      if ev.Call? { FinishedOnly(c, Run(c, before), ev.input); }
    }
  }

  lemma FinishedOnly(c: Chart, st: Stepper, input: Input)
    ensures
      var o := Step(c, st, input).stepper;
      o.flags.finished ==> st.flags.finished || (st.flags.topLevelFinal && o.invocations == st.invocations - AllStates(c))
  {
  }
}
