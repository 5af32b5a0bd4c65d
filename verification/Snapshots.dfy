/** Saving a stepper at a stable point and going on from the saved state. */
module Snapshots {
  import opened Charts
  import opened EntrySets
  import opened Transitions
  import opened MicroSteps
  import opened Stepping
  import opened Invocations
  import opened BitStrings
  import GeneratedCode

  /** The four bit sets that are written out, as text. */
  datatype Snapshot = Snapshot(
    configuration: seq<bv8>,
    history: seq<bv8>,
    invocations: seq<bv8>,
    initializedData: seq<bv8>)

  function Written(c: Chart, s: set<nat>): seq<bv8> {
    ToBase64(BitsOf(s, Size(c)))
  }

  /** Text that is no bit set stops the interpreter; it stands for nothing here. */
  function Read(text: seq<bv8>, beyond: bv8): set<nat> {
    match FromBase64(text, beyond)
    case None => {}
    case Some(bits) => SetOf(bits)
  }

  function Serialize(c: Chart, st: Stepper): Snapshot {
    Snapshot(Written(c, st.configuration), Written(c, st.history), Written(c, st.invocations), Written(c, st.initializedData))
  }

  /** A fresh stepper takes over the bit sets and counts as initialized; the saved
      invocations are issued again. */
  function Deserialize(c: Chart, s: Snapshot, beyond: bv8): (r: (Stepper, seq<Action>)) {
    (Stepper(Read(s.configuration, beyond), Read(s.history, beyond), Read(s.invocations, beyond),
             Read(s.initializedData, beyond), PRISTINE.(initialized := true), false),
     Reinvoke(c, Read(s.invocations, beyond), 0))
  }

  lemma ReadsBack(c: Chart, s: set<nat>, beyond: bv8)
    requires Size(c) < LIMIT && s <= AllStates(c)
    ensures Read(Written(c, s), beyond) == s
  {
    SetRoundTrip(s, Size(c), beyond);
  }

  /** The sets of a restored stepper are those of the saved one. */
  lemma Restored(c: Chart, st: Stepper, beyond: bv8)
    requires Size(c) < LIMIT && AtRest(c, st)
    ensures Deserialize(c, Serialize(c, st), beyond).0 == st.(flags := PRISTINE.(initialized := true))
    ensures Deserialize(c, Serialize(c, st), beyond).1 == Reinvoke(c, st.invocations, 0)
  {
    hide Read, Written;
    ReadsBack(c, st.configuration, beyond);
    ReadsBack(c, st.history, beyond);
    ReadsBack(c, st.invocations, beyond);
    ReadsBack(c, st.initializedData, beyond);
  }

  function Reinvoke(c: Chart, invoked: set<nat>, i: nat): seq<Action>
    decreases Size(c) - i
  {
    if i >= Size(c) then [] else (if i in invoked then [Invoke(i)] else []) + Reinvoke(c, invoked, i + 1)
  }

  /** What an observer sees of a run: every call's result and actions. */
  datatype Seen = Seen(result: Result, actions: seq<Action>)

  function Observe(c: Chart, st: Stepper, inputs: seq<Input>): seq<Seen>
    decreases |inputs|
  {
    if inputs == [] then []
    else
      var o := Step(c, st, inputs[0]);
      [Seen(o.result, o.actions)] + Observe(c, o.stepper, inputs[1..])
  }

  lemma {:induction false} NothingToManage(c: Chart, cfg: set<nat>, i: nat)
    ensures ManageFrom(c, cfg, cfg, i) == []
    decreases Size(c) - i
  {
    if i < Size(c) { NothingToManage(c, cfg, i + 1); }
  }

  /** A stepper at rest: settled flags, and exactly the active states invoked. */
  predicate AtRest(c: Chart, st: Stepper) {
    && st.flags == SETTLED && !st.cancelled && st.invocations == st.configuration
    && st.configuration <= AllStates(c) && st.history <= AllStates(c) && st.initializedData <= AllStates(c)
  }

  /** The restored stepper differs only in not having announced its stability. */
  lemma RestoredStep(c: Chart, st: Stepper, input: Input, beyond: bv8)
    requires Size(c) < LIMIT && AtRest(c, st)
    ensures
      var r := Deserialize(c, Serialize(c, st), beyond).0;
      && (input.internal ==> Step(c, r, input) == Step(c, st, input))
      && (!input.internal ==> Step(c, r, input) == Outcome(st, [StableConfiguration], MacroStepped))
  {
    hide MicroStep, Select, Remember, Deserialize, Serialize;
    var r := Deserialize(c, Serialize(c, st), beyond).0;
    Restored(c, st, beyond);
    NothingToManage(c, st.configuration, 0);
    var w, v := r.(flags := r.flags.(stable := false)), st.(flags := st.flags.(stable := false));
    assert w == v;
    assert (st.invocations - AllStates(c)) + st.configuration * AllStates(c) == st.invocations;
  }

  /** Saved at rest and restored, a stepper shows one extra stable configuration and
      from then on exactly what the original shows, whatever happens later. */
  lemma RestoredRun(c: Chart, st: Stepper, quiet: Input, inputs: seq<Input>, beyond: bv8)
    requires Size(c) < LIMIT && AtRest(c, st) && !quiet.internal
    ensures
      var r := Deserialize(c, Serialize(c, st), beyond).0;
      && Observe(c, r, [quiet] + inputs) == [Seen(MacroStepped, [StableConfiguration])] + Observe(c, st, inputs)
      && (inputs != [] && inputs[0].internal ==> Observe(c, r, inputs) == Observe(c, st, inputs))
  {
    hide Step, Deserialize, Serialize;
    RestoredStep(c, st, quiet, beyond);
    assert ([quiet] + inputs)[1..] == inputs;
    if inputs != [] { RestoredStep(c, st, inputs[0], beyond); }
  }

  // ---- Where the interpreter may be saved ----

  predicate Within(c: Chart, st: Stepper) {
    st.configuration <= AllStates(c) && st.history <= AllStates(c) && st.initializedData <= AllStates(c)
  }

  lemma {:induction false} EnterWithin(c: Chart, e: Entry, s: Entering, i: nat)
    requires s.configuration <= AllStates(c) && s.initializedData <= AllStates(c)
    ensures EnterFrom(c, e, s, i).configuration <= AllStates(c) && EnterFrom(c, e, s, i).initializedData <= AllStates(c)
    decreases Size(c) - i
  {
    if i < Size(c) {
      assert IsState(c, i);
      hide DefaultActions, DoneActions;
      EnterWithin(c, e, if i in e.states && i !in s.configuration && Proper(c, i) then EnterOne(c, e.trans, s, i) else s, i + 1);
    }
  }

  lemma MicroStepWithin(c: Chart, st: Stepper, exits: set<nat>, targets: set<nat>, trans: set<nat>)
    requires Within(c, st)
    ensures Within(c, MicroStep(c, st, exits, targets, trans).stepper)
  {
    hide AllStates, EnterFrom;
    var e := EntrySet(c, st.configuration, st.history, exits, targets, trans);
    EnterWithin(c, e, Entering(st.configuration - exits, st.initializedData, st.flags.topLevelFinal,
      ExitActions(exits * st.configuration, Size(c)) + TakeActions(c, e.trans, 0)), 0);
  }

  lemma SelectionWithin(c: Chart, st: Stepper, m: Stimulus)
    requires Within(c, st)
    ensures Within(c, SelectAndStep(c, st, m).stepper)
  {
    hide AllStates, MicroStep, Select;
    var sel := Select(c, st.configuration, m);
    if sel.trans != {} {
      var exits := sel.exits * st.configuration;
      GeneratedCode.RememberWithin(c, st.configuration, exits, st.history, 0);
      MicroStepWithin(c, st.(flags := st.flags.(stable := false, spontaneous := true),
                             history := Remember(c, st.configuration, exits, st.history, 0)), exits, sel.targets, sel.trans);
    }
  }

  lemma StepWithin(c: Chart, st: Stepper, input: Input)
    requires Within(c, st)
    ensures Within(c, Step(c, st, input).stepper)
  {
    hide AllStates, MicroStep, SelectAndStep;
    MicroStepWithin(c, st.(flags := st.flags.(spontaneous := true, initialized := true)), {}, c.states[0].completion, {});
    SelectionWithin(c, st, Stimulus(false, input.matched, input.holds));
    SelectionWithin(c, st, Stimulus(true, input.matched, input.holds));
    var managed := st.(invocations := (st.invocations - AllStates(c)) + st.configuration * AllStates(c));
    SelectionWithin(c, managed, Stimulus(true, input.matched, input.holds));
  }

  lemma {:induction false} RunWithin(c: Chart, evs: seq<Event>)
    ensures Within(c, Run(c, evs))
  {
    if evs != [] {
      hide Step, AllStates;
      RunWithin(c, evs[..|evs| - 1]);
      var ev := evs[|evs| - 1];
      if ev.Call? { StepWithin(c, Run(c, evs[..|evs| - 1]), ev.input); }
    }
  }

  /** Every idle or macrostepped point is at rest, unless the interpreter has been
      cancelled. */
  lemma StableIsAtRest(c: Chart, evs: seq<Event>, input: Input)
    requires ChartOk(c)
    ensures
      var o := Step(c, Run(c, evs), input);
      o.result in {MacroStepped, Idle} && !o.stepper.cancelled ==> AtRest(c, o.stepper)
  {
    hide SelectAndStep, MicroStep, ManageFrom, ShutdownActions;
    StablePoints(c, evs, input);
    RunWithin(c, evs + [Call(input)]);
    assert (evs + [Call(input)])[..|evs|] == evs;
  }

  /** So a run may be interrupted at any stable point, written out, read back and
      continued as if nothing had happened but one more stable configuration. */
  lemma SavedRun(c: Chart, evs: seq<Event>, last: Input, quiet: Input, inputs: seq<Input>, beyond: bv8)
    requires ChartOk(c) && Size(c) < LIMIT && !quiet.internal
    requires Step(c, Run(c, evs), last).result in {MacroStepped, Idle} && !Step(c, Run(c, evs), last).stepper.cancelled
    ensures
      var st := Step(c, Run(c, evs), last).stepper;
      Observe(c, Deserialize(c, Serialize(c, st), beyond).0, [quiet] + inputs)
      == [Seen(MacroStepped, [StableConfiguration])] + Observe(c, st, inputs)
  {
    hide Step, Deserialize, Serialize, Observe;
    StableIsAtRest(c, evs, last);
    RestoredRun(c, Step(c, Run(c, evs), last).stepper, quiet, inputs, beyond);
  }

  /** A finished stepper may be written out too, but nothing written says that it has
      finished: read back, it invokes its active states again and goes on. */
  lemma SavedFinished(c: Chart, evs: seq<Event>, last: Input, quiet: Input, beyond: bv8)
    requires ChartOk(c) && Size(c) < LIMIT && !quiet.internal
    requires Step(c, Run(c, evs), last).result == Finished
    ensures
      var st := Step(c, Run(c, evs), last).stepper;
      var r := Deserialize(c, Serialize(c, st), beyond).0;
      && Step(c, st, quiet) == Outcome(st, [], Finished)
      && Step(c, r, quiet).result == MacroStepped
      && Step(c, r, quiet).actions == ManageFrom(c, st.configuration, {}, 0) + [StableConfiguration]
  {
    hide MicroStep, Select, Remember, ManageFrom, Read, Written, ShutdownActions;
    var st := Step(c, Run(c, evs), last).stepper;
    StablePoints(c, evs, last);
    RunWithin(c, evs + [Call(last)]);
    assert (evs + [Call(last)])[..|evs|] == evs;
    ReadsBack(c, st.configuration, beyond);
    ReadsBack(c, st.history, beyond);
    ReadsBack(c, st.invocations, beyond);
    ReadsBack(c, st.initializedData, beyond);
  }

  /** Together with what was invoked again on restoring, the books stay balanced. */
  lemma {:induction false} ReinvokePhase(c: Chart, invoked: set<nat>, k: nat, i: nat)
    requires i < Size(c)
    ensures PhaseOf(Standing(if i < k then invoked else {}, i), Reinvoke(c, invoked, k), i) == Standing(invoked, i)
    decreases Size(c) - k
  {
    hide PhaseOf;
    if k >= Size(c) {
      QuietPhase(Standing(invoked, i), [], i);
    } else {
      ReinvokeOne(invoked, k, i);
      PhaseJoins(Standing(if i < k then invoked else {}, i), if k in invoked then [Invoke(k)] else [],
                 Reinvoke(c, invoked, k + 1), i);
      ReinvokePhase(c, invoked, k + 1, i);
    }
  }

  lemma ReinvokeOne(invoked: set<nat>, k: nat, i: nat)
    ensures PhaseOf(Standing(if i < k then invoked else {}, i), if k in invoked then [Invoke(k)] else [], i)
            == Standing(if i < k + 1 then invoked else {}, i)
  {
  }
}
