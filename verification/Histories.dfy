/** What history states remember over whole runs, and what entering one restores. */
module Histories {
  import opened Charts
  import opened EntrySets
  import opened Transitions
  import opened MicroSteps
  import opened Stepping
  import opened HandlerOrder

  /** Whether this call runs the exit handler of `p` in a microstep. */
  predicate Leaves(c: Chart, st: Stepper, input: Input, p: nat) {
    !st.flags.topLevelFinal && OnExit(p) in Step(c, st, input).actions
  }

  /** The active states under the mask of `h` just before its parent was last left. */
  function LastLeft(c: Chart, evs: seq<Event>, h: nat): set<nat>
    requires 0 < h < Size(c)
  {
    if evs == [] then {}
    else
      var before, ev := evs[..|evs| - 1], evs[|evs| - 1];
      var st := Run(c, before);
      if ev.Call? && Leaves(c, st, ev.input, Parent(c, h)) then HistoryMask(c, h) * st.configuration
      else LastLeft(c, before, h)
  }

  lemma {:induction false} ExitListed(log: seq<Action>, p: nat)
    ensures OnExit(p) in log <==> p in ExitsOf(log)
    decreases |log|
  {
    if log != [] {
      assert log == [log[0]] + log[1..];
      ExitListed(log[1..], p);
    }
  }

  lemma {:induction false} ReversedMembers(l: seq<nat>, x: nat)
    ensures x in Reversed(l) <==> x in l
    decreases |l|
  {
    if l != [] {
      assert l == [l[0]] + l[1..];
      ReversedMembers(l[1..], x);
    }
  }

  lemma SelectLeaves(c: Chart, st: Stepper, m: Stimulus, p: nat)
    requires forall x | x in st.configuration :: x < Size(c)
    ensures
      var o := SelectAndStep(c, st, m);
      var sel := Select(c, st.configuration, m);
      var exits := if sel.trans == {} then {} else sel.exits * st.configuration;
      && (OnExit(p) in o.actions <==> p in exits)
      && o.stepper.history == (if sel.trans == {} then st.history else Remember(c, st.configuration, exits, st.history, 0))
  {
    var sel := Select(c, st.configuration, m);
    if sel.trans != {} {
      var exits := sel.exits * st.configuration;
      var woken := st.(flags := st.flags.(stable := false, spontaneous := true),
                       history := Remember(c, st.configuration, exits, st.history, 0));
      MicroStepOrder(c, woken, exits, sel.targets, sel.trans);
      ExitListed(SelectAndStep(c, st, m).actions, p);
      ReversedMembers(Listing(exits, Size(c), 0), p);
      ListingSpec(exits, Size(c), 0);
    }
  }

  lemma SelectRecords(c: Chart, st: Stepper, m: Stimulus, h: nat)
    requires ChartOk(c) && MasksApart(c) && 0 < h < Size(c) && IsHistory(c, h)
    requires forall x | x in st.configuration :: x < Size(c)
    ensures
      var o := SelectAndStep(c, st, m);
      var k := HistoryMask(c, h);
      k * o.stepper.history == if OnExit(Parent(c, h)) in o.actions then k * st.configuration else k * st.history
  {
    var p := Parent(c, h);
    var sel := Select(c, st.configuration, m);
    SelectLeaves(c, st, m, p);
    if sel.trans != {} {
      var exits := sel.exits * st.configuration;
      if p in exits {
        RememberRecords(c, st.configuration, exits, st.history, 0, h);
      } else {
        RememberOwn(c, st.configuration, exits, st.history, 0, h);
      }
    }
  }

  lemma StepRecords(c: Chart, st: Stepper, input: Input, h: nat)
    requires ChartOk(c) && MasksApart(c) && Sound(c, st) && 0 < h < Size(c) && IsHistory(c, h)
    ensures
      var k := HistoryMask(c, h);
      k * Step(c, st, input).stepper.history
      == if Leaves(c, st, input, Parent(c, h)) then k * st.configuration else k * st.history
  {
    hide SelectAndStep, MicroStep, ManageFrom, ShutdownActions, HistoryMask, MasksApart, ChartOk;
    assert forall x | x in st.configuration :: x < Size(c) by { hide ChartOk; assert forall x | x in st.configuration :: Proper(c, x); }
    if st.flags.finished || st.flags.topLevelFinal {
    } else if st.flags == PRISTINE {
      StartRecords(c, st.(flags := st.flags.(spontaneous := true, initialized := true)), Parent(c, h));
    } else if st.flags.spontaneous || input.internal {
      SelectRecords(c, st, Stimulus(!st.flags.spontaneous, input.matched, input.holds), h);
    } else {
      var managed := st.(invocations := (st.invocations - AllStates(c)) + st.configuration * AllStates(c));
      SelectRecords(c, managed, Stimulus(true, input.matched, input.holds), h);
      ManageNoExit(c, st.configuration, st.invocations, 0, Parent(c, h));
    }
  }

  lemma StartRecords(c: Chart, st: Stepper, p: nat)
    requires st.configuration == {}
    ensures
      var o := MicroStep(c, st, {}, c.states[0].completion, {});
      o.stepper.history == st.history && OnExit(p) !in o.actions
  {
    MicroStepOrder(c, st, {}, c.states[0].completion, {});
    ListingSpec({}, Size(c), 0);
    ReversedMembers(Listing({}, Size(c), 0), p);
    ExitListed(MicroStep(c, st, {}, c.states[0].completion, {}).actions, p);
  }

  lemma {:induction false} ManageNoExit(c: Chart, cfg: set<nat>, invoked: set<nat>, i: nat, p: nat)
    ensures OnExit(p) !in ManageFrom(c, cfg, invoked, i)
    decreases Size(c) - i
  {
    if i < Size(c) { ManageNoExit(c, cfg, invoked, i + 1, p); }
  }

  /** In every run of a chart whose history masks are apart, the record of a history
      state is what was active under its mask when its parent was last left. */
  lemma {:induction false} HistoryIsLastLeft(c: Chart, evs: seq<Event>, h: nat)
    requires ChartOk(c) && MasksApart(c) && 0 < h < Size(c) && IsHistory(c, h)
    ensures HistoryMask(c, h) * Run(c, evs).history == LastLeft(c, evs, h)
  {
    hide Sound, ChartOk, Step, HistoryMask, MasksApart;
    if evs != [] {
      var before, ev := evs[..|evs| - 1], evs[|evs| - 1];
      HistoryIsLastLeft(c, before, h);
      RunsAreLegal(c, before);
      if ev.Call? { StepRecords(c, Run(c, before), ev.input, h); }
    }
  }

  // ---- Entering a history state ----

  lemma {:induction false} DescendKeeps(c: Chart, cfg: set<nat>, hist: set<nat>, exits: set<nat>, e: Entry, i: nat, x: nat)
    requires x in e.states && x < Size(c) && (c.states[x].kind != Initial || x < i)
    ensures x in Descend(c, cfg, hist, exits, e, i).states
    decreases Size(c) - i
  {
    if i < Size(c) {
      if i in e.states {
        ResolveKeeps(c, cfg, hist, exits, e, i, x);
        DescendKeeps(c, cfg, hist, exits, Resolve(c, cfg, hist, exits, e, i), i + 1, x);
      } else {
        DescendKeeps(c, cfg, hist, exits, e, i + 1, x);
      }
    }
  }

  lemma ResolveKeeps(c: Chart, cfg: set<nat>, hist: set<nat>, exits: set<nat>, e: Entry, i: nat, x: nat)
    requires i < Size(c) && x in e.states && x < Size(c) && (c.states[x].kind != Initial || x < i)
    ensures x in Resolve(c, cfg, hist, exits, e, i).states
  {
    if c.states[i].kind == Initial { InitialKeeps(c, e, i, 0, x); }
  }

  lemma {:induction false} InitialKeeps(c: Chart, e: Entry, i: nat, j: nat, x: nat)
    requires j <= |c.transitions| && x in e.states && x != i
    ensures x in ResolveInitial(c, e, i, j).states
    decreases |c.transitions| - j
  {
    if j < |c.transitions| {
      if c.transitions[j].source == i {
        var t := c.transitions[j].target;
        InitialKeeps(c, Entry(e.states - {i} + t + TargetAncestors(c, t, i + 1), e.trans + {j}), i, j + 1, x);
      } else {
        InitialKeeps(c, e, i, j + 1, x);
      }
    }
  }

  /** Once the pass reaches a history state, it brings in what that resolves to. */
  lemma {:induction false} DescendResolves(c: Chart, cfg: set<nat>, hist: set<nat>, exits: set<nat>, e: Entry, i: nat, h: nat)
    returns (d: Entry)
    requires i <= h < Size(c) && IsHistory(c, h) && h in e.states
    ensures h in d.states
    ensures Descend(c, cfg, hist, exits, e, i) == Descend(c, cfg, hist, exits, ResolveHistory(c, cfg, hist, d, h), h + 1)
    decreases h - i
  {
    d := e;
    if i < h {
      if i in e.states { ResolveKeeps(c, cfg, hist, exits, e, i, h); }
      d := DescendResolves(c, cfg, hist, exits, if i in e.states then Resolve(c, cfg, hist, exits, e, i) else e, i + 1, h);
    }
  }

  /** What a recorded history state contributes is entered. */
  lemma RecordEntered(c: Chart, cfg: set<nat>, hist: set<nat>, exits: set<nat>, e: Entry, h: nat)
    requires StatesOk(c) && 0 < h < Size(c) && IsHistory(c, h) && h in e.states
    requires Parent(c, h) in cfg || HistoryMask(c, h) * hist != {}
    ensures forall x | x in HistoryMask(c, h) * hist && Proper(c, x) :: x in Descend(c, cfg, hist, exits, e, 0).states
  {
    assert StateOk(c, h);
    var d := DescendResolves(c, cfg, hist, exits, e, 0, h);
    forall x | x in HistoryMask(c, h) * hist && Proper(c, x) ensures x in Descend(c, cfg, hist, exits, e, 0).states {
      DescendKeeps(c, cfg, hist, exits, ResolveHistory(c, cfg, hist, d, h), h + 1, x);
    }
  }

  /** A legal configuration that contains a legal part below `p` has nothing else there. */
  lemma {:induction false} LegalPartIsAll(c: Chart, n: set<nat>, p: nat, r: set<nat>, deep: bool, x: nat)
    requires Legal(c, n) && LegalBelow(c, p, r, deep) && r <= n && p < Size(c) && c.states[p].kind in {Compound, Parallel}
    requires x in n && Under(c, x, p) && (deep || ChildOf(c, x, p))
    ensures x in r
    decreases x
  {
    var k := Parent(c, x);
    assert ChildOf(c, x, k);
    if k != p {
      AncestorIn(c, n, x, k);
      LegalPartIsAll(c, n, p, r, deep, k);
    }
    if IsCompound(c, k) {
      assert HasChildIn(c, k, r);
      var y: nat :| ChildOf(c, y, k) && Proper(c, y) && y in r;
    }
  }

  /** Entering a history state whose parent is being entered makes exactly the
      recorded states active below that parent: the recorded children for a shallow
      one, the whole recorded part for a deep one. */
  lemma HistoryRestores(c: Chart, cfg: set<nat>, hist: set<nat>, z: set<nat>, e: Entry, h: nat)
    requires Setting(c, cfg, hist, z) && ChildCompletions(c) && DefaultsClosed(c) && PassInv(c, cfg, z, e.states, 0)
    requires Recorded(c, hist, z, e.states)
    requires 0 < h < Size(c) && IsHistory(c, h) && h in e.states
    requires Parent(c, h) in cfg || HistoryMask(c, h) * hist != {}
    ensures
      var n := NextConfiguration(c, cfg, cfg * z, Descend(c, cfg, hist, cfg * z, e, 0).states);
      Legal(c, n) && HistoryMask(c, h) * n == HistoryMask(c, h) * hist
  {
    var p := Parent(c, h);
    assert ChildOf(c, h, p);
    var r := HistoryMask(c, h) * hist;
    var deep := c.states[h].kind == HistoryDeep;
    assert LegalBelow(c, p, r, deep);
    PassAll(c, cfg, hist, z, e, 0);
    var d := Descend(c, cfg, hist, cfg * z, e, 0).states;
    PassLegal(c, cfg, z, d);
    var n := NextConfiguration(c, cfg, cfg * z, d);
    RecordEntered(c, cfg, hist, cfg * z, e, h);
    assert r <= n by { assert forall x | x in r :: Proper(c, x) && x in d; }
    forall x | x in HistoryMask(c, h) && x in n ensures x in r {
      if !deep { ChildUnder(c, x, p); }
      LegalPartIsAll(c, n, p, r, deep, x);
    }
  }

  /** Without a record its default transition is taken and its targets are entered. */
  lemma HistoryDefaults(c: Chart, cfg: set<nat>, hist: set<nat>, z: set<nat>, e: Entry, h: nat)
    requires Setting(c, cfg, hist, z) && ChildCompletions(c) && DefaultsClosed(c) && PassInv(c, cfg, z, e.states, 0)
    requires Recorded(c, hist, z, e.states)
    requires 0 < h < Size(c) && IsHistory(c, h) && h in e.states
    requires Parent(c, h) !in cfg && HistoryMask(c, h) * hist == {}
    ensures
      var j := FirstFrom(c, h, 0);
      var d := Descend(c, cfg, hist, cfg * z, e, 0);
      && Legal(c, NextConfiguration(c, cfg, cfg * z, d.states))
      && j < |c.transitions| && j in d.trans
      && c.transitions[j].target <= NextConfiguration(c, cfg, cfg * z, d.states)
  {
    hide PassInv, Recorded, Legal, ChildCompletions, DefaultsClosed, HistoryReady, ZoneOk;
    var j := FirstFrom(c, h, 0);
    assert StateOk(c, h);
    PassAll(c, cfg, hist, z, e, 0);
    PassLegal(c, cfg, z, Descend(c, cfg, hist, cfg * z, e, 0).states);
    var b := DescendResolves(c, cfg, hist, cfg * z, e, 0, h);
    var e' := ResolveHistory(c, cfg, hist, b, h);
    DescendTakes(c, cfg, hist, cfg * z, e', h + 1, j);
    forall x | x in c.transitions[j].target
      ensures x in NextConfiguration(c, cfg, cfg * z, Descend(c, cfg, hist, cfg * z, e, 0).states)
    {
      DescendKeeps(c, cfg, hist, cfg * z, e', h + 1, x);
    }
  }

  lemma {:induction false} DescendTakes(c: Chart, cfg: set<nat>, hist: set<nat>, exits: set<nat>, e: Entry, i: nat, j: nat)
    requires j in e.trans
    ensures j in Descend(c, cfg, hist, exits, e, i).trans
    decreases Size(c) - i
  {
    if i < Size(c) {
      if i in e.states {
        if c.states[i].kind == Initial { InitialTakes(c, e, i, 0, j); }
        DescendTakes(c, cfg, hist, exits, Resolve(c, cfg, hist, exits, e, i), i + 1, j);
      } else {
        DescendTakes(c, cfg, hist, exits, e, i + 1, j);
      }
    }
  }

  lemma {:induction false} InitialTakes(c: Chart, e: Entry, i: nat, k: nat, j: nat)
    requires k <= |c.transitions| && j in e.trans
    ensures j in ResolveInitial(c, e, i, k).trans
    decreases |c.transitions| - k
  {
    if k < |c.transitions| {
      if c.transitions[k].source == i {
        var t := c.transitions[k].target;
        InitialTakes(c, Entry(e.states - {i} + t + TargetAncestors(c, t, i + 1), e.trans + {k}), i, k + 1, j);
      } else {
        InitialTakes(c, e, i, k + 1, j);
      }
    }
  }

  /** When a selected transition targets a history state, the step makes exactly
      the recorded states active below the history's parent if there is a record;
      otherwise it enters the targets of the history's default transition.  (A history
      state entered from inside its parent has to have something recorded.) */
  lemma TargetedHistory(c: Chart, st: Stepper, m: Stimulus, j: nat, h: nat)
    requires WellFormed(c) && ChildCompletions(c) && DefaultsClosed(c)
    requires Legal(c, st.configuration) && HistoryLegal(c, st.configuration, st.history)
    requires j in Select(c, st.configuration, m).trans && j < |c.transitions| && h in c.transitions[j].target
    requires 0 < h < Size(c) && IsHistory(c, h)
    requires InsideRecorded(c, Select(c, st.configuration, m).trans, SelectAndStep(c, st, m).stepper.history)
    ensures
      var o := SelectAndStep(c, st, m).stepper;
      var k := HistoryMask(c, h);
      if Parent(c, h) in st.configuration || k * o.history != {} then k * o.configuration == k * o.history
      else FirstFrom(c, h, 0) < |c.transitions| && c.transitions[FirstFrom(c, h, 0)].target <= o.configuration
  {
    hide PassInv, Select, Consistent, Setting, Legal, HistoryLegal, StatesOk, TransitionsOk, Remember, HistoryMask, Zone,
      NextConfiguration, Descend, SelectAndStep, ChildCompletions, DefaultsClosed, InsideRecorded, Recorded;
    var cfg := st.configuration;
    var sel := Select(c, cfg, m);
    SelectionSetting(c, st, m);
    SelectedConfiguration(c, st, m);
    var z := Zone(c, sel.trans);
    var hist := Remember(c, cfg, cfg * z, st.history, 0);
    SeedsRecorded(c, cfg, sel.trans, sel.targets, hist);
    var e0 := Entry(WithAncestors(c, sel.targets), sel.trans);
    assert h in sel.targets;
    if Parent(c, h) in cfg || HistoryMask(c, h) * hist != {} {
      HistoryRestores(c, cfg, hist, z, e0, h);
    } else {
      HistoryDefaults(c, cfg, hist, z, e0, h);
    }
  }
}
