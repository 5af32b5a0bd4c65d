/** Exactly when a microstep, and a run, of a well-formed chart stays legal, whatever
    its `initial` attributes name and from wherever its history states are entered. */
module Exactness {
  import opened Charts
  import opened EntrySets
  import opened Transitions
  import opened MicroSteps
  import opened Stepping
  import opened Gaps

  // ---- One microstep ----

  /** The selected transition `j` enters history state `h` from inside its parent and
      nothing is recorded for it. */
  predicate StrandsBy(c: Chart, trans: set<nat>, hist: set<nat>, j: nat, h: nat) {
    && j in trans && j < |c.transitions| && 0 < c.transitions[j].source < Size(c)
    && 0 < h && FromInside(c, c.transitions[j], h) && HistoryMask(c, h) * hist == {}
  }

  ghost predicate Strands(c: Chart, trans: set<nat>, hist: set<nat>) {
    exists j: nat, h: nat :: StrandsBy(c, trans, hist, j, h)
  }

  /** The pass over the targets completes a gaping compound state. */
  ghost predicate TargetsGap(c: Chart, cfg: set<nat>, hist: set<nat>, exits: set<nat>, targets: set<nat>, trans: set<nat>) {
    OpensGap(c, cfg, hist, exits, Entry(WithAncestors(c, targets), trans), 0)
  }

  ghost predicate GoesWrong(c: Chart, st: Stepper, m: Stimulus) {
    var cfg := st.configuration;
    var sel := Select(c, cfg, m);
    var exits := sel.exits * cfg;
    && sel.trans != {}
    && (Strands(c, sel.trans, st.history)
        || TargetsGap(c, cfg, Remember(c, cfg, exits, st.history, 0), exits, sel.targets, sel.trans))
  }

  /** Every record is usable where a history state can be entered from inside. */
  ghost predicate Tracked(c: Chart, hist: set<nat>) {
    HistoriesFromOutside(c) || (MasksApart(c) && RecordsUsable(c, hist))
  }

  lemma ClosedGap(c: Chart, cfg: set<nat>, z: set<nat>, e: set<nat>)
    requires PassInv(c, cfg, z, e, 0)
    ensures GapInv(c, cfg, z, e, 0)
  {
    InvBounds(c, cfg, z, e, 0);
    UpHolds(c, e);
    UpLeast(c, e, e);
    assert Up(c, e) == e;
  }

  /** What is recorded for a history state entered from inside is what was recorded. */
  lemma InsideKept(c: Chart, cfg: set<nat>, s: set<nat>, hist: set<nat>, h: nat)
    requires StatesOk(c) && Tracked(c, hist) && 0 < h && IsHistory(c, h) && Parent(c, h) !in Zone(c, s)
    requires Legal(c, cfg) && !HistoriesFromOutside(c)
    ensures
      var hist' := Remember(c, cfg, cfg * Zone(c, s), hist, 0);
      HistoryMask(c, h) * hist' == HistoryMask(c, h) * hist && RecordsUsable(c, hist')
  {
    RememberOwn(c, cfg, cfg * Zone(c, s), hist, 0, h);
    RememberUsable(c, cfg, cfg * Zone(c, s), hist);
  }

  lemma SeedStrands(c: Chart, cfg: set<nat>, s: set<nat>, t: set<nat>, hist: set<nat>, h: nat)
    requires WellFormed(c) && Legal(c, cfg) && Consistent(c, cfg, s) && Tracked(c, hist)
    requires t == set k, x | k in s && x in c.transitions[k].target :: x
    requires 0 < h && IsHistory(c, h) && h in WithAncestors(c, t) && Parent(c, h) !in Zone(c, s)
    ensures
      var hist' := Remember(c, cfg, cfg * Zone(c, s), hist, 0);
      && RecordsUsable(c, hist')
      && (StrandedAt(c, hist', Zone(c, s), WithAncestors(c, t), h) ==> Strands(c, s, hist))
  {
    hide Legal, RecordsUsable, MasksApart, StatesOk, WithAncestors, Remember, HistoryMask, Zone;
    SeedsFromTargets(c, cfg, s, t);
    var j, y :| OnTheWay(c, s, h, j, y);
    InsideSeed(c, cfg, s, h, j, y);
    InsideSource(c, cfg, s, j, h);
    InsideKept(c, cfg, s, hist, h);
    assert HistoryMask(c, h) * hist == {} ==> StrandsBy(c, s, hist, j, h);
  }

  lemma InsideSource(c: Chart, cfg: set<nat>, s: set<nat>, j: nat, h: nat)
    requires Consistent(c, cfg, s) && j in s && h in c.transitions[j].target
    ensures j < |c.transitions| && 0 < c.transitions[j].source < Size(c)
    ensures HistoriesFromOutside(c) ==> !FromInside(c, c.transitions[j], h)
  {
    assert TransitionTableAt(c, j);
  }

  lemma StrandsSeed(c: Chart, cfg: set<nat>, s: set<nat>, t: set<nat>, hist: set<nat>, j: nat, h: nat)
    requires WellFormed(c) && Legal(c, cfg) && Consistent(c, cfg, s) && Tracked(c, hist)
    requires t == set k, x | k in s && x in c.transitions[k].target :: x
    requires StrandsBy(c, s, hist, j, h)
    ensures StrandedAt(c, Remember(c, cfg, cfg * Zone(c, s), hist, 0), Zone(c, s), WithAncestors(c, t), h)
  {
    hide Legal, RecordsUsable, MasksApart, StatesOk;
    SeedsFromTargets(c, cfg, s, t);
    assert OnTheWay(c, s, h, j, h);
    InsideSeed(c, cfg, s, h, j, h);
    InsideKept(c, cfg, s, hist, h);
  }

  /** From a legal configuration a microstep leads to a legal one exactly if it neither
      enters a history state from inside its parent while nothing is recorded, nor
      completes a gaping compound state or takes a gaping default. */
  lemma SelectionExact(c: Chart, st: Stepper, m: Stimulus)
    requires WellFormed(c) && Legal(c, st.configuration) && HistoryLegal(c, st.configuration, st.history)
    requires Tracked(c, st.history)
    ensures Legal(c, SelectAndStep(c, st, m).stepper.configuration) <==> !GoesWrong(c, st, m)
  {
    var cfg := st.configuration;
    var sel := Select(c, cfg, m);
    if sel.trans != {} {
      hide PassInv, Select, Tracked, Legal, HistoryLegal, Setting, Remember, Strands, OpensGap, NextConfiguration, Usable, Stranded;
      SelectionSetting(c, st, m);
      SelectedConfiguration(c, st, m);
      var z := Zone(c, sel.trans);
      var hist := Remember(c, cfg, cfg * z, st.history, 0);
      var e0 := WithAncestors(c, sel.targets);
      StrandedByTargets(c, cfg, sel.trans, sel.targets, st.history);
      ClosedGap(c, cfg, z, e0);
      PassExact(c, cfg, hist, z, Entry(e0, sel.trans), 0);
    }
  }

  lemma StrandedByTargets(c: Chart, cfg: set<nat>, s: set<nat>, t: set<nat>, hist: set<nat>)
    requires WellFormed(c) && Legal(c, cfg) && Consistent(c, cfg, s) && Tracked(c, hist)
    requires t == set k, x | k in s && x in c.transitions[k].target :: x
    ensures
      var z, hist' := Zone(c, s), Remember(c, cfg, cfg * Zone(c, s), hist, 0);
      && Usable(c, hist', z, WithAncestors(c, t))
      && (Stranded(c, hist', z, WithAncestors(c, t), 0) <==> Strands(c, s, hist))
  {
    hide Legal, Consistent, Tracked, Remember, WellFormed, Zone, Restorable;
    var z, hist' := Zone(c, s), Remember(c, cfg, cfg * Zone(c, s), hist, 0);
    var e0 := WithAncestors(c, t);
    forall h: nat | 0 < h && IsHistory(c, h) && h in e0 && Parent(c, h) !in z
      ensures RecordsUsable(c, hist') && (StrandedAt(c, hist', z, e0, h) ==> Strands(c, s, hist))
    {
      SeedStrands(c, cfg, s, t, hist, h);
    }
    if Strands(c, s, hist) {
      var j: nat, h: nat :| StrandsBy(c, s, hist, j, h);
      StrandsSeed(c, cfg, s, t, hist, j, h);
    }
  }

  /** The first microstep leads to a legal configuration exactly if it completes no
      gaping compound state. */
  lemma StartExact(c: Chart, st: Stepper)
    requires WellFormed(c) && st.configuration == {} && st.history == {}
    ensures Legal(c, MicroStep(c, st, {}, c.states[0].completion, {}).stepper.configuration)
            <==> !TargetsGap(c, {}, {}, {}, c.states[0].completion, {})
  {
    hide PassInv, Legal, OpensGap, Setting, NextConfiguration;
    var z := AllStates(c);
    var e0 := WithAncestors(c, c.states[0].completion);
    StartSetting(c);
    MicroStepConfiguration(c, st, {}, c.states[0].completion, {});
    ClosedGap(c, {}, z, e0);
    assert {} * z == {};
    assert forall h: nat | 0 < h && IsHistory(c, h) :: Parent(c, h) in z;
    PassExact(c, {}, {}, z, Entry(e0, {}), 0);
  }

  // ---- Charts without gaping states ----

  /** Nothing is ever left out for good. */
  ghost predicate NoneGaping(c: Chart) {
    forall i: nat :: !Gaping(c, i) && !GapingDefault(c, i)
  }

  lemma {:induction false} ClosedReaches(c: Chart, p: nat, b: set<nat>, x: nat, m: nat)
    requires ClosedBelow(c, p, b) && x in b && Under(c, x, m) && Under(c, m, p)
    ensures m in b
    decreases x
  {
    var k := Parent(c, x);
    assert ChildOf(c, x, k);
    UnderTransitive(c, x, m, p);
    if k == p { NotBetween(c, x, p, m); }
    if k != m { ClosedReaches(c, p, b, k, m); }
  }

  lemma ClosedDoesNotGape(c: Chart, h: nat)
    requires 0 < h && IsHistory(c, h) && FirstFrom(c, h, 0) < |c.transitions| && DefaultClosed(c, h, FirstFrom(c, h, 0))
    ensures !GapingDefault(c, h)
  {
    var j := FirstFrom(c, h, 0);
    var p, t, b := Parent(c, h), c.transitions[j].target, HistoryDefault(c, h, j);
    forall m | m in Cover(c, p, t) ensures m in b {
      var x :| x in t && AtOrUnder(c, x, m);
      if x != m { ClosedReaches(c, p, b, x, m); }
    }
  }

  lemma InOrderDoesNotGape(c: Chart)
    requires ChildCompletions(c) && DefaultsClosed(c)
    ensures NoneGaping(c)
  {
    forall i: nat, x: nat | IsCompound(c, i) && CompletesTo(c, i, x) ensures !GapStays(c, i, x) {
      assert x in c.states[i].completion;
    }
    forall i: nat | 0 < i && IsHistory(c, i) && FirstFrom(c, i, 0) < |c.transitions| ensures !GapingDefault(c, i) {
      ClosedDoesNotGape(c, i);
    }
  }

  lemma {:induction false} NoGapOpens(c: Chart, cfg: set<nat>, hist: set<nat>, exits: set<nat>, e: Entry, i: nat)
    requires NoneGaping(c)
    ensures !OpensGap(c, cfg, hist, exits, e, i)
    decreases Size(c) - i
  {
    hide Resolve, Gaping, GapingDefault;
    if i < Size(c) {
      NoGapOpens(c, cfg, hist, exits, if i in e.states then Resolve(c, cfg, hist, exits, e, i) else e, i + 1);
    }
  }

  // ---- One call, and whole runs ----

  /** Whether this call looks for transitions. */
  predicate Selects(st: Stepper, input: Input) {
    && !st.flags.finished && !st.flags.topLevelFinal && st.flags != PRISTINE
    && (st.flags.spontaneous || input.internal || (st.flags.stable && input.external))
  }

  /** This call leads out of the legal configurations. */
  ghost predicate StepGoesWrong(c: Chart, st: Stepper, input: Input) {
    if st.flags == PRISTINE then TargetsGap(c, {}, {}, {}, c.states[0].completion, {})
    else Selects(st, input) && GoesWrong(c, st, Stimulus(!st.flags.spontaneous, input.matched, input.holds))
  }

  ghost predicate Healthy(c: Chart, st: Stepper) {
    Sound(c, st) && (MasksApart(c) ==> RecordsUsable(c, st.history))
  }

  lemma SelectionHealthy(c: Chart, st: Stepper, m: Stimulus)
    requires WellFormed(c) && (MasksApart(c) || HistoriesFromOutside(c))
    requires Healthy(c, st) && st.flags != PRISTINE
    ensures
      var o := SelectAndStep(c, st, m).stepper;
      && o.flags.initialized
      && (Legal(c, o.configuration) <==> !GoesWrong(c, st, m))
      && HistoryLegal(c, o.configuration, o.history)
      && (MasksApart(c) ==> RecordsUsable(c, o.history))
  {
    var cfg := st.configuration;
    var sel := Select(c, cfg, m);
    SelectionExact(c, st, m);
    if sel.trans != {} {
      hide Select, Legal, HistoryLegal, MasksApart, RecordsUsable, GoesWrong, PassInv, Setting, Remember, NextConfiguration;
      SelectionSetting(c, st, m);
      SelectedConfiguration(c, st, m);
      var z := Zone(c, sel.trans);
      var o := SelectAndStep(c, st, m).stepper;
      NextKeeps(c, cfg, cfg * z, EntrySet(c, cfg, o.history, cfg * z, sel.targets, sel.trans).states);
      SelectionKeepsHistory(c, st, z, o.configuration);
      if MasksApart(c) { RememberUsable(c, cfg, cfg * z, st.history); }
    }
  }

  lemma NextKeeps(c: Chart, cfg: set<nat>, exits: set<nat>, e: set<nat>)
    ensures cfg - exits <= NextConfiguration(c, cfg, exits, e)
  {
  }

  lemma StepExact(c: Chart, st: Stepper, input: Input)
    requires WellFormed(c) && (MasksApart(c) || HistoriesFromOutside(c)) && Healthy(c, st)
    ensures Healthy(c, Step(c, st, input).stepper) <==> !StepGoesWrong(c, st, input)
  {
    hide Legal, HistoryLegal, MicroStep, GoesWrong, RecordsUsable, MasksApart, SelectAndStep, TargetsGap, WellFormed;
    if st.flags == PRISTINE {
      var st' := st.(flags := st.flags.(spontaneous := true, initialized := true));
      StartExact(c, st');
      EmptyHistory(c, Step(c, st, input).stepper.configuration);
      StartKeeps(c, st');
    } else if Selects(st, input) {
      var m := Stimulus(!st.flags.spontaneous, input.matched, input.holds);
      var managed := st.(invocations := (st.invocations - AllStates(c)) + st.configuration * AllStates(c));
      SelectionHealthy(c, st, m);
      SelectionHealthy(c, managed, m);
      SameWrong(c, st, managed, m);
    } else {
      StepStarted(c, st, input);
    }
  }

  lemma SameWrong(c: Chart, st: Stepper, st': Stepper, m: Stimulus)
    requires st.configuration == st'.configuration && st.history == st'.history
    ensures GoesWrong(c, st, m) == GoesWrong(c, st', m)
  {
  }

  ghost predicate EventGoesWrong(c: Chart, st: Stepper, ev: Event) {
    ev.Call? && StepGoesWrong(c, st, ev.input)
  }

  ghost predicate AlwaysHealthy(c: Chart, evs: seq<Event>) {
    forall n: nat | n <= |evs| :: Healthy(c, Run(c, evs[..n]))
  }

  ghost predicate NeverWrong(c: Chart, evs: seq<Event>) {
    forall n: nat | n < |evs| :: !EventGoesWrong(c, Run(c, evs[..n]), evs[n])
  }

  lemma HealthyLonger(c: Chart, evs: seq<Event>, ev: Event)
    ensures AlwaysHealthy(c, evs + [ev]) <==> AlwaysHealthy(c, evs) && Healthy(c, Run(c, evs + [ev]))
  {
    hide Healthy, Run;
    var all := evs + [ev];
    assert all[..|all|] == all;
    forall n: nat | n <= |evs| ensures all[..n] == evs[..n] { }
    if AlwaysHealthy(c, all) {
      forall n: nat | n <= |evs| ensures Healthy(c, Run(c, evs[..n])) { assert all[..n] == evs[..n]; }
    }
    if AlwaysHealthy(c, evs) && Healthy(c, Run(c, all)) {
      forall n: nat | n <= |all| ensures Healthy(c, Run(c, all[..n])) {
        if n <= |evs| { assert all[..n] == evs[..n]; }
      }
    }
  }

  lemma WrongLonger(c: Chart, evs: seq<Event>, ev: Event)
    ensures NeverWrong(c, evs + [ev]) <==> NeverWrong(c, evs) && !EventGoesWrong(c, Run(c, evs), ev)
  {
    hide EventGoesWrong, Run;
    var all := evs + [ev];
    assert all[..|evs|] == evs && all[|evs|] == ev;
    if NeverWrong(c, all) {
      forall n: nat | n < |evs| ensures !EventGoesWrong(c, Run(c, evs[..n]), evs[n]) { assert all[..n] == evs[..n] && all[n] == evs[n]; }
    }
    if NeverWrong(c, evs) && !EventGoesWrong(c, Run(c, evs), ev) {
      forall n: nat | n < |all| ensures !EventGoesWrong(c, Run(c, all[..n]), all[n]) {
        if n < |evs| { assert all[..n] == evs[..n] && all[n] == evs[n]; }
      }
    }
  }

  /** A run stays legal throughout exactly if none of its calls goes wrong. */
  lemma {:induction false} RunsExact(c: Chart, evs: seq<Event>)
    requires WellFormed(c) && (MasksApart(c) || HistoriesFromOutside(c))
    ensures AlwaysHealthy(c, evs) <==> NeverWrong(c, evs)
  {
    hide Healthy, EventGoesWrong, Step, WellFormed, MasksApart, HistoriesFromOutside, AlwaysHealthy, NeverWrong;
    if evs == [] {
      FreshHealthy(c);
      assert AlwaysHealthy(c, evs) && NeverWrong(c, evs) by { EmptyRun(c); }
    } else {
      var before, ev := evs[..|evs| - 1], evs[|evs| - 1];
      assert evs == before + [ev];
      RunsExact(c, before);
      HealthyLonger(c, before, ev);
      WrongLonger(c, before, ev);
      if AlwaysHealthy(c, before) {
        HealthyNow(c, before);
        EventExact(c, Run(c, before), ev);
      }
    }
  }

  lemma EmptyRun(c: Chart)
    requires Healthy(c, FRESH)
    ensures AlwaysHealthy(c, []) && NeverWrong(c, [])
  {
  }

  lemma HealthyNow(c: Chart, evs: seq<Event>)
    requires AlwaysHealthy(c, evs)
    ensures Healthy(c, Run(c, evs))
  {
    assert evs[..|evs|] == evs;
  }

  lemma FreshHealthy(c: Chart)
    ensures Healthy(c, FRESH)
  {
  }

  lemma EventExact(c: Chart, st: Stepper, ev: Event)
    requires WellFormed(c) && (MasksApart(c) || HistoriesFromOutside(c)) && Healthy(c, st)
    ensures Healthy(c, Next(c, st, ev)) <==> !EventGoesWrong(c, st, ev)
  {
    if ev.Call? { StepExact(c, st, ev.input); }
  }

  /** On charts without gaping states and without histories entered from inside every
      run stays legal, and more charts are like that than those in order. */
  lemma {:induction false} SoundCharts(c: Chart, evs: seq<Event>)
    requires WellFormed(c) && HistoriesFromOutside(c) && NoneGaping(c)
    ensures AlwaysHealthy(c, evs)
  {
    hide WellFormed, NoneGaping, HistoriesFromOutside, AlwaysHealthy, EventGoesWrong, Run;
    RunsExact(c, evs);
    forall n: nat | n < |evs| ensures !EventGoesWrong(c, Run(c, evs[..n]), evs[n]) {
      EventsGoRight(c, Run(c, evs[..n]), evs[n]);
    }
  }

  lemma EventsGoRight(c: Chart, st: Stepper, ev: Event)
    requires HistoriesFromOutside(c) && NoneGaping(c)
    ensures !EventGoesWrong(c, st, ev)
  {
    hide NoneGaping, OpensGap, GoesWrong, TargetsGap;
    if ev.Call? {
      StartGoesRight(c);
      SelectionGoesRight(c, st, Stimulus(!st.flags.spontaneous, ev.input.matched, ev.input.holds));
    }
  }

  lemma StartGoesRight(c: Chart)
    requires NoneGaping(c)
    ensures !TargetsGap(c, {}, {}, {}, c.states[0].completion, {})
  {
    NoGapOpens(c, {}, {}, {}, Entry(WithAncestors(c, c.states[0].completion), {}), 0);
  }

  lemma SelectionGoesRight(c: Chart, st: Stepper, m: Stimulus)
    requires NoneGaping(c) && !Strands(c, Select(c, st.configuration, m).trans, st.history)
    ensures !GoesWrong(c, st, m)
  {
    hide NoneGaping, Strands;
    var cfg := st.configuration;
    var sel := Select(c, cfg, m);
    var exits := sel.exits * cfg;
    NoGapOpens(c, cfg, Remember(c, cfg, exits, st.history, 0), exits, Entry(WithAncestors(c, sel.targets), sel.trans), 0);
  }
}
