/** When the targets of a microstep leave nothing but proper states to be entered by
    default, whether the step stays legal can be read off the chart. */
module DefaultEntries {
  import opened Charts
  import opened EntrySets
  import opened Transitions
  import opened MicroSteps
  import opened Stepping
  import opened Gaps
  import opened Exactness

  /** `k` is about to be entered by default: it, or the parallel state it is a region
      of, is on the way to a target, and no target lies below it. */
  ghost predicate Open(c: Chart, z: set<nat>, e: set<nat>, k: nat) {
    && k < Size(c) && k in z && Lowest(c, e, k)
    && (k in e || (0 < k && Proper(c, k) && IsParallel(c, Parent(c, k)) && Parent(c, k) in e))
  }

  /** No history state is targeted and no `<initial>` element is met. */
  ghost predicate PlainEntry(c: Chart, z: set<nat>, e: set<nat>) {
    (forall h | h in e :: !IsHistory(c, h)) && forall k: nat | Open(c, z, e, k) :: !Repairs(c, k)
  }

  /** The initial state of compound `i` is no child of it. */
  ghost predicate DeepCompletion(c: Chart, i: nat) {
    IsCompound(c, i) && exists x: nat :: CompletesTo(c, i, x) && !ChildOf(c, x, i)
  }

  /** Some compound state entered by default names an initial state that is no child. */
  ghost predicate DeepDefault(c: Chart, z: set<nat>, e: set<nat>) {
    exists k: nat, i: nat :: Open(c, z, e, k) && i in Defaults(c, k) && DeepCompletion(c, i)
  }

  lemma {:induction false} DefaultsTransitive(c: Chart, k: nat, i: nat, x: nat)
    requires i in Defaults(c, k) && x in Defaults(c, i)
    ensures x in Defaults(c, k)
    decreases Size(c) - k
  {
    if i != k {
      var w :| w in c.states[k].completion && k < w < Size(c) && i in Defaults(c, w);
      DefaultsTransitive(c, w, i, x);
    }
  }

  /** Where no `<initial>` element is met, a deep completion leaves a gap. */
  lemma DeepIsGaping(c: Chart, k: nat, i: nat)
    requires StatesOk(c) && i in Defaults(c, k) && IsCompound(c, i) && !Repairs(c, k)
    ensures Gaping(c, i) <==> DeepCompletion(c, i)
  {
    forall x: nat | CompletesTo(c, i, x) ensures !Repairs(c, x) {
      CompletionBelow(c, i, x);
      DefaultsStep(c, k, i, x) by { assert x in c.states[i].completion; }
      if Repairs(c, x) {
        var v: nat :| v in Defaults(c, x) && v < Size(c) && c.states[v].kind == Initial;
        DefaultsTransitive(c, k, x, v);
      }
    }
  }

  // ---- What the pass has entered so far ----

  /** `v` was on the way to a target, is entered by default, or stays active. */
  ghost predicate Accounted(c: Chart, z: set<nat>, e0: set<nat>, v: nat) {
    v < Size(c) && (v in e0 || (v !in z && Proper(c, v)) || exists k: nat :: Open(c, z, e0, k) && v in Defaults(c, k))
  }

  ghost predicate Plainly(c: Chart, cfg: set<nat>, z: set<nat>, e0: set<nat>, e: set<nat>, i: nat) {
    && GapInv(c, cfg, z, e, i) && e0 <= e && ParentsIn(c, e0) && PlainEntry(c, z, e0)
    && (forall v | v in e0 :: v < Size(c) && c.states[v].kind != Initial)
    && (forall v | v in e :: Accounted(c, z, e0, v))
  }

  lemma AccountedProper(c: Chart, z: set<nat>, e0: set<nat>, v: nat)
    requires StatesOk(c) && PlainEntry(c, z, e0) && Accounted(c, z, e0, v)
    requires forall x | x in e0 :: x < Size(c) && c.states[x].kind != Initial
    ensures Proper(c, v)
  {
    if k: nat :| Open(c, z, e0, k) && v in Defaults(c, k) {
      DefaultsInside(c, k, v);
    }
  }

  /** A state that completes, or a region in the zone, is entered by default. */
  lemma CompletesOpen(c: Chart, cfg: set<nat>, z: set<nat>, e0: set<nat>, e: set<nat>, i: nat) returns (k: nat)
    requires StatesOk(c) && ZoneOk(c, cfg, z) && Plainly(c, cfg, z, e0, e, i) && i in e && IsCompound(c, i)
    requires Completes(c, cfg, cfg * z, e, i)
    ensures Open(c, z, e0, k) && i in Defaults(c, k)
  {
    hide PassInv, Mended, PlainEntry, ZoneOk;
    CompletesOnlyInZone(c, cfg, z, e, i);
    assert Accounted(c, z, e0, i);
    if i in e0 {
      k := i;
    } else {
      k :| Open(c, z, e0, k) && i in Defaults(c, k);
    }
  }

  lemma AccountedRegion(c: Chart, cfg: set<nat>, z: set<nat>, e0: set<nat>, i: nat, v: nat)
    requires StatesOk(c) && ZoneOk(c, cfg, z) && Accounted(c, z, e0, i) && IsParallel(c, i)
    requires ChildOf(c, v, i) && Proper(c, v) && ParentsIn(c, e0)
    ensures Accounted(c, z, e0, v)
  {
    assert StateOk(c, i);
    if v in z && v !in e0 {
      if i in e0 {
        forall w | w in e0 ensures !Under(c, w, v) {
          if Under(c, w, v) { AncestorIn(c, e0, w, v); }
        }
        assert Open(c, z, e0, v);
        assert v in Defaults(c, v);
      } else {
        assert i in z;
        var k: nat :| Open(c, z, e0, k) && i in Defaults(c, k);
        DefaultsStep(c, k, i, v);
      }
    }
  }

  lemma PlainStep(c: Chart, cfg: set<nat>, hist: set<nat>, z: set<nat>, e0: set<nat>, e: Entry, i: nat)
    requires Setting(c, cfg, hist, z) && Plainly(c, cfg, z, e0, e.states, i) && i < Size(c) && i in e.states
    requires !OpensGapAt(c, cfg, hist, cfg * z, e, i)
    ensures Plainly(c, cfg, z, e0, Resolve(c, cfg, hist, cfg * z, e, i).states, i + 1)
  {
    hide GapInv, Resolve, HistoryReady, ZoneOk, PlainEntry, Accounted;
    var e' := Resolve(c, cfg, hist, cfg * z, e, i).states;
    forall v | v in e.states ensures Proper(c, v) { AccountedProper(c, z, e0, v); }
    assert Usable(c, hist, z, e.states);
    GapStep(c, cfg, hist, z, e, i);
    forall v | v in e0 ensures v in e' { Keeps(c, cfg, hist, cfg * z, e, i, v); }
    forall v | v in e' ensures Accounted(c, z, e0, v) {
      if v !in e.states { AddedAccounted(c, cfg, hist, z, e0, e, i, v); }
    }
  }

  lemma AddedAccounted(c: Chart, cfg: set<nat>, hist: set<nat>, z: set<nat>, e0: set<nat>, e: Entry, i: nat, v: nat)
    requires Setting(c, cfg, hist, z) && Plainly(c, cfg, z, e0, e.states, i) && i < Size(c) && i in e.states && Proper(c, i)
    requires v in Resolve(c, cfg, hist, cfg * z, e, i).states && v !in e.states
    ensures Accounted(c, z, e0, v)
  {
    hide GapInv, HistoryReady, ZoneOk, PlainEntry, Accounted;
    assert StateOk(c, i);
    var w := Added(c, cfg, hist, cfg * z, e, i, v);
    UnderBounds(c, w, i);
    if IsCompound(c, i) {
      var k := CompletesOpen(c, cfg, z, e0, e.states, i);
      DefaultsStep(c, k, i, v);
      DefaultAccounted(c, z, e0, k, v);
    } else {
      AccountedRegion(c, cfg, z, e0, i, v);
    }
  }

  lemma DefaultAccounted(c: Chart, z: set<nat>, e0: set<nat>, k: nat, v: nat)
    requires Open(c, z, e0, k) && v in Defaults(c, k) && v < Size(c)
    ensures Accounted(c, z, e0, v)
  {
  }

  // ---- Everything entered by default is reached ----

  /** `y` is there, or its parallel parent is, and is still to be resolved. */
  ghost predicate Coming(c: Chart, z: set<nat>, e: set<nat>, i: nat, y: nat) {
    && y < Size(c) && y in z && Lowest(c, e, y)
    && (if y in e then i <= y
        else 0 < y && Proper(c, y) && IsParallel(c, Parent(c, y)) && Parent(c, y) in e && i <= Parent(c, y))
  }

  lemma ComingStays(c: Chart, cfg: set<nat>, hist: set<nat>, exits: set<nat>, z: set<nat>, e: Entry, i: nat, y: nat)
    requires StatesOk(c) && i < Size(c) && i in e.states && Proper(c, i) && i != y && Coming(c, z, e.states, i, y)
    ensures Coming(c, z, Resolve(c, cfg, hist, exits, e, i).states, i + 1, y)
  {
    hide Resolve;
    var e' := Resolve(c, cfg, hist, exits, e, i).states;
    assert StateOk(c, i);
    forall v | v in e' ensures !Under(c, v, y) {
      if v !in e.states { NotUnderComing(c, cfg, hist, exits, z, e, i, y, v); }
    }
    forall v | v in e.states ensures v in e' { Keeps(c, cfg, hist, exits, e, i, v); }
    if y !in e.states && Parent(c, y) == i {
      assert ChildOf(c, y, i);
      RegionEntered(c, cfg, hist, exits, e, i, y);
    }
  }

  lemma RegionEntered(c: Chart, cfg: set<nat>, hist: set<nat>, exits: set<nat>, e: Entry, i: nat, y: nat)
    requires StatesOk(c) && IsParallel(c, i) && ChildOf(c, y, i) && Proper(c, y)
    ensures y in Resolve(c, cfg, hist, exits, e, i).states && i < y
  {
    assert StateOk(c, i);
  }

  lemma NotUnderComing(c: Chart, cfg: set<nat>, hist: set<nat>, exits: set<nat>, z: set<nat>, e: Entry, i: nat, y: nat, v: nat)
    requires StatesOk(c) && i < Size(c) && i in e.states && Proper(c, i) && i != y && Coming(c, z, e.states, i, y)
    requires v in Resolve(c, cfg, hist, exits, e, i).states && v !in e.states
    ensures !Under(c, v, y)
  {
    hide Resolve;
    if Under(c, v, y) {
      var w := Added(c, cfg, hist, exits, e, i, v);
      Comparable(c, v, y, i);
      assert StateOk(c, i);
      if Under(c, y, i) && IsCompound(c, i) {
        if y in e.states {
          BusyAddsNothing(c, cfg, hist, exits, e, i, y);
        } else {
          BusyAddsNothing(c, cfg, hist, exits, e, i, Parent(c, y));
        }
      } else if Under(c, y, i) {
        NotBetween(c, v, i, y);
      }
    }
  }

  /** Resolving `y` itself hands over to a state it completes to. */
  lemma ComingNext(c: Chart, cfg: set<nat>, hist: set<nat>, z: set<nat>, e: Entry, y: nat, i: nat) returns (w: nat)
    requires StatesOk(c) && ZoneOk(c, cfg, z) && y < Size(c) && y in e.states && Coming(c, z, e.states, y, y)
    requires i in Defaults(c, y) && i != y
    ensures Coming(c, z, Resolve(c, cfg, hist, cfg * z, e, y).states, y + 1, w) && i in Defaults(c, w)
  {
    w :| w in c.states[y].completion && y < w < Size(c) && i in Defaults(c, w);
    CompletionBelow(c, y, w);
    assert StateOk(c, y);
    UnderInZone(c, cfg, z, w, y);
    var e' := Resolve(c, cfg, hist, cfg * z, e, y).states;
    if IsCompound(c, y) {
      ZoneCompletes(c, cfg, z, e.states, y);
      var x := CompletionListed(c, y);
    }
    LowestNext(c, e.states, e', y, w);
  }

  /** A gaping compound state among the defaults of what is coming is completed. */
  lemma {:induction false} GapArrives(c: Chart, cfg: set<nat>, hist: set<nat>, z: set<nat>, e0: set<nat>, e: Entry, k: nat, y: nat, i: nat)
    requires Setting(c, cfg, hist, z) && Plainly(c, cfg, z, e0, e.states, k) && k <= Size(c)
    requires Coming(c, z, e.states, k, y) && i in Defaults(c, y) && Gaping(c, i)
    ensures OpensGap(c, cfg, hist, cfg * z, e, k)
    decreases Size(c) - k
  {
    hide Setting, Plainly, Resolve, Gaping, Coming;
    ComingLater(c, z, e.states, k, y);
    if OpensGapAt(c, cfg, hist, cfg * z, e, k) {
    } else if k !in e.states {
      PlainSkips(c, cfg, hist, z, e0, e.states, k);
      assert Coming(c, z, e.states, k + 1, y) by { ComingSkips(c, z, e.states, k, y); }
      GapArrives(c, cfg, hist, z, e0, e, k + 1, y, i);
    } else {
      PlainStep(c, cfg, hist, z, e0, e, k);
      SettingParts(c, cfg, hist, z);
      var e' := Resolve(c, cfg, hist, cfg * z, e, k);
      if k != y {
        PlainProper(c, cfg, z, e0, e.states, k, k);
        ComingStays(c, cfg, hist, cfg * z, z, e, k, y);
        GapArrives(c, cfg, hist, z, e0, e', k + 1, y, i);
      } else {
        if i == y { GapHere(c, cfg, hist, z, e, y); }
        var w := ComingNext(c, cfg, hist, z, e, y, i);
        GapArrives(c, cfg, hist, z, e0, e', k + 1, w, i);
      }
    }
  }

  lemma SettingParts(c: Chart, cfg: set<nat>, hist: set<nat>, z: set<nat>)
    requires Setting(c, cfg, hist, z)
    ensures StatesOk(c) && ZoneOk(c, cfg, z)
  {
  }

  lemma PlainProper(c: Chart, cfg: set<nat>, z: set<nat>, e0: set<nat>, e: set<nat>, i: nat, v: nat)
    requires StatesOk(c) && Plainly(c, cfg, z, e0, e, i) && v in e
    ensures Proper(c, v)
  {
    AccountedProper(c, z, e0, v);
  }

  lemma PlainSkips(c: Chart, cfg: set<nat>, hist: set<nat>, z: set<nat>, e0: set<nat>, e: set<nat>, i: nat)
    requires Setting(c, cfg, hist, z) && Plainly(c, cfg, z, e0, e, i) && i < Size(c) && i !in e
    ensures Plainly(c, cfg, z, e0, e, i + 1)
  {
    hide GapInv, Setting;
    GapSkips(c, cfg, hist, z, e, i);
  }

  lemma ComingLater(c: Chart, z: set<nat>, e: set<nat>, i: nat, y: nat)
    requires Coming(c, z, e, i, y)
    ensures i < Size(c)
  {
  }

  lemma ComingSkips(c: Chart, z: set<nat>, e: set<nat>, i: nat, y: nat)
    requires Coming(c, z, e, i, y) && i !in e
    ensures Coming(c, z, e, i + 1, y)
  {
  }

  lemma GapHere(c: Chart, cfg: set<nat>, hist: set<nat>, z: set<nat>, e: Entry, y: nat)
    requires StatesOk(c) && ZoneOk(c, cfg, z) && y in e.states && Coming(c, z, e.states, y, y) && Gaping(c, y)
    ensures OpensGapAt(c, cfg, hist, cfg * z, e, y)
  {
    ZoneCompletes(c, cfg, z, e.states, y);
  }

  /** A gap only opens at a state entered by default. */
  lemma {:induction false} GapIsDefault(c: Chart, cfg: set<nat>, hist: set<nat>, z: set<nat>, e0: set<nat>, e: Entry, i: nat)
    requires Setting(c, cfg, hist, z) && Plainly(c, cfg, z, e0, e.states, i) && i <= Size(c)
    requires OpensGap(c, cfg, hist, cfg * z, e, i)
    ensures exists k: nat, v: nat :: Open(c, z, e0, k) && v in Defaults(c, k) && Gaping(c, v)
    decreases Size(c) - i
  {
    hide Plainly, Setting, Resolve, Gaping, Open;
    if OpensGapAt(c, cfg, hist, cfg * z, e, i) {
      SettingParts(c, cfg, hist, z);
      PlainProper(c, cfg, z, e0, e.states, i, i);
      var k := CompletesOpen(c, cfg, z, e0, e.states, i);
    } else if i in e.states {
      PlainStep(c, cfg, hist, z, e0, e, i);
      GapIsDefault(c, cfg, hist, z, e0, Resolve(c, cfg, hist, cfg * z, e, i), i + 1);
    } else {
      PlainSkips(c, cfg, hist, z, e0, e.states, i);
      GapIsDefault(c, cfg, hist, z, e0, e, i + 1);
    }
  }

  /** Where the targets leave only proper states to default entry, a gap opens exactly
      if one of these names an initial state that is no child. */
  lemma GapDecided(c: Chart, cfg: set<nat>, hist: set<nat>, z: set<nat>, e: Entry)
    requires Setting(c, cfg, hist, z) && PassInv(c, cfg, z, e.states, 0) && PlainEntry(c, z, e.states)
    requires forall v | v in e.states :: c.states[v].kind != Initial
    ensures OpensGap(c, cfg, hist, cfg * z, e, 0) <==> DeepDefault(c, z, e.states)
  {
    hide Setting, Gaping, Open, OpensGap, PlainEntry, DeepCompletion;
    SettingParts(c, cfg, hist, z);
    InvBounds(c, cfg, z, e.states, 0);
    ClosedGap(c, cfg, z, e.states);
    assert Plainly(c, cfg, z, e.states, e.states, 0);
    if OpensGap(c, cfg, hist, cfg * z, e, 0) {
      GapIsDefault(c, cfg, hist, z, e.states, e, 0);
      var k: nat, i: nat :| Open(c, z, e.states, k) && i in Defaults(c, k) && Gaping(c, i);
      PlainNotRepairs(c, z, e.states, k);
      GapingCompound(c, i);
      DeepIsGaping(c, k, i);
    }
    if k: nat, i: nat :| Open(c, z, e.states, k) && i in Defaults(c, k) && DeepCompletion(c, i) {
      PlainNotRepairs(c, z, e.states, k);
      DeepCompound(c, i);
      DeepIsGaping(c, k, i);
      OpenIsComing(c, z, e.states, k);
      GapArrives(c, cfg, hist, z, e.states, e, 0, k, i);
    }
  }

  lemma PlainNotRepairs(c: Chart, z: set<nat>, e: set<nat>, k: nat)
    requires PlainEntry(c, z, e) && Open(c, z, e, k)
    ensures !Repairs(c, k)
  {
  }

  lemma GapingCompound(c: Chart, i: nat)
    requires Gaping(c, i)
    ensures IsCompound(c, i)
  {
  }

  lemma DeepCompound(c: Chart, i: nat)
    requires DeepCompletion(c, i)
    ensures IsCompound(c, i)
  {
  }

  lemma OpenIsComing(c: Chart, z: set<nat>, e: set<nat>, k: nat)
    requires Open(c, z, e, k)
    ensures Coming(c, z, e, 0, k)
  {
  }

  // ---- Steps ----

  /** A microstep that meets no pseudo-state stays legal exactly if no compound state
      it enters by default names an initial state that is no child. */
  lemma PlainSelectionExact(c: Chart, st: Stepper, m: Stimulus)
    requires WellFormed(c) && Legal(c, st.configuration) && HistoryLegal(c, st.configuration, st.history)
    requires
      var sel := Select(c, st.configuration, m);
      PlainEntry(c, Zone(c, sel.trans), WithAncestors(c, sel.targets))
    ensures
      var sel := Select(c, st.configuration, m);
      Legal(c, SelectAndStep(c, st, m).stepper.configuration)
      <==> !DeepDefault(c, Zone(c, sel.trans), WithAncestors(c, sel.targets))
  {
    hide PassInv, Select, Legal, HistoryLegal, Setting, Remember, OpensGap, NextConfiguration, Usable, Stranded, PlainEntry, Zone,
      Consistent, WithAncestors, DeepDefault, GapInv, SelectAndStep, EntrySet, HistoryMask;
    var cfg := st.configuration;
    var sel := Select(c, cfg, m);
    var z := Zone(c, sel.trans);
    var e0 := WithAncestors(c, sel.targets);
    var hist := Remember(c, cfg, cfg * z, st.history, 0);
    SelectionSetting(c, st, m);
    PlainSeeds(c, cfg, sel.trans, sel.targets);
    if sel.trans != {} {
      SelectedConfiguration(c, st, m);
      GapDecided(c, cfg, hist, z, Entry(e0, sel.trans));
      ClosedGap(c, cfg, z, e0);
      PlainUsable(c, z, e0, hist);
      PassExact(c, cfg, hist, z, Entry(e0, sel.trans), 0);
      EntrySetIs(c, cfg, hist, cfg * z, sel.targets, sel.trans);
    } else {
      NothingSelected(c, st, m);
    }
  }

  lemma EntrySetIs(c: Chart, cfg: set<nat>, hist: set<nat>, exits: set<nat>, targets: set<nat>, trans: set<nat>)
    ensures EntrySet(c, cfg, hist, exits, targets, trans) == Descend(c, cfg, hist, exits, Entry(WithAncestors(c, targets), trans), 0)
  {
  }

  lemma PlainSeeds(c: Chart, cfg: set<nat>, s: set<nat>, t: set<nat>)
    requires WellFormed(c) && Legal(c, cfg) && Consistent(c, cfg, s)
    requires t == set k, x | k in s && x in c.transitions[k].target :: x
    ensures forall v | v in WithAncestors(c, t) :: v < Size(c) && c.states[v].kind != Initial
  {
    SeedsFromTargets(c, cfg, s, t);
    forall v | v in WithAncestors(c, t) ensures v < Size(c) && c.states[v].kind != Initial {
      var j, y :| OnTheWay(c, s, v, j, y);
      assert TransitionTableAt(c, j);
      if v != y { UnderBounds(c, y, v); }
    }
  }

  lemma PlainUsable(c: Chart, z: set<nat>, e: set<nat>, hist: set<nat>)
    requires PlainEntry(c, z, e)
    ensures Usable(c, hist, z, e) && !Stranded(c, hist, z, e, 0)
  {
  }

  lemma NothingSelected(c: Chart, st: Stepper, m: Stimulus)
    requires Select(c, st.configuration, m).trans == {} && Legal(c, st.configuration)
    requires Select(c, st.configuration, m).targets == {}
    ensures Legal(c, SelectAndStep(c, st, m).stepper.configuration)
    ensures !DeepDefault(c, Zone(c, {}), WithAncestors(c, {}))
  {
    assert WithAncestors(c, {}) == {};
  }

  /** ... and so does the first microstep. */
  lemma PlainStartExact(c: Chart, st: Stepper)
    requires WellFormed(c) && st.configuration == {} && st.history == {}
    requires PlainEntry(c, AllStates(c), WithAncestors(c, c.states[0].completion))
    ensures Legal(c, MicroStep(c, st, {}, c.states[0].completion, {}).stepper.configuration)
            <==> !DeepDefault(c, AllStates(c), WithAncestors(c, c.states[0].completion))
  {
    hide PassInv, Legal, Setting, OpensGap, WithAncestors, DeepDefault, PlainEntry;
    StartExact(c, st);
    StartSetting(c);
    var e0 := WithAncestors(c, c.states[0].completion);
    InvBounds(c, {}, AllStates(c), e0, 0);
    if v :| v in e0 && c.states[v].kind == Initial {
      InitialNotPlain(c, e0, v);
    }
    assert {} * AllStates(c) == {};
    GapDecided(c, {}, {}, AllStates(c), Entry(e0, {}));
  }

  /** An `<initial>` element in the start set is open. */
  lemma InitialNotPlain(c: Chart, e: set<nat>, v: nat)
    requires StatesOk(c) && v in e && v < Size(c) && c.states[v].kind == Initial
    ensures !PlainEntry(c, AllStates(c), e)
  {
    assert v in Defaults(c, v);
    forall w | w in e ensures !Under(c, w, v) {
      if Under(c, w, v) { UnderBounds(c, w, v); }
    }
    assert Open(c, AllStates(c), e, v);
  }
}
