/** Done events of whole microsteps, over all runs. */
module DoneInSteps {
  import opened Charts
  import opened EntrySets
  import opened Transitions
  import opened MicroSteps
  import opened Stepping
  import opened DoneEvents
  import opened GeneratedCode
  import opened HandlerOrder

  /** Only final states matter for being finished, and more of them only help. */
  lemma {:induction false} InFinalGrows(c: Chart, a: set<nat>, b: set<nat>, s: nat)
    requires s < Size(c) && forall f | f in a && f < Size(c) && c.states[f].kind == Final :: f in b
    ensures InFinal(c, a, s) ==> InFinal(c, b, s)
    decreases Size(c) - s
  {
    if IsParallel(c, s) {
      forall x: nat | ChildOf(c, x, s) && Proper(c, x) && InFinal(c, a, x) ensures InFinal(c, b, x) {
        InFinalGrows(c, a, b, x);
      }
    }
  }

  /** How often the done event of `q` is raised in `log`. */
  function Raised(log: seq<Action>, q: nat): nat {
    multiset(log)[DoneEvent(q)]
  }

  lemma RaisedJoins(a: seq<Action>, b: seq<Action>, q: nat)
    ensures Raised(a + b, q) == Raised(a, q) + Raised(b, q)
  {
  }

  lemma NotRaised(log: seq<Action>, q: nat)
    requires forall a | a in log :: !a.DoneEvent?
    ensures Raised(log, q) == 0
  {
    assert DoneEvent(q) !in log;
    assert DoneEvent(q) !in multiset(log);
  }

  /** The chain of parallel states above `s` raises each event at most once. */
  lemma {:induction false} RaisedAbove(c: Chart, cfg: set<nat>, s: nat, q: nat)
    requires s < Size(c)
    ensures Raised(DoneAbove(c, cfg, s), q) <= 1 && (DoneEvent(q) in DoneAbove(c, cfg, s) ==> q < s)
    decreases s
  {
    if s != 0 && IsParallel(c, Parent(c, s)) {
      var p := Parent(c, s);
      var first := if RemainFrom(c, cfg, p, c.states[p].children, 0) == {} then [DoneEvent(p)] else [];
      RaisedAbove(c, cfg, p, q);
      RaisedJoins(first, DoneAbove(c, cfg, p), q);
    }
  }

  lemma RaisedOnce(c: Chart, cfg: set<nat>, i: nat, q: nat)
    requires FinalsOk(c) && i < Size(c) && IsParallel(c, q)
    ensures Raised(DoneActions(c, cfg, i), q) == if DoneEvent(q) in DoneActions(c, cfg, i) then 1 else 0
  {
    if c.states[i].kind == Final && i != 0 && !TopLevelFinal(c, i) {
      var p := Parent(c, i);
      assert ChildOf(c, i, p);
      RaisedAbove(c, cfg, p, q);
      RaisedJoins([DoneEvent(p)], DoneAbove(c, cfg, p), q);
    }
  }

  /** `q` becomes finished between `before` and `after`, and can be detected. */
  ghost predicate BecomesDone(c: Chart, before: set<nat>, after: set<nat>, q: nat)
    requires q < Size(c)
  {
    InFinal(c, after, q) && !InFinal(c, before, q) && Plain(c, q)
  }

  /** The entering loop from `i` on raises the event once if the parallel state was not
      finished before and is at the end, and never otherwise. */
  lemma {:induction false} DoneWhileEntering(c: Chart, e: Entry, s: Entering, kept: set<nat>, i: nat, q: nat)
    requires TablesOk(c) && FinalsOk(c) && IsParallel(c, q) && i <= Size(c)
    requires s.configuration == Before(c, kept, e.states, i)
    requires forall k: nat | k <= Size(c) :: Growing(c, Before(c, kept, e.states, k))
    ensures Raised(EnterFrom(c, e, s, i).actions, q)
            == Raised(s.actions, q) + if BecomesDone(c, s.configuration, Before(c, kept, e.states, Size(c)), q) then 1 else 0
    decreases Size(c) - i
  {
    hide Growing, Before, DoneActions, DefaultActions, InFinal, Plain, FinalsOk, TablesOk;
    var end := Before(c, kept, e.states, Size(c));
    if i < Size(c) {
      NextBefore(c, kept, e.states, i);
      if i in e.states && i !in s.configuration && Proper(c, i) {
        var t := EnterOne(c, e.trans, s, i);
        var j := i + 1;
        assert Growing(c, Before(c, kept, e.states, j));
        DoneWhileEntering(c, e, t, kept, i + 1, q);
        DoneOnEntry(c, e.trans, s, i, q);
        BeforeRises(c, kept, e.states, i + 1, Size(c));
        InFinalGrows(c, t.configuration, end, q);
        InFinalGrows(c, s.configuration, t.configuration, q);
      } else {
        DoneWhileEntering(c, e, s, kept, i + 1, q);
      }
    }
  }

  lemma NextBefore(c: Chart, kept: set<nat>, e: set<nat>, i: nat)
    requires i < Size(c)
    ensures Before(c, kept, e, i + 1) == if i in e && Proper(c, i) then Before(c, kept, e, i) + {i} else Before(c, kept, e, i)
  {
  }

  lemma BeforeRises(c: Chart, kept: set<nat>, e: set<nat>, i: nat, j: nat)
    requires i <= j
    ensures Before(c, kept, e, i) <= Before(c, kept, e, j)
  {
  }

  lemma NothingDone(c: Chart, cfg: set<nat>, i: nat)
    requires i < Size(c) && (c.states[i].kind != Final || i == 0)
    ensures DoneActions(c, cfg, i) == []
  {
  }

  /** Entering one state. */
  lemma DoneOnEntry(c: Chart, trans: set<nat>, s: Entering, i: nat, q: nat)
    requires TablesOk(c) && FinalsOk(c) && IsParallel(c, q)
    requires i < Size(c) && i !in s.configuration && Growing(c, s.configuration + {i})
    ensures Raised(EnterOne(c, trans, s, i).actions, q)
            == Raised(s.actions, q) + if BecomesDone(c, s.configuration, s.configuration + {i}, q) then 1 else 0
  {
    hide DefaultActions, DoneActions, InFinal, Plain, FinalsOk, TablesOk, Growing;
    DefaultsShown(c, trans, i, 0);
    EntryRaises(c, trans, s, i, q);
    RaisedOnce(c, s.configuration + {i}, i, q);
    if c.states[i].kind == Final && i > 0 {
      DoneEventsExact(c, s.configuration, i, q);
    } else {
      InFinalGrows(c, s.configuration + {i}, s.configuration, q);
      assert c.states[0].kind == Compound;
      NothingDone(c, s.configuration + {i}, i);
    }
  }

  lemma EntryRaises(c: Chart, trans: set<nat>, s: Entering, i: nat, q: nat)
    requires i < Size(c)
    ensures Raised(EnterOne(c, trans, s, i).actions, q)
            == Raised(s.actions, q) + Raised(DoneActions(c, s.configuration + {i}, i), q)
  {
    hide DefaultActions, DoneActions;
    var data := if i in s.initializedData then [] else [InitData(i)];
    var own := data + [OnEntry(i)] + DefaultActions(c, trans, i, 0);
    var done := DoneActions(c, s.configuration + {i}, i);
    DefaultsShown(c, trans, i, 0);
    NotRaised(own, q);
    RaisedJoins(s.actions, own, q);
    RaisedJoins(s.actions + own, done, q);
    assert EnterOne(c, trans, s, i).actions == s.actions + own + done;
  }

  /** A microstep of any run raises the done event of a parallel state once if it is
      not finished among the states that stay and finished in the configuration
      reached, and no parallel state down to its regions has a history child or none;
      otherwise it does not raise it. */
  lemma DoneInMicroStep(c: Chart, st: Stepper, m: Stimulus, q: nat)
    requires ChartOk(c) && FinalsOk(c) && Legal(c, st.configuration) && HistoryLegal(c, st.configuration, st.history)
    requires IsParallel(c, q)
    ensures
      var sel := Select(c, st.configuration, m);
      var o := SelectAndStep(c, st, m);
      Raised(o.actions, q)
      == if sel.trans != {} && BecomesDone(c, st.configuration - sel.exits * st.configuration, o.stepper.configuration, q)
         then 1 else 0
  {
    var cfg := st.configuration;
    var sel := Select(c, cfg, m);
    if sel.trans != {} {
      hide Consistent, PassInv, Select, Plain, InFinal, Legal, HistoryLegal, Setting, Remember, FinalsOk, Recorded;
      ChartSetting(c, st, m);
      var z := Zone(c, sel.trans);
      var hist := Remember(c, cfg, cfg * z, st.history, 0);
      DoneInPass(c, st.(flags := st.flags.(stable := false, spontaneous := true), history := hist), z, sel.targets, sel.trans, q);
      SelectedConfiguration(c, st, m);
    }
  }

  /** The first microstep does so as well. */
  lemma DoneInFirst(c: Chart, st: Stepper, q: nat)
    requires ChartOk(c) && FinalsOk(c) && st.configuration == {} && st.history == {} && IsParallel(c, q)
    ensures
      var o := MicroStep(c, st, {}, c.states[0].completion, {});
      Raised(o.actions, q) == if BecomesDone(c, {}, o.stepper.configuration, q) then 1 else 0
  {
    hide PassInv, Plain, InFinal, Setting, FinalsOk, Recorded;
    StartSetting(c);
    assert {} * AllStates(c) == {} && st.configuration - {} == {};
    DoneInPass(c, st, AllStates(c), c.states[0].completion, {}, q);
  }

  lemma DoneInPass(c: Chart, st: Stepper, z: set<nat>, targets: set<nat>, trans: set<nat>, q: nat)
    requires ChartOk(c) && FinalsOk(c) && IsParallel(c, q)
    requires Setting(c, st.configuration, st.history, z) && PassInv(c, st.configuration, z, WithAncestors(c, targets), 0)
    requires Recorded(c, st.history, z, WithAncestors(c, targets))
    ensures
      var cfg, exits := st.configuration, st.configuration * z;
      var o := MicroStep(c, st, exits, targets, trans);
      && Raised(o.actions, q) == (if BecomesDone(c, cfg - exits, o.stepper.configuration, q) then 1 else 0)
      && o.stepper.configuration == NextConfiguration(c, cfg, exits, EntrySet(c, cfg, st.history, exits, targets, trans).states)
  {
    hide PassInv, Plain, InFinal, FinalsOk, EnterFrom, ExitActions, TakeActions, Growing, Recorded, WellFormed,
      ChildCompletions, DefaultsClosed, HistoriesFromOutside, Raised;
    var cfg, exits := st.configuration, st.configuration * z;
    var e := EntrySet(c, cfg, st.history, exits, targets, trans);
    PassAll(c, cfg, st.history, z, Entry(WithAncestors(c, targets), trans), 0);
    forall k: nat | k <= Size(c) ensures Growing(c, Before(c, cfg - exits, e.states, k)) {
      BeforeGrows(c, cfg, z, e.states, k);
    }
    var acts := ExitActions(exits * cfg, Size(c)) + TakeActions(c, e.trans, 0);
    ExitsNotDone(exits * cfg, Size(c));
    TakesShown(c, e.trans, 0);
    NotRaised(acts, q);
    var s := Entering(cfg - exits, st.initializedData, st.flags.topLevelFinal, acts);
    assert Before(c, cfg - exits, e.states, 0) == cfg - exits;
    DoneWhileEntering(c, e, s, cfg - exits, 0, q);
    EnteredConfiguration(c, e, s, 0);
    assert Before(c, cfg - exits, e.states, Size(c)) == EnterFrom(c, e, s, 0).configuration;
  }

  lemma {:induction false} ExitsNotDone(s: set<nat>, i: nat)
    ensures forall a | a in ExitActions(s, i) :: a.OnExit?
    decreases i
  {
    if i > 0 { ExitsNotDone(s, i - 1); }
  }

  // ---- Compound states ----

  function FinalsBelow(c: Chart, s: set<nat>, q: nat): set<nat> {
    set k | k in s && ChildOf(c, k, q) && c.states[k].kind == Final
  }

  function AtLeast(s: set<nat>, i: nat): set<nat> {
    set k | k in s && i <= k
  }

  lemma {:induction false} NotRaisedAbove(c: Chart, cfg: set<nat>, s: nat, q: nat)
    requires s < Size(c) && !IsParallel(c, q)
    ensures Raised(DoneAbove(c, cfg, s), q) == 0
    decreases s
  {
    if s != 0 && IsParallel(c, Parent(c, s)) {
      var p := Parent(c, s);
      var first := if RemainFrom(c, cfg, p, c.states[p].children, 0) == {} then [DoneEvent(p)] else [];
      NotRaisedAbove(c, cfg, p, q);
      RaisedJoins(first, DoneAbove(c, cfg, p), q);
    }
  }

  lemma TopLevelMeans(c: Chart, i: nat)
    requires TablesOk(c) && 0 < i < Size(c) && c.states[i].kind == Final
    ensures TopLevelFinal(c, i) <==> Parent(c, i) == 0
  {
    assert TableAt(c, i);
    var p := Parent(c, i);
    assert p in AncestorsOf(c, i);
    if p == 0 {
      forall a | a in AncestorsOf(c, i) ensures a == 0 {
        assert !Under(c, 0, a);
      }
    }
  }

  /** A final state raises the done event of its parent, unless that is the root. */
  lemma FinalRaises(c: Chart, cfg: set<nat>, i: nat, q: nat)
    requires TablesOk(c) && i < Size(c) && !IsParallel(c, q)
    ensures Raised(DoneActions(c, cfg, i), q) == if q != 0 && ChildOf(c, i, q) && c.states[i].kind == Final then 1 else 0
  {
    if c.states[i].kind == Final && i != 0 {
      TopLevelMeans(c, i);
      var p := Parent(c, i);
      if p != 0 {
        NotRaisedAbove(c, cfg, p, q);
        RaisedJoins([DoneEvent(p)], DoneAbove(c, cfg, p), q);
      }
    }
  }

  /** One state more, or not, from `i` on. */
  lemma LaterEntries(c: Chart, e: set<nat>, cfg: set<nat>, i: nat)
    ensures
      var now := AtLeast(Newly(c, e, cfg), i);
      if i in e && i !in cfg && Proper(c, i) then
        var later := AtLeast(Newly(c, e, cfg + {i}), i + 1);
        i !in later && now == later + {i}
      else now == AtLeast(Newly(c, e, cfg), i + 1)
  {
  }

  lemma OneFinalMore(c: Chart, s: set<nat>, i: nat, q: nat)
    requires i !in s
    ensures |FinalsBelow(c, s + {i}, q)|
            == |FinalsBelow(c, s, q)| + if ChildOf(c, i, q) && c.states[i].kind == Final then 1 else 0
  {
    if ChildOf(c, i, q) && c.states[i].kind == Final {
      assert FinalsBelow(c, s + {i}, q) == FinalsBelow(c, s, q) + {i};
    } else {
      assert FinalsBelow(c, s + {i}, q) == FinalsBelow(c, s, q);
    }
  }

  lemma NoFinals(c: Chart, e: set<nat>, cfg: set<nat>, i: nat, q: nat)
    requires i >= Size(c)
    ensures FinalsBelow(c, AtLeast(Newly(c, e, cfg), i), q) == {}
  {
  }

  lemma {:induction false} FinalsRaise(c: Chart, e: Entry, s: Entering, i: nat, q: nat)
    requires TablesOk(c) && !IsParallel(c, q)
    ensures Raised(EnterFrom(c, e, s, i).actions, q)
            == Raised(s.actions, q)
               + if q == 0 then 0 else |FinalsBelow(c, AtLeast(Newly(c, e.states, s.configuration), i), q)|
    decreases Size(c) - i
  {
    hide Raised, DoneActions, DefaultActions, FinalsBelow, AtLeast, Newly, TablesOk, EnterOne;
    if i < Size(c) {
      LaterEntries(c, e.states, s.configuration, i);
      if i in e.states && i !in s.configuration && Proper(c, i) {
        var t := EnterOne(c, e.trans, s, i);
        EnterOneConfiguration(c, e.trans, s, i);
        FinalsRaise(c, e, t, i + 1, q);
        EntryRaises(c, e.trans, s, i, q);
        FinalRaises(c, s.configuration + {i}, i, q);
        OneFinalMore(c, AtLeast(Newly(c, e.states, t.configuration), i + 1), i, q);
      } else {
        FinalsRaise(c, e, s, i + 1, q);
      }
    } else {
      NoFinals(c, e.states, s.configuration, i, q);
    }
  }

  /** A microstep raises the done event of a state that is not parallel as often as it
      enters final children of that state, and never that of the root. */
  lemma CompoundDone(c: Chart, st: Stepper, exits: set<nat>, targets: set<nat>, trans: set<nat>, q: nat)
    requires TablesOk(c) && !IsParallel(c, q)
    ensures
      var o := MicroStep(c, st, exits, targets, trans);
      Raised(o.actions, q) == if q == 0 then 0 else |FinalsBelow(c, o.stepper.configuration - (st.configuration - exits), q)|
  {
    hide EnterFrom, ExitActions, TakeActions, Raised;
    var kept := st.configuration - exits;
    var e := EntrySet(c, st.configuration, st.history, exits, targets, trans);
    var acts := ExitActions(exits * st.configuration, Size(c)) + TakeActions(c, e.trans, 0);
    ExitsNotDone(exits * st.configuration, Size(c));
    TakesShown(c, e.trans, 0);
    NotRaised(acts, q);
    var s := Entering(kept, st.initializedData, st.flags.topLevelFinal, acts);
    FinalsRaise(c, e, s, 0, q);
    EnteredConfiguration(c, e, s, 0);
    assert FinalsBelow(c, AtLeast(Newly(c, e.states, kept), 0), q)
        == FinalsBelow(c, EnterFrom(c, e, s, 0).configuration - kept, q);
  }

  lemma AtMostOneFinal(c: Chart, n: set<nat>, s: set<nat>, q: nat)
    requires Legal(c, n) && s <= n && !IsParallel(c, q)
    ensures |FinalsBelow(c, s, q)| == if exists k: nat :: k in s && ChildOf(c, k, q) && c.states[k].kind == Final then 1 else 0
  {
    var f := FinalsBelow(c, s, q);
    if k: nat :| k in s && ChildOf(c, k, q) && c.states[k].kind == Final {
      assert f == {k};
    } else {
      assert f == {};
    }
  }

  /** `q` is a compound state other than the root with a final child in `s`. */
  ghost predicate FinalChildIn(c: Chart, s: set<nat>, q: nat) {
    IsCompound(c, q) && q != 0 && exists k: nat :: k in s && ChildOf(c, k, q) && c.states[k].kind == Final
  }

  /** A microstep of any run raises the done event of a compound state once if it
      enters a final child of it and the state is not the root; it raises none for
      the root nor for anything that is neither compound nor parallel. */
  lemma CompoundDoneInMicroStep(c: Chart, st: Stepper, m: Stimulus, q: nat)
    requires ChartOk(c) && Legal(c, st.configuration) && HistoryLegal(c, st.configuration, st.history) && !IsParallel(c, q)
    ensures
      var sel := Select(c, st.configuration, m);
      var o := SelectAndStep(c, st, m);
      var entered := o.stepper.configuration - (st.configuration - sel.exits * st.configuration);
      Raised(o.actions, q) == if sel.trans != {} && FinalChildIn(c, entered, q) then 1 else 0
  {
    hide Legal, HistoryLegal, MicroStep, Select, FinalsBelow, Raised;
    var sel := Select(c, st.configuration, m);
    var exits := sel.exits * st.configuration;
    if sel.trans != {} {
      var woken := st.(flags := st.flags.(stable := false, spontaneous := true),
                       history := Remember(c, st.configuration, exits, st.history, 0));
      CompoundDone(c, woken, exits, sel.targets, sel.trans, q);
      SelectionLegal(c, st, m);
      var n := SelectAndStep(c, st, m).stepper.configuration;
      AtMostOneFinal(c, n, n - (st.configuration - exits), q);
    } else {
      NotRaised([], q);
    }
  }

  /** ... and so does the first microstep. */
  lemma CompoundDoneInFirst(c: Chart, st: Stepper, q: nat)
    requires ChartOk(c) && st.configuration == {} && st.history == {} && !IsParallel(c, q)
    ensures
      var o := MicroStep(c, st, {}, c.states[0].completion, {});
      Raised(o.actions, q) == if FinalChildIn(c, o.stepper.configuration, q) then 1 else 0
  {
    hide Legal, MicroStep, FinalsBelow, Raised;
    CompoundDone(c, st, {}, c.states[0].completion, {}, q);
    StartLegal(c, st);
    var n := MicroStep(c, st, {}, c.states[0].completion, {}).stepper.configuration;
    assert n - (st.configuration - {}) == n;
    AtMostOneFinal(c, n, n, q);
  }
}
