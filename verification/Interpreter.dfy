/** The interpreter object: bit sets updated in place by one step function, whose
    loops are proved against the step on values. */
module Interpreter {
  import opened Charts
  import opened EntrySets
  import opened Transitions
  import opened MicroSteps
  import opened Stepping

  /** The first member of `s` at or after `i`, or the size when there is none. */
  function FindFrom(s: set<nat>, n: nat, i: nat): (r: nat)
    requires i <= n
    ensures i <= r <= n
    ensures r < n ==> r in s
    ensures forall k | i <= k < r :: k !in s
    decreases n - i
  {
    if i == n || i in s then i else FindFrom(s, n, i + 1)
  }

  // ---- How skipping over absent members relates to visiting every index ----

  lemma {:induction false} DescendSkips(c: Chart, cfg: set<nat>, hist: set<nat>, exits: set<nat>, e: Entry, i: nat, r: nat)
    requires i <= r <= Size(c) && forall k | i <= k < r :: k !in e.states
    ensures Descend(c, cfg, hist, exits, e, i) == Descend(c, cfg, hist, exits, e, r)
    decreases r - i
  {
    if i < r { DescendSkips(c, cfg, hist, exits, e, i + 1, r); }
  }

  lemma {:induction false} TakeSkips(c: Chart, trans: set<nat>, j: nat, r: nat)
    requires j <= r <= |c.transitions| && forall k | j <= k < r :: k !in trans
    ensures TakeActions(c, trans, j) == TakeActions(c, trans, r)
    decreases r - j
  {
    if j < r { TakeSkips(c, trans, j + 1, r); }
  }

  lemma {:induction false} EnterSkips(c: Chart, e: Entry, s: Entering, i: nat, r: nat)
    requires i <= r <= Size(c) && forall k | i <= k < r :: k !in e.states
    ensures EnterFrom(c, e, s, i) == EnterFrom(c, e, s, r)
    decreases r - i
  {
    if i < r { EnterSkips(c, e, s, i + 1, r); }
  }

  lemma {:induction false} RemainSkips(c: Chart, cfg: set<nat>, q: nat, tmp: set<nat>, k: nat, r: nat)
    requires k <= r <= Size(c) && forall x | k <= x < r :: x !in cfg
    ensures RemainFrom(c, cfg, q, tmp, k) == RemainFrom(c, cfg, q, tmp, r)
    decreases r - k
  {
    if k < r { RemainSkips(c, cfg, q, tmp, k + 1, r); }
  }

  /** The targets with the ancestors of those below `i`. */
  ghost function Reached(c: Chart, t: set<nat>, i: nat): set<nat> {
    t + set x, a | x in t && x < i && x < Size(c) && a in c.states[x].ancestors :: a
  }

  lemma ReachedStep(c: Chart, t: set<nat>, i: nat)
    requires TablesOk(c) && i < Size(c) && i in Reached(c, t, i)
    ensures Reached(c, t, i + 1) == Reached(c, t, i) + c.states[i].ancestors
  {
    if i !in t {
      var x :| x in t && x < i && x < Size(c) && i in c.states[x].ancestors;
      assert TableAt(c, x);
      UnderBounds(c, x, i);
    }
  }

  lemma ReachedSkips(c: Chart, t: set<nat>, i: nat, r: nat)
    requires i <= r && forall k | i <= k < r :: k !in t
    ensures Reached(c, t, i) == Reached(c, t, r)
  {
    assert forall x | x in t && x < r :: x < i;
  }

  lemma EnterOneAppends(c: Chart, trans: set<nat>, s: Entering, i: nat)
    requires i < Size(c)
    ensures
      var t := EnterOne(c, trans, s.(actions := []), i);
      EnterOne(c, trans, s, i) == t.(actions := s.actions + t.actions)
  {
  }

  lemma {:induction false} EnterFromAppends(c: Chart, e: Entry, s: Entering, i: nat)
    ensures
      var t := EnterFrom(c, e, s.(actions := []), i);
      EnterFrom(c, e, s, i) == t.(actions := s.actions + t.actions)
    decreases Size(c) - i
  {
    if i < Size(c) {
      if i in e.states && i !in s.configuration && Proper(c, i) {
        hide EnterOne;
        var u := EnterOne(c, e.trans, s.(actions := []), i);
        EnterOneAppends(c, e.trans, s, i);
        EnterFromAppends(c, e, EnterOne(c, e.trans, s, i), i + 1);
        EnterFromAppends(c, e, u, i + 1);
      } else {
        EnterFromAppends(c, e, s, i + 1);
      }
    }
  }

  class FastMicroStep {
    const chart: Chart
    var configuration: set<nat>
    var history: set<nat>
    var invocations: set<nat>
    var initializedData: set<nat>
    var flags: Flags
    var isCancelled: bool
    /** The callbacks made so far, in order. */
    var callbacks: seq<Action>

    /** The chart is in order and the object is in a state some run can reach:
        once started, its configuration is legal. */
    ghost predicate Valid()
      reads this
    {
      ChartOk(chart) && Sound(chart, Value())
    }

    constructor (c: Chart)
      requires ChartOk(c)
      ensures chart == c && Value() == FRESH && callbacks == [] && Valid()
    {
      chart := c;
      configuration, history, invocations, initializedData := {}, {}, {}, {};
      flags, isCancelled := PRISTINE, false;
      callbacks := [];
    }

    function Value(): Stepper
      reads this
    {
      Stepper(configuration, history, invocations, initializedData, flags, isCancelled)
    }

    method MarkAsCancelled()
      requires Valid()
      modifies this`isCancelled
      ensures Valid() && Value() == Next(chart, old(Value()), Cancel)
    {
      isCancelled := true;
    }

    // ---- Selecting transitions ----

    method SelectTransitions(m: Stimulus) returns (s: Selection)
      ensures s == Select(chart, configuration, m)
    {
      s := NOTHING;
      var i := 0;
      while i < |chart.transitions|
        invariant i <= |chart.transitions|
        invariant SelectFrom(chart, configuration, m, s, i) == Select(chart, configuration, m)
      {
        var t := chart.transitions[i];
        if t.kind == Normal {
          if t.source in configuration {
            if i !in s.conflicts {
              if t.hasEvent == m.event {
                if (!m.event || i in m.matched) && (!t.hasCond || i in m.holds) {
                  s := Selection(s.trans + {i}, s.conflicts + t.conflicts, s.targets + t.target, s.exits + t.exitSet);
                }
              }
            }
          }
        }
        i := i + 1;
      }
    }

    // ---- Remembering history ----

    method RememberHistory(exitSet: set<nat>)
      modifies this`history
      ensures history == Remember(chart, configuration, exitSet, old(history), 0)
    {
      var i := 0;
      while i < Size(chart)
        invariant i <= Size(chart)
        invariant Remember(chart, configuration, exitSet, history, i)
                  == Remember(chart, configuration, exitSet, old(history), 0)
      {
        var s := chart.states[i];
        if IsHistoryKind(s.kind) && s.parent in exitSet {
          var tmpStates := s.completion * configuration;
          history := history - s.completion;
          history := history + tmpStates;
        }
        i := i + 1;
      }
    }

    // ---- The entry set ----

    method AddAncestors(targetSet: set<nat>) returns (entrySet: set<nat>)
      requires TablesOk(chart)
      ensures entrySet == WithAncestors(chart, targetSet)
    {
      var n := Size(chart);
      entrySet := targetSet;
      var i := FindFrom(entrySet, n, 0);
      ReachedSkips(chart, targetSet, 0, i);
      while i < n
        invariant i <= n && (i < n ==> i in entrySet)
        invariant entrySet == Reached(chart, targetSet, i)
      {
        ReachedStep(chart, targetSet, i);
        entrySet := entrySet + chart.states[i].ancestors;
        var next := FindFrom(entrySet, n, i + 1);
        ReachedSkips(chart, targetSet, i + 1, next);
        i := next;
      }
      assert entrySet == WithAncestors(chart, targetSet);
    }

    /** Parallel, history, initial and compound states of the entry set ask for more. */
    method ResolveState(i: nat, exitSet: set<nat>, entries: set<nat>, transitions: set<nat>)
      returns (entrySet: set<nat>, transSet: set<nat>)
      requires i < Size(chart)
      ensures Entry(entrySet, transSet) == Resolve(chart, configuration, history, exitSet, Entry(entries, transitions), i)
    {
      entrySet, transSet := entries, transitions;
      var s := chart.states[i];
      match s.kind {
        case Atomic =>
        case Final =>
        case Parallel => entrySet := entrySet + s.completion;
        case HistoryDeep => entrySet, transSet := ResolveHistoryState(i, entrySet, transSet);
        case HistoryShallow => entrySet, transSet := ResolveHistoryState(i, entrySet, transSet);
        case Initial => entrySet, transSet := ResolveInitialState(i, entrySet, transSet);
        case Compound =>
          if entrySet * s.children == {} && (configuration * s.children == {} || exitSet * s.children != {}) {
            entrySet := entrySet + s.completion;
            if s.completion * s.children == {} {
              var up := AncestorsOfFirst(s.completion, i + 1);
              entrySet := entrySet + up;
            }
          }
      }
    }

    method AncestorsOfFirst(t: set<nat>, from: nat) returns (up: set<nat>)
      ensures up == FirstTargetAncestors(chart, t, from)
    {
      var k := from;
      up := {};
      while k < Size(chart)
        invariant FirstTargetAncestors(chart, t, k) == FirstTargetAncestors(chart, t, from)
        invariant up == {}
        decreases Size(chart) - k
      {
        if k in t {
          up := chart.states[k].ancestors;
          return;
        }
        k := k + 1;
      }
    }

    method ResolveHistoryState(i: nat, entries: set<nat>, transitions: set<nat>)
      returns (entrySet: set<nat>, transSet: set<nat>)
      requires i < Size(chart)
      ensures Entry(entrySet, transSet) == ResolveHistory(chart, configuration, history, Entry(entries, transitions), i)
    {
      entrySet, transSet := entries, transitions;
      var s := chart.states[i];
      if s.completion * history == {} && s.parent !in configuration {
        var j := 0;
        while j < |chart.transitions|
          invariant j <= |chart.transitions| && FirstFrom(chart, i, j) == FirstFrom(chart, i, 0)
          invariant entrySet == entries && transSet == transitions
        {
          var t := chart.transitions[j];
          if t.source == i {
            entrySet := entrySet + t.target;
            if s.kind == HistoryDeep && t.target * s.children == {} {
              var up := AncestorsOfFirst(t.target, i + 1);
              entrySet := entrySet + up;
            }
            transSet := transSet + {j};
            return;
          }
          j := j + 1;
        }
      } else {
        var tmpStates := s.completion * history;
        entrySet := entrySet + tmpStates;
      }
    }

    method ResolveInitialState(i: nat, entries: set<nat>, transitions: set<nat>)
      returns (entrySet: set<nat>, transSet: set<nat>)
      requires i < Size(chart)
      ensures Entry(entrySet, transSet) == ResolveInitial(chart, Entry(entries, transitions), i, 0)
    {
      entrySet, transSet := entries, transitions;
      var j := 0;
      while j < |chart.transitions|
        invariant j <= |chart.transitions|
        invariant ResolveInitial(chart, Entry(entrySet, transSet), i, j)
                  == ResolveInitial(chart, Entry(entries, transitions), i, 0)
      {
        var t := chart.transitions[j];
        if t.source == i {
          transSet := transSet + {j};
          entrySet := entrySet - {i};
          entrySet := entrySet + t.target;
          ghost var base := entrySet;
          var k := i + 1;
          while k < Size(chart)
            invariant i + 1 <= k <= Size(chart)
            invariant entrySet == base + set x, a | x in t.target && i + 1 <= x < k && x < Size(chart) && a in chart.states[x].ancestors :: a
          {
            if k in t.target {
              entrySet := entrySet + chart.states[k].ancestors;
            }
            k := k + 1;
          }
          assert entrySet == base + TargetAncestors(chart, t.target, i + 1);
        }
        j := j + 1;
      }
    }

    method EstablishEntrySet(exitSet: set<nat>, targetSet: set<nat>, transitions: set<nat>)
      returns (entrySet: set<nat>, transSet: set<nat>)
      requires TablesOk(chart)
      ensures Entry(entrySet, transSet) == EntrySet(chart, configuration, history, exitSet, targetSet, transitions)
    {
      var n := Size(chart);
      entrySet := AddAncestors(targetSet);
      transSet := transitions;
      ghost var start := Entry(entrySet, transSet);
      var i := FindFrom(entrySet, n, 0);
      DescendSkips(chart, configuration, history, exitSet, start, 0, i);
      while i < n
        invariant i <= n && (i < n ==> i in entrySet)
        invariant Descend(chart, configuration, history, exitSet, Entry(entrySet, transSet), i)
                  == Descend(chart, configuration, history, exitSet, start, 0)
      {
        entrySet, transSet := ResolveState(i, exitSet, entrySet, transSet);
        var next := FindFrom(entrySet, n, i + 1);
        DescendSkips(chart, configuration, history, exitSet, Entry(entrySet, transSet), i + 1, next);
        i := next;
      }
    }

    // ---- Exiting and taking ----

    method ExitStates(exitSet: set<nat>)
      modifies this`configuration, this`callbacks
      ensures configuration == old(configuration) - (set x | x in exitSet && x < Size(chart))
      ensures callbacks == old(callbacks) + ExitActions(exitSet * old(configuration), Size(chart))
    {
      var i: nat := Size(chart);
      ghost var cfg := configuration;
      while i > 0
        invariant i <= Size(chart)
        invariant configuration == cfg - (set x | x in exitSet && i <= x < Size(chart))
        invariant callbacks + ExitActions(exitSet * cfg, i) == old(callbacks) + ExitActions(exitSet * cfg, Size(chart))
      {
        i := i - 1;
        if i in exitSet && i in configuration {
          callbacks := callbacks + [OnExit(i)];
          configuration := configuration - {i};
        }
      }
    }

    method TakeTransitions(transSet: set<nat>)
      modifies this`callbacks
      ensures callbacks == old(callbacks) + TakeActions(chart, transSet, 0)
    {
      var n := |chart.transitions|;
      var i := FindFrom(transSet, n, 0);
      TakeSkips(chart, transSet, 0, i);
      while i < n
        invariant i <= n && (i < n ==> i in transSet)
        invariant callbacks + TakeActions(chart, transSet, i) == old(callbacks) + TakeActions(chart, transSet, 0)
      {
        if chart.transitions[i].kind == Normal {
          callbacks := callbacks + [Taken(i)];
        }
        var next := FindFrom(transSet, n, i + 1);
        TakeSkips(chart, transSet, i + 1, next);
        i := next;
      }
    }

    // ---- Entering ----

    method TakeDefaults(transSet: set<nat>, i: nat)
      modifies this`callbacks
      ensures callbacks == old(callbacks) + DefaultActions(chart, transSet, i, 0)
    {
      var j := 0;
      while j < |chart.transitions|
        invariant j <= |chart.transitions|
        invariant callbacks + DefaultActions(chart, transSet, i, j) == old(callbacks) + DefaultActions(chart, transSet, i, 0)
      {
        var t := chart.transitions[j];
        if j in transSet && t.kind != Normal && t.source < Size(chart) && chart.states[t.source].parent == i {
          callbacks := callbacks + [Taken(j)];
        }
        j := j + 1;
      }
    }

    /** Takes the parallel states above `s` that have nothing left out of `tmp`. */
    method ClearParallels(q: nat, tmp: set<nat>, s: nat) returns (tmpStates: set<nat>)
      requires s < Size(chart)
      ensures tmpStates == ClearUp(chart, q, tmp, s)
    {
      tmpStates := tmp;
      var p: nat := s;
      while p != 0
        invariant p < Size(chart)
        invariant ClearUp(chart, q, tmpStates, p) == ClearUp(chart, q, tmp, s)
        decreases p
      {
        var n := Parent(chart, p);
        if chart.states[n].kind == Parallel {
          if tmpStates * chart.states[n].children == {} {
            tmpStates := tmpStates - {n};
            if tmpStates == {} {
              return;
            }
          } else {
            return;
          }
          if n == q {
            return;
          }
          p := n;
        } else {
          return;
        }
      }
    }

    /** What is left below the parallel state `q` without its finished regions. */
    method RemainingBelow(q: nat) returns (tmpStates: set<nat>)
      requires q < Size(chart)
      ensures tmpStates == RemainFrom(chart, configuration, q, chart.states[q].children, 0)
    {
      var n := Size(chart);
      tmpStates := chart.states[q].children;
      var k := FindFrom(configuration, n, 0);
      RemainSkips(chart, configuration, q, tmpStates, 0, k);
      while k < n
        invariant k <= n && (k < n ==> k in configuration)
        invariant RemainFrom(chart, configuration, q, tmpStates, k)
                  == RemainFrom(chart, configuration, q, chart.states[q].children, 0)
      {
        ghost var before := tmpStates;
        if q in chart.states[k].ancestors {
          if chart.states[k].kind == Final && 0 < k {
            var p := Parent(chart, k);
            tmpStates := Xor(tmpStates, chart.states[p].children);
            tmpStates := tmpStates - {p};
            tmpStates := ClearParallels(q, tmpStates, p);
          }
        }
        var next := FindFrom(configuration, n, k + 1);
        RemainSkips(chart, configuration, q, tmpStates, k + 1, next);
        k := next;
      }
    }

    method RaiseDone(i: nat)
      requires i < Size(chart)
      modifies this`flags, this`callbacks
      ensures flags == old(flags).(topLevelFinal := old(flags).topLevelFinal || TopLevelFinal(chart, i))
      ensures callbacks == old(callbacks) + DoneActions(chart, configuration, i)
    {
      if chart.states[i].kind == Final {
        if chart.states[i].ancestors == {0} {
          flags := flags.(topLevelFinal := true);
        } else {
          RaiseParentDone(i);
        }
      }
    }

    method RaiseParentDone(i: nat)
      requires 0 < i < Size(chart)
      modifies this`callbacks
      ensures callbacks == old(callbacks) + ([DoneEvent(Parent(chart, i))] + DoneAbove(chart, configuration, Parent(chart, i)))
    {
      var p: nat := Parent(chart, i);
      callbacks := callbacks + [DoneEvent(p)];
      ghost var raised := callbacks;
      while p != 0
        invariant p < Size(chart)
        invariant callbacks + DoneAbove(chart, configuration, p) == raised + DoneAbove(chart, configuration, Parent(chart, i))
        decreases p
      {
        var q := Parent(chart, p);
        if chart.states[q].kind == Parallel {
          var tmpStates := RemainingBelow(q);
          if tmpStates == {} {
            callbacks := callbacks + [DoneEvent(q)];
          }
        } else {
          break;
        }
        p := q;
      }
      assert DoneAbove(chart, configuration, p) == [];
      assert callbacks + [] == callbacks;
    }

    method EnterState(i: nat, transSet: set<nat>)
      requires i < Size(chart) && i !in configuration
      modifies this`configuration, this`initializedData, this`flags, this`callbacks
      ensures
        var s := EnterOne(chart, transSet, Entering(old(configuration), old(initializedData), old(flags.topLevelFinal), []), i);
        && configuration == s.configuration && initializedData == s.initializedData
        && flags == old(flags).(topLevelFinal := s.topLevelFinal)
        && callbacks == old(callbacks) + s.actions
    {
      hide DoneActions, DefaultActions;
      ghost var first := if i in initializedData then [] else [InitData(i)];
      configuration := configuration + {i};
      if i !in initializedData {
        callbacks := callbacks + [InitData(i)];
        initializedData := initializedData + {i};
      }
      assert initializedData == old(initializedData) + {i};
      assert callbacks == old(callbacks) + first;
      callbacks := callbacks + [OnEntry(i)];
      TakeDefaults(transSet, i);
      RaiseDone(i);
      assert callbacks == old(callbacks) + ([] + first + [OnEntry(i)]
        + DefaultActions(chart, transSet, i, 0) + DoneActions(chart, configuration, i));
    }

    method EnterStates(entrySet: set<nat>, transSet: set<nat>)
      modifies this`configuration, this`initializedData, this`flags, this`callbacks
      ensures
        var s := EnterFrom(chart, Entry(entrySet, transSet),
                           Entering(old(configuration), old(initializedData), old(flags.topLevelFinal), []), 0);
        && configuration == s.configuration && initializedData == s.initializedData
        && flags == old(flags).(topLevelFinal := s.topLevelFinal)
        && callbacks == old(callbacks) + s.actions
    {
      hide EnterOne;
      var n := Size(chart);
      ghost var e := Entry(entrySet, transSet);
      ghost var done: seq<Action> := [];
      ghost var start := Entering(configuration, initializedData, flags.topLevelFinal, []);
      var i := FindFrom(entrySet, n, 0);
      EnterSkips(chart, e, start, 0, i);
      while i < n
        invariant i <= n && (i < n ==> i in entrySet)
        invariant callbacks == old(callbacks) + done
        invariant flags == old(flags).(topLevelFinal := flags.topLevelFinal)
        invariant EnterFrom(chart, e, Entering(configuration, initializedData, flags.topLevelFinal, done), i)
                  == EnterFrom(chart, e, start, 0)
      {
        ghost var s := Entering(configuration, initializedData, flags.topLevelFinal, done);
        if i !in configuration && !IsPseudoKind(chart.states[i].kind) {
          EnterState(i, transSet);
          EnterOneAppends(chart, transSet, s, i);
          done := EnterOne(chart, transSet, s, i).actions;
        }
        ghost var t := Entering(configuration, initializedData, flags.topLevelFinal, done);
        var next := FindFrom(entrySet, n, i + 1);
        EnterSkips(chart, e, t, i + 1, next);
        i := next;
      }
    }

    // ---- Invocations ----

    method ManageInvocations()
      modifies this`invocations, this`callbacks
      ensures invocations == (old(invocations) - AllStates(chart)) + configuration * AllStates(chart)
      ensures callbacks == old(callbacks) + ManageFrom(chart, configuration, old(invocations), 0)
    {
      ghost var was := invocations;
      var i := 0;
      while i < Size(chart)
        invariant i <= Size(chart)
        invariant forall k: nat :: k in invocations <==> if k < i then k in configuration else k in was
        invariant callbacks + ManageFrom(chart, configuration, was, i) == old(callbacks) + ManageFrom(chart, configuration, was, 0)
      {
        if i !in configuration && i in invocations {
          callbacks := callbacks + [Uninvoke(i)];
          invocations := invocations - {i};
        }
        if i in configuration && i !in invocations {
          callbacks := callbacks + [Invoke(i)];
          invocations := invocations + {i};
        }
        i := i + 1;
      }
      forall k | k in invocations
        ensures k in (was - AllStates(chart)) + configuration * AllStates(chart) { assert IsState(chart, k) || k in was; }
    }

    method Shutdown()
      modifies this`invocations, this`callbacks
      ensures invocations == old(invocations) - AllStates(chart)
      ensures callbacks == old(callbacks) + ShutdownActions(configuration, old(invocations), Size(chart))
    {
      ghost var was := invocations;
      var i: nat := Size(chart);
      while i > 0
        invariant i <= Size(chart)
        invariant invocations == was - (set x | x in was && i <= x < Size(chart))
        invariant callbacks + ShutdownActions(configuration, was, i)
                  == old(callbacks) + ShutdownActions(configuration, was, Size(chart))
      {
        i := i - 1;
        if i in configuration {
          callbacks := callbacks + [OnExit(i)];
        }
        if i in invocations {
          callbacks := callbacks + [Uninvoke(i)];
          invocations := invocations - {i};
        }
      }
      assert callbacks + [] == callbacks;
    }

    // ---- The step ----

    method DoMicroStep(exitSet: set<nat>, targetSet: set<nat>, transitions: set<nat>)
      requires TablesOk(chart) && exitSet <= configuration && forall x | x in configuration :: x < Size(chart)
      modifies this`configuration, this`initializedData, this`flags, this`callbacks
      ensures
        var o := MicroStep(chart, old(Value()), exitSet, targetSet, transitions);
        Value() == o.stepper && callbacks == old(callbacks) + o.actions
    {
      hide ExitActions, TakeActions, EnterFrom, EntrySet;
      var entrySet, transSet := EstablishEntrySet(exitSet, targetSet, transitions);
      ghost var cfg, cbs := configuration, callbacks;
      ExitStates(exitSet);
      assert configuration == cfg - exitSet;
      TakeTransitions(transSet);
      ghost var first := ExitActions(exitSet * cfg, Size(chart)) + TakeActions(chart, transSet, 0);
      assert callbacks == cbs + first;
      ghost var s := Entering(configuration, initializedData, flags.topLevelFinal, first);
      EnterStates(entrySet, transSet);
      EnterFromAppends(chart, Entry(entrySet, transSet), s, 0);
      assert cbs + first + EnterFrom(chart, Entry(entrySet, transSet), s.(actions := []), 0).actions
        == cbs + (first + EnterFrom(chart, Entry(entrySet, transSet), s.(actions := []), 0).actions);
    }

    method SelectStep(m: Stimulus)
      requires TablesOk(chart) && forall x | x in configuration :: x < Size(chart)
      modifies this`configuration, this`history, this`initializedData, this`flags, this`callbacks
      ensures
        var o := SelectAndStep(chart, old(Value()), m);
        Value() == o.stepper && callbacks == old(callbacks) + o.actions
    {
      hide Select, MicroStep, Remember;
      flags := flags.(stable := false);
      var sel := SelectTransitions(m);
      var exitSet := sel.exits * configuration;
      if sel.trans != {} {
        flags := flags.(spontaneous := true);
        RememberHistory(exitSet);
        DoMicroStep(exitSet, sel.targets, sel.trans);
      } else {
        flags := flags.(spontaneous := false);
        assert callbacks + [] == callbacks;
      }
    }

    /** One call of the step function. */
    method Step(input: Input) returns (r: Result)
      requires Valid()
      modifies this
      ensures Valid()
      ensures
        var o := Stepping.Step(chart, old(Value()), input);
        Value() == o.stepper && callbacks == old(callbacks) + o.actions && r == o.result
    {
      StepSound(chart, Value(), input);
      r := DoStep(input);
    }

    method DoStep(input: Input) returns (r: Result)
      requires TablesOk(chart) && forall x | x in configuration :: x < Size(chart)
      modifies this
      ensures
        var o := Stepping.Step(chart, old(Value()), input);
        Value() == o.stepper && callbacks == old(callbacks) + o.actions && r == o.result
    {
      hide SelectAndStep, MicroStep, ManageFrom, ShutdownActions;
      ghost var was := callbacks;
      assert was + [] == was;
      if flags.finished {
        return Finished;
      }
      if flags.topLevelFinal {
        Shutdown();
        flags := flags.(finished := true);
        return Finished;
      }
      if flags == PRISTINE {
        flags := flags.(spontaneous := true, initialized := true);
        DoMicroStep({}, chart.states[0].completion, {});
        return MicroStepped;
      }
      if flags.spontaneous {
        SelectStep(Stimulus(false, input.matched, input.holds));
        return MicroStepped;
      }
      if input.internal {
        SelectStep(Stimulus(true, input.matched, input.holds));
        return MicroStepped;
      }
      ManageInvocations();
      if !flags.stable {
        callbacks := callbacks + [StableConfiguration];
        flags := flags.(stable := true);
        return MacroStepped;
      }
      if input.external {
        SelectStep(Stimulus(true, input.matched, input.holds));
        return MicroStepped;
      }
      if isCancelled {
        flags := flags.(topLevelFinal := true);
        return Cancelled;
      }
      return Idle;
    }
  }
}
