/** Transition domains, exit sets and conflicts, and the greedy selection of a
    conflict-free set of transitions. */
module Transitions {
  import opened Charts
  import opened EntrySets

  // ---- Domains ----

  /** The nearest compound state at or above `a` with all of `s` below it. */
  function Lcca(c: Chart, a: nat, s: set<nat>): (d: nat)
    requires a < Size(c)
    decreases a
  {
    if IsCompound(c, a) && (forall x | x in s :: Under(c, x, a)) then a
    else if a == 0 then 0
    else Lcca(c, Parent(c, a), s)
  }

  /** The domain of a transition from `source` to the nonempty set `target`. */
  function DomainOf(c: Chart, source: nat, target: set<nat>, internal: bool): nat
    requires 0 < source < Size(c)
  {
    if internal && IsCompound(c, source) && (forall x | x in target :: Under(c, x, source)) then source
    else Lcca(c, Parent(c, source), {source} + target)
  }

  /** The state a transition belongs to: for an `<initial>` element the compound
      state around it. */
  function SourceState(c: Chart, t: Transition): nat
    requires 0 < t.source < Size(c)
  {
    if t.kind == OfInitial then Parent(c, t.source) else t.source
  }

  /** The transition domain; the document element has none above it. */
  function Domain(c: Chart, t: Transition): nat
    requires 0 < t.source < Size(c)
  {
    if SourceState(c, t) == 0 then 0 else DomainOf(c, SourceState(c, t), t.target, t.internal)
  }

  function ProperBelow(c: Chart, d: nat): set<nat> {
    set k | 0 <= k < Size(c) && Under(c, k, d) && Proper(c, k)
  }

  function ExitSetOf(c: Chart, t: Transition): set<nat>
    requires 0 < t.source < Size(c)
  {
    if t.target == {} || SourceState(c, t) == 0 then {} else ProperBelow(c, Domain(c, t))
  }

  predicate Conflict(c: Chart, t1: Transition, t2: Transition)
    requires 0 < t1.source < Size(c) && 0 < t2.source < Size(c)
  {
    || SourceState(c, t1) == SourceState(c, t2)
    || Under(c, SourceState(c, t1), SourceState(c, t2))
    || Under(c, SourceState(c, t2), SourceState(c, t1))
    || ExitSetOf(c, t1) * ExitSetOf(c, t2) != {}
  }

  /** Entry `k` in row `j` of the conflict matrix. */
  predicate ConflictAt(c: Chart, j: nat, k: nat) {
    && j < |c.transitions| && 0 < c.transitions[j].source < Size(c)
    && k < |c.transitions| && 0 < c.transitions[k].source < Size(c)
    && Conflict(c, c.transitions[j], c.transitions[k])
  }

  lemma {:induction false} LccaSpec(c: Chart, a: nat, s: set<nat>)
    requires a < Size(c)
    requires forall x | x in s :: 0 < x < Size(c)
    ensures
      var d := Lcca(c, a, s);
      && IsCompound(c, d) && AtOrUnder(c, a, d)
      && (forall x | x in s :: Under(c, x, d))
      && (forall b | IsCompound(c, b) && AtOrUnder(c, a, b) && (forall x | x in s :: Under(c, x, b)) :: AtOrUnder(c, d, b))
    decreases a
  {
    var d := Lcca(c, a, s);
    if IsCompound(c, a) && (forall x | x in s :: Under(c, x, a)) {
    } else if a == 0 {
      forall x | x in s ensures Under(c, x, 0) { UnderRoot(c, x); }
    } else {
      var p := Parent(c, a);
      LccaSpec(c, p, s);
      assert ChildOf(c, a, p);
      ChildUnder(c, a, p);
      AtOrUnderTransitive(c, a, p, d);
    }
  }

  // ---- The transition table ----

  ghost predicate TransitionOk(c: Chart, t: Transition) {
    && 0 < t.source < Size(c)
    && (t.kind == OfInitial <==> c.states[t.source].kind == Initial)
    && (t.kind == OfHistory <==> IsHistory(c, t.source))
    && (forall x | x in t.target :: 0 < x < Size(c) && c.states[x].kind != Initial)
    && Compatible(c, t.target)
  }

  /** The transition leads from inside the parent of a history state to that
      history state, so that the parent stays active. */
  predicate FromInside(c: Chart, t: Transition, h: nat)
    requires 0 < t.source < Size(c)
  {
    t.kind == Normal && h in t.target && IsHistory(c, h) && ChildOf(c, h, Domain(c, t))
  }

  ghost predicate TransitionTableAt(c: Chart, j: nat)
    requires j < |c.transitions|
  {
    var t := c.transitions[j];
    && TransitionOk(c, t)
    && t.exitSet == ExitSetOf(c, t)
    && t.conflicts == set k | 0 <= k < |c.transitions| && ConflictAt(c, j, k)
  }

  ghost predicate TransitionsOk(c: Chart) {
    forall j: nat | j < |c.transitions| :: TransitionTableAt(c, j)
  }

  ghost predicate WellFormed(c: Chart) {
    StatesOk(c) && TransitionsOk(c)
  }

  /** No transition enters a history state from inside its parent. */
  ghost predicate HistoriesFromOutside(c: Chart) {
    forall j: nat, h: nat | j < |c.transitions| && 0 < c.transitions[j].source < Size(c) ::
      !FromInside(c, c.transitions[j], h)
  }

  /** The charts on which no step can go wrong. */
  ghost predicate ChartOk(c: Chart) {
    WellFormed(c) && ChildCompletions(c) && DefaultsClosed(c) && HistoriesFromOutside(c)
  }

  lemma ConflictSymmetric(c: Chart, j: nat, k: nat)
    ensures ConflictAt(c, j, k) == ConflictAt(c, k, j)
  {
    if j < |c.transitions| && k < |c.transitions| && 0 < c.transitions[j].source < Size(c) && 0 < c.transitions[k].source < Size(c) {
      var t1, t2 := c.transitions[j], c.transitions[k];
      assert ExitSetOf(c, t1) * ExitSetOf(c, t2) == ExitSetOf(c, t2) * ExitSetOf(c, t1);
    }
  }

  lemma DomainSpec(c: Chart, t: Transition)
    requires TransitionOk(c, t) && t.kind == Normal
    ensures
      var d := Domain(c, t);
      && IsCompound(c, d) && AtOrUnder(c, t.source, d)
      && (forall x | x in t.target :: Under(c, x, d))
  {
    var s := t.source;
    if !(t.internal && IsCompound(c, s) && (forall x | x in t.target :: Under(c, x, s))) {
      LccaSpec(c, Parent(c, s), {s} + t.target);
      assert s in {s} + t.target;
    }
  }

  // ---- What the definitions mean ----

  /** An internal transition of a compound state to states below it. */
  predicate StaysInside(c: Chart, t: Transition)
    requires 0 < t.source < Size(c)
  {
    t.internal && IsCompound(c, t.source) && forall x | x in t.target :: Under(c, x, t.source)
  }

  /** `d` is the nearest compound state properly above `source` with all of `target`
      below it. */
  ghost predicate NearestAbove(c: Chart, source: nat, target: set<nat>, d: nat) {
    && IsCompound(c, d) && Under(c, source, d) && (forall x | x in target :: Under(c, x, d))
    && forall b: nat | IsCompound(c, b) && Under(c, source, b) && (forall x | x in target :: Under(c, x, b)) :: AtOrUnder(c, d, b)
  }

  /** An internal transition of a compound state to states below it leaves the proper
      states below its source and not the source; every other transition with a target
      leaves its source, together with everything below the nearest compound state
      properly above the source that has all targets below it. */
  lemma ExitSetExact(c: Chart, t: Transition)
    requires TransitionOk(c, t) && t.kind == Normal && t.target != {}
    ensures StaysInside(c, t) ==>
              t.source !in ExitSetOf(c, t) && forall k: nat :: k in ExitSetOf(c, t) <==> Under(c, k, t.source) && Proper(c, k)
    ensures !StaysInside(c, t) ==>
              t.source in ExitSetOf(c, t)
              && exists d: nat :: NearestAbove(c, t.source, t.target, d)
                                  && forall k: nat :: k in ExitSetOf(c, t) <==> Under(c, k, d) && Proper(c, k)
  {
    var s := t.source;
    var d := Domain(c, t);
    forall k: nat | Under(c, k, d) ensures k < Size(c) { UnderBounds(c, k, d); }
    if StaysInside(c, t) {
      if Under(c, s, s) { UnderBounds(c, s, s); }
    } else {
      var p := Parent(c, s);
      LccaSpec(c, p, {s} + t.target);
      assert s in {s} + t.target;
      forall b: nat | IsCompound(c, b) && Under(c, s, b) && (forall x | x in t.target :: Under(c, x, b))
        ensures AtOrUnder(c, d, b)
      {
        assert p == b || Under(c, p, b);
      }
      assert NearestAbove(c, s, t.target, d);
    }
  }

  /** A transition without a target leaves nothing. */
  lemma TargetlessLeavesNothing(c: Chart, t: Transition)
    requires TransitionOk(c, t) && t.target == {}
    ensures ExitSetOf(c, t) == {}
  {
  }

  /** Two normal transitions are in conflict if one's source is the other's or lies
      below it, and otherwise exactly if some state is left by both. */
  lemma ConflictExact(c: Chart, j: nat, k: nat)
    requires TransitionsOk(c) && j < |c.transitions| && k < |c.transitions|
    requires c.transitions[j].kind == Normal && c.transitions[k].kind == Normal
    ensures
      var t, u := c.transitions[j], c.transitions[k];
      k in t.conflicts <==>
      AtOrUnder(c, t.source, u.source) || AtOrUnder(c, u.source, t.source) || exists x: nat :: x in t.exitSet && x in u.exitSet
  {
    assert TransitionTableAt(c, j) && TransitionTableAt(c, k);
    var t, u := c.transitions[j], c.transitions[k];
    if x: nat :| x in t.exitSet && x in u.exitSet {
      assert x in ExitSetOf(c, t) * ExitSetOf(c, u);
    }
  }

  // ---- Greedy selection ----

  /** What a microstep is given: whether an event is being processed, and which
      transitions its name and the guards would admit. */
  datatype Stimulus = Stimulus(event: bool, matched: set<nat>, holds: set<nat>)

  predicate Enabled(c: Chart, cfg: set<nat>, m: Stimulus, i: nat) {
    && i < |c.transitions|
    && c.transitions[i].kind == Normal
    && c.transitions[i].source in cfg
    && c.transitions[i].hasEvent == m.event
    && (!m.event || i in m.matched)
    && (!c.transitions[i].hasCond || i in m.holds)
  }

  datatype Selection = Selection(trans: set<nat>, conflicts: set<nat>, targets: set<nat>, exits: set<nat>)

  const NOTHING := Selection({}, {}, {}, {})

  function Choose(c: Chart, s: Selection, i: nat): Selection
    requires i < |c.transitions|
  {
    var t := c.transitions[i];
    Selection(s.trans + {i}, s.conflicts + t.conflicts, s.targets + t.target, s.exits + t.exitSet)
  }

  function SelectFrom(c: Chart, cfg: set<nat>, m: Stimulus, s: Selection, i: nat): Selection
    requires i <= |c.transitions|
    decreases |c.transitions| - i
  {
    if i == |c.transitions| then s
    else
      SelectFrom(c, cfg, m, if Enabled(c, cfg, m, i) && i !in s.conflicts then Choose(c, s, i) else s, i + 1)
  }

  function Select(c: Chart, cfg: set<nat>, m: Stimulus): Selection {
    SelectFrom(c, cfg, m, NOTHING, 0)
  }

  /** The first `i` transitions have been decided. */
  ghost predicate Decided(c: Chart, cfg: set<nat>, m: Stimulus, s: Selection, i: nat) {
    && (forall j | j in s.trans :: 0 <= j < i && j < |c.transitions| && Enabled(c, cfg, m, j))
    && (forall j: nat | j < i && Enabled(c, cfg, m, j) ::
          j in s.trans <==> forall k | k in s.trans && k < j :: j !in c.transitions[k].conflicts)
    && s.conflicts == (set k, x | k in s.trans && x in c.transitions[k].conflicts :: x)
    && s.targets == (set k, x | k in s.trans && x in c.transitions[k].target :: x)
    && s.exits == (set k, x | k in s.trans && x in c.transitions[k].exitSet :: x)
  }

  lemma {:induction false} SelectDecides(c: Chart, cfg: set<nat>, m: Stimulus, s: Selection, i: nat)
    requires i <= |c.transitions| && Decided(c, cfg, m, s, i)
    ensures Decided(c, cfg, m, SelectFrom(c, cfg, m, s, i), |c.transitions|)
    decreases |c.transitions| - i
  {
    hide Decided, Enabled, Choose;
    if i < |c.transitions| {
      var s' := if Enabled(c, cfg, m, i) && i !in s.conflicts then Choose(c, s, i) else s;
      DecideOne(c, cfg, m, s, i);
      SelectDecides(c, cfg, m, s', i + 1);
    }
  }

  lemma DecideOne(c: Chart, cfg: set<nat>, m: Stimulus, s: Selection, i: nat)
    requires i < |c.transitions| && Decided(c, cfg, m, s, i)
    ensures Decided(c, cfg, m, if Enabled(c, cfg, m, i) && i !in s.conflicts then Choose(c, s, i) else s, i + 1)
  {
    var s' := if Enabled(c, cfg, m, i) && i !in s.conflicts then Choose(c, s, i) else s;
    assert i in s.conflicts <==> exists k :: k in s.trans && i in c.transitions[k].conflicts;
    forall j: nat | j < i + 1 && Enabled(c, cfg, m, j)
      ensures j in s'.trans <==> forall k | k in s'.trans && k < j :: j !in c.transitions[k].conflicts
    {
      assert forall k | k in s'.trans && k < j :: k in s.trans;
      assert forall k | k in s.trans :: k in s'.trans;
    }
  }

  /** The selection is exactly what greedy preemption in table order leaves. */
  lemma SelectSpec(c: Chart, cfg: set<nat>, m: Stimulus)
    ensures Decided(c, cfg, m, Select(c, cfg, m), |c.transitions|)
  {
    SelectDecides(c, cfg, m, NOTHING, 0);
  }

  /** No two selected transitions conflict, and every enabled transition that was
      passed over conflicts with a selected one that comes earlier. */
  lemma SelectMaximal(c: Chart, cfg: set<nat>, m: Stimulus)
    requires TransitionsOk(c)
    ensures
      var s := Select(c, cfg, m).trans;
      && (forall j: nat, k: nat | j in s && k in s && j != k :: !ConflictAt(c, j, k))
      && (forall i: nat | Enabled(c, cfg, m, i) && i !in s :: exists j: nat :: j in s && j < i && ConflictAt(c, j, i))
  {
    SelectSpec(c, cfg, m);
    var s := Select(c, cfg, m).trans;
    forall j: nat, k: nat | j in s && k in s && j < k
      ensures !ConflictAt(c, j, k) && !ConflictAt(c, k, j)
    {
      assert TransitionTableAt(c, j);
      ConflictSymmetric(c, j, k);
    }
    forall i: nat | Enabled(c, cfg, m, i) && i !in s
      ensures exists j: nat :: j in s && j < i && ConflictAt(c, j, i)
    {
      var j :| j in s && j < i && i in c.transitions[j].conflicts;
      assert TransitionTableAt(c, j);
    }
  }

  /** A transition is selected only if it is a normal one of an active state, answers to
      what is being processed and its guard holds; and one for which all this is so is
      passed over only for a selected one of smaller index in conflict with it. */
  lemma SelectedMeans(c: Chart, cfg: set<nat>, m: Stimulus, j: nat)
    requires TransitionsOk(c) && j < |c.transitions|
    ensures
      var s := Select(c, cfg, m).trans;
      var t := c.transitions[j];
      var fits := t.kind == Normal && t.source in cfg && (if m.event then t.hasEvent && j in m.matched else !t.hasEvent)
                  && (t.hasCond ==> j in m.holds);
      j in s <==> fits && forall k: nat | k in s && k < j :: k < |c.transitions| && j !in c.transitions[k].conflicts
  {
    SelectSpec(c, cfg, m);
  }

  /** No two selected transitions have the same or nested sources. */
  lemma SelectedSourcesApart(c: Chart, cfg: set<nat>, m: Stimulus, j: nat, k: nat)
    requires TransitionsOk(c)
    requires j in Select(c, cfg, m).trans && k in Select(c, cfg, m).trans && j != k
    ensures j < |c.transitions| && k < |c.transitions|
    ensures !AtOrUnder(c, c.transitions[j].source, c.transitions[k].source)
    ensures forall x: nat :: !(x in c.transitions[j].exitSet && x in c.transitions[k].exitSet)
  {
    SelectSpec(c, cfg, m);
    SelectMaximal(c, cfg, m);
    assert TransitionTableAt(c, j);
    ConflictExact(c, j, k);
  }
}
