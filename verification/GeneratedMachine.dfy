/** The step function of generated C code on its byte arrays, proved to do on them
    what the step on sets does. */
module GeneratedMachine {
  import opened Charts
  import opened EntrySets
  import opened Transitions
  import opened MicroSteps
  import opened Stepping
  import opened Interpreter
  import opened GeneratedTables
  import opened GeneratedCode
  import opened GeneratedLegality
  import opened Invocations
  import opened ByteSets

  // ---- Constant tables ----

  datatype StateRow = StateRow(
    parent: nat,
    kind: Kind,
    children: seq<bv8>,
    completion: seq<bv8>,
    ancestors: seq<bv8>)

  datatype TransitionRow = TransitionRow(
    source: nat,
    target: seq<bv8>,
    exitSet: seq<bv8>,
    conflicts: seq<bv8>,
    kind: TransitionKind,
    internal: bool,
    hasEvent: bool,
    hasCond: bool)

  /** `stateBytes` and `transBytes` are the declared sizes of the arrays. */
  datatype Program = Program(states: seq<StateRow>, transitions: seq<TransitionRow>, stateBytes: nat, transBytes: nat)

  function Nb(p: Program): nat {
    BytesFor(|p.states|)
  }

  function Tb(p: Program): nat {
    BytesFor(|p.transitions|)
  }

  predicate StateSized(p: Program, r: StateRow) {
    |r.children| == |r.completion| == |r.ancestors| == p.stateBytes
  }

  predicate TransitionSized(p: Program, r: TransitionRow) {
    |r.target| == |r.exitSet| == p.stateBytes && |r.conflicts| == p.transBytes
  }

  predicate Sized(p: Program) {
    && Nb(p) <= p.stateBytes && Tb(p) <= p.transBytes
    && (forall i: nat | i < |p.states| :: StateSized(p, p.states[i]))
    && (forall j: nat | j < |p.transitions| :: TransitionSized(p, p.transitions[j]))
  }

  function DecodeState(p: Program, r: StateRow): State
    requires Nb(p) <= p.stateBytes && StateSized(p, r)
  {
    State(r.parent, r.kind, Members(r.completion, Nb(p)), Members(r.ancestors, Nb(p)), Members(r.children, Nb(p)))
  }

  function DecodeTransition(p: Program, r: TransitionRow): Transition
    requires Nb(p) <= p.stateBytes && Tb(p) <= p.transBytes && TransitionSized(p, r)
  {
    Transition(r.source, Members(r.target, Nb(p)), Members(r.exitSet, Nb(p)), Members(r.conflicts, Tb(p)),
               r.kind, r.internal, r.hasEvent, r.hasCond)
  }

  function DecodeRaw(p: Program): RawChart
    requires Sized(p)
  {
    RawChart(seq(|p.states|, (i: nat) requires i < |p.states| => DecodeState(p, p.states[i])),
             seq(|p.transitions|, (j: nat) requires j < |p.transitions| => DecodeTransition(p, p.transitions[j])))
  }

  /** The arrays are large enough, the parents form a tree, and transitions leave states. */
  predicate Fits(p: Program) {
    && Sized(p) && IsTree(DecodeRaw(p))
    && forall j: nat | j < |p.transitions| :: p.transitions[j].source < |p.states|
  }

  /** The chart the tables stand for. */
  function Decode(p: Program): (c: Chart)
    requires Fits(p)
    ensures Size(c) == |p.states| && |c.transitions| == |p.transitions|
    ensures forall i: nat | i < Size(c) :: StateSized(p, p.states[i]) && c.states[i] == DecodeState(p, p.states[i])
    ensures forall j: nat | j < |p.transitions| :: p.transitions[j].source < |p.states|
    ensures forall j: nat | j < |p.transitions| ::
              TransitionSized(p, p.transitions[j]) && c.transitions[j] == DecodeTransition(p, p.transitions[j])
  {
    DecodeRaw(p)
  }

  /** An array of states, and the set it holds. */
  predicate IsStates(p: Program, a: array<bv8>) {
    a.Length == p.stateBytes && Nb(p) <= p.stateBytes
  }

  predicate IsTransitions(p: Program, a: array<bv8>) {
    a.Length == p.transBytes && Tb(p) <= p.transBytes
  }

  function StatesIn(p: Program, a: array<bv8>): set<nat>
    requires IsStates(p, a)
    reads a
  {
    Members(a[..], Nb(p))
  }

  function TransitionsIn(p: Program, a: array<bv8>): set<nat>
    requires IsTransitions(p, a)
    reads a
  {
    Members(a[..], Tb(p))
  }

  // ---- Selecting ----

  ghost function Chosen(p: Program, conflicts: array<bv8>, targetSet: array<bv8>, exitSet: array<bv8>, transSet: array<bv8>): Selection
    requires IsTransitions(p, conflicts) && IsStates(p, targetSet) && IsStates(p, exitSet) && IsTransitions(p, transSet)
    reads conflicts, targetSet, exitSet, transSet
  {
    Selection(TransitionsIn(p, transSet), TransitionsIn(p, conflicts), StatesIn(p, targetSet), StatesIn(p, exitSet))
  }

  lemma ChosenIs(p: Program, conflicts: array<bv8>, targetSet: array<bv8>, exitSet: array<bv8>, transSet: array<bv8>)
    requires IsTransitions(p, conflicts) && IsStates(p, targetSet) && IsStates(p, exitSet) && IsTransitions(p, transSet)
    ensures Chosen(p, conflicts, targetSet, exitSet, transSet)
            == Selection(TransitionsIn(p, transSet), TransitionsIn(p, conflicts), StatesIn(p, targetSet), StatesIn(p, exitSet))
  {
  }

  lemma ChooseTakes(c: Chart, s: Selection, i: nat)
    requires i < |c.transitions|
    ensures i in Choose(c, s, i).trans
  {
  }

  method Accept(p: Program, i: nat, conflicts: array<bv8>, targetSet: array<bv8>, exitSet: array<bv8>, transSet: array<bv8>)
    requires Fits(p) && i < |p.transitions|
    requires IsTransitions(p, conflicts) && IsStates(p, targetSet) && IsStates(p, exitSet) && IsTransitions(p, transSet)
    requires conflicts !in {targetSet, exitSet, transSet} && targetSet !in {exitSet, transSet} && exitSet != transSet
    modifies conflicts, targetSet, exitSet, transSet
    ensures Chosen(p, conflicts, targetSet, exitSet, transSet)
            == Choose(Decode(p), old(Chosen(p, conflicts, targetSet, exitSet, transSet)), i)
  {
    hide Members, Fits, IsTree, DecodeRaw;
    var t := p.transitions[i];
    assert Decode(p).transitions[i] == DecodeTransition(p, t);
    BitOr(conflicts, t.conflicts, Tb(p));
    BitOr(targetSet, t.target, Nb(p));
    BitOr(exitSet, t.exitSet, Nb(p));
    BitSetAt(i, transSet, Tb(p));
  }

  /** Finds the enabled, pairwise non-conflicting transitions. */
  method SelectTransitions(p: Program, config: array<bv8>, m: Stimulus,
                           targetSet: array<bv8>, transSet: array<bv8>, exitSet: array<bv8>)
    returns (found: bool)
    requires Fits(p) && IsStates(p, config) && IsStates(p, targetSet) && IsTransitions(p, transSet) && IsStates(p, exitSet)
    requires config != targetSet && config != transSet && config != exitSet
    requires targetSet != transSet && targetSet != exitSet && transSet != exitSet
    requires StatesIn(p, targetSet) == {} && TransitionsIn(p, transSet) == {}
    modifies targetSet, transSet, exitSet
    ensures
      var sel := Select(Decode(p), StatesIn(p, config), m);
      && TransitionsIn(p, transSet) == sel.trans && StatesIn(p, targetSet) == sel.targets
      && StatesIn(p, exitSet) == sel.exits * StatesIn(p, config)
      && (found <==> sel.trans != {})
  {
    hide Members, Fits, IsTree, DecodeRaw, Chosen, Choose;
    ghost var c, cfg := Decode(p), StatesIn(p, config);
    var conflicts := new bv8[p.transBytes];
    BitClearAll(conflicts, Tb(p));
    BitClearAll(exitSet, Nb(p));
    found := false;
    var i: nat := 0;
    ghost var s := NOTHING;
    ChosenIs(p, conflicts, targetSet, exitSet, transSet);
    while i < |p.transitions|
      invariant i <= |p.transitions|
      invariant StatesIn(p, config) == cfg
      invariant s == Chosen(p, conflicts, targetSet, exitSet, transSet)
      invariant SelectFrom(c, cfg, m, s, i) == Select(c, cfg, m)
      invariant found ==> s.trans != {}
      invariant !found ==> s.trans == {}
    {
      var t := p.transitions[i];
      assert c.transitions[i] == DecodeTransition(p, t);
      if t.kind == Normal {
        var active := BitHas(t.source, config, Nb(p));
        if active {
          var conflicting := BitHas(i, conflicts, Tb(p));
          ChosenIs(p, conflicts, targetSet, exitSet, transSet);
          if !conflicting {
            if t.hasEvent == m.event {
              if (!m.event || i in m.matched) && (!t.hasCond || i in m.holds) {
                found := true;
                Accept(p, i, conflicts, targetSet, exitSet, transSet);
                ChooseTakes(c, s, i);
                s := Choose(c, s, i);
              }
            }
          }
        }
      }
      i := i + 1;
    }
    ChosenIs(p, conflicts, targetSet, exitSet, transSet);
    BitAnd(exitSet, config[..], Nb(p));
  }

  // ---- Remembering ----

  method RememberHistory(p: Program, config: array<bv8>, history: array<bv8>, exitSet: array<bv8>)
    requires Fits(p) && IsStates(p, config) && IsStates(p, history) && IsStates(p, exitSet)
    requires history != config && history != exitSet
    modifies history
    ensures StatesIn(p, history) == Remember(Decode(p), StatesIn(p, config), StatesIn(p, exitSet), old(StatesIn(p, history)), 0)
  {
    hide Members, Fits, IsTree, DecodeRaw;
    ghost var c, cfg, exits := Decode(p), StatesIn(p, config), StatesIn(p, exitSet);
    var tmpStates := new bv8[p.stateBytes];
    var i: nat := 0;
    while i < |p.states|
      invariant i <= |p.states|
      invariant StatesIn(p, config) == cfg && StatesIn(p, exitSet) == exits
      invariant Remember(c, cfg, exits, StatesIn(p, history), i) == Remember(c, cfg, exits, old(StatesIn(p, history)), 0)
    {
      var s := p.states[i];
      assert c.states[i] == DecodeState(p, s);
      if IsHistoryKind(s.kind) {
        ParentInRange(p, i);
        var left := BitHas(s.parent, exitSet, Nb(p));
        if left {
          BitCopy(tmpStates, s.completion, Nb(p));
          BitAnd(tmpStates, config[..], Nb(p));
          BitAndNot(history, s.completion, Nb(p));
          BitOr(history, tmpStates[..], Nb(p));
        }
      }
      i := i + 1;
    }
  }

  lemma ParentInRange(p: Program, i: nat)
    requires Fits(p) && i < |p.states|
    ensures p.states[i].parent < |p.states| || i == 0
    ensures i == 0 ==> !IsHistoryKind(p.states[i].kind) && p.states[i].kind == Compound
  {
    var c := Decode(p);
    assert c.states[i] == DecodeState(p, p.states[i]);
    if i > 0 { assert PlacedAt(c.states, i); }
  }

  // ---- The entry set ----

  method AddAncestors(p: Program, entrySet: array<bv8>)
    requires Fits(p) && IsStates(p, entrySet)
    modifies entrySet
    ensures StatesIn(p, entrySet) == Climb(Decode(p), old(StatesIn(p, entrySet)), 0)
  {
    hide Members, Fits, IsTree, DecodeRaw;
    ghost var c := Decode(p);
    var i: nat := 0;
    while i < |p.states|
      invariant i <= |p.states|
      invariant Climb(c, StatesIn(p, entrySet), i) == Climb(c, old(StatesIn(p, entrySet)), 0)
    {
      assert c.states[i] == DecodeState(p, p.states[i]);
      var has := BitHas(i, entrySet, Nb(p));
      if has {
        BitOr(entrySet, p.states[i].ancestors, Nb(p));
      }
      i := i + 1;
    }
  }

  /** Adds the ancestors of the first state of `t` from `from` on. */
  method AddAncestorsOfFirst(p: Program, t: seq<bv8>, from: nat, entrySet: array<bv8>)
    requires Fits(p) && IsStates(p, entrySet) && |t| == p.stateBytes
    modifies entrySet
    ensures StatesIn(p, entrySet) == old(StatesIn(p, entrySet)) + FirstTargetAncestors(Decode(p), Members(t, Nb(p)), from)
  {
    hide Members, Fits, IsTree, DecodeRaw;
    ghost var c := Decode(p);
    var k := from;
    while k < |p.states|
      invariant FirstTargetAncestors(c, Members(t, Nb(p)), k) == FirstTargetAncestors(c, Members(t, Nb(p)), from)
      invariant StatesIn(p, entrySet) == old(StatesIn(p, entrySet))
    {
      assert c.states[k] == DecodeState(p, p.states[k]);
      var has := BitHasIn(k, t, Nb(p));
      if has {
        BitOr(entrySet, p.states[k].ancestors, Nb(p));
        return;
      }
      k := k + 1;
    }
  }

  method AddAncestorsOfAll(p: Program, t: seq<bv8>, from: nat, entrySet: array<bv8>)
    requires Fits(p) && IsStates(p, entrySet) && |t| == p.stateBytes && from <= |p.states|
    modifies entrySet
    ensures StatesIn(p, entrySet) == old(StatesIn(p, entrySet)) + TargetAncestors(Decode(p), Members(t, Nb(p)), from)
  {
    hide Members, Fits, IsTree, DecodeRaw;
    ghost var c, tt, before := Decode(p), Members(t, Nb(p)), StatesIn(p, entrySet);
    var k := from;
    while k < |p.states|
      invariant from <= k <= |p.states|
      invariant StatesIn(p, entrySet) == before + set x, a | x in tt && from <= x < k && x < Size(c) && a in c.states[x].ancestors :: a
    {
      assert c.states[k] == DecodeState(p, p.states[k]);
      var has := BitHasIn(k, t, Nb(p));
      if has {
        BitOr(entrySet, p.states[k].ancestors, Nb(p));
      }
      k := k + 1;
    }
    assert StatesIn(p, entrySet) == before + TargetAncestors(c, tt, from);
  }

  method ResolveHistoryState(p: Program, config: array<bv8>, history: array<bv8>, i: nat,
                             entrySet: array<bv8>, transSet: array<bv8>)
    requires Fits(p) && IsStates(p, config) && IsStates(p, history) && IsStates(p, entrySet) && IsTransitions(p, transSet)
    requires entrySet != config && entrySet != history && entrySet != transSet && transSet != config && transSet != history
    requires i < |p.states| && IsHistoryKind(p.states[i].kind)
    modifies entrySet, transSet
    ensures Entry(StatesIn(p, entrySet), TransitionsIn(p, transSet))
            == ResolveHistory(Decode(p), StatesIn(p, config), StatesIn(p, history),
                              Entry(old(StatesIn(p, entrySet)), old(TransitionsIn(p, transSet))), i)
  {
    hide Members, Fits, IsTree, DecodeRaw;
    ghost var c := Decode(p);
    var s := p.states[i];
    assert c.states[i] == DecodeState(p, s);
    ParentInRange(p, i);
    var recorded := BitHasAnd(s.completion, history[..], Nb(p));
    var inside := BitHas(s.parent, config, Nb(p));
    if !recorded && !inside {
      var j: nat := 0;
      while j < |p.transitions|
        invariant j <= |p.transitions| && FirstFrom(c, i, j) == FirstFrom(c, i, 0)
        invariant StatesIn(p, entrySet) == old(StatesIn(p, entrySet))
        invariant TransitionsIn(p, transSet) == old(TransitionsIn(p, transSet))
      {
        var t := p.transitions[j];
        assert c.transitions[j] == DecodeTransition(p, t);
        if t.source == i {
          BitOr(entrySet, t.target, Nb(p));
          if s.kind == HistoryDeep {
            var below := BitHasAnd(t.target, s.children, Nb(p));
            if !below {
              AddAncestorsOfFirst(p, t.target, i + 1, entrySet);
            }
          }
          BitSetAt(j, transSet, Tb(p));
          return;
        }
        j := j + 1;
      }
    } else {
      var tmpStates := new bv8[p.stateBytes];
      BitCopy(tmpStates, s.completion, Nb(p));
      BitAnd(tmpStates, history[..], Nb(p));
      BitOr(entrySet, tmpStates[..], Nb(p));
    }
  }

  method ResolveInitialState(p: Program, i: nat, entrySet: array<bv8>, transSet: array<bv8>)
    requires Fits(p) && IsStates(p, entrySet) && IsTransitions(p, transSet) && entrySet != transSet && i < |p.states|
    modifies entrySet, transSet
    ensures Entry(StatesIn(p, entrySet), TransitionsIn(p, transSet))
            == ResolveInitial(Decode(p), Entry(old(StatesIn(p, entrySet)), old(TransitionsIn(p, transSet))), i, 0)
  {
    hide Members, Fits, IsTree, DecodeRaw;
    ghost var c := Decode(p);
    var j: nat := 0;
    while j < |p.transitions|
      invariant j <= |p.transitions|
      invariant ResolveInitial(c, Entry(StatesIn(p, entrySet), TransitionsIn(p, transSet)), i, j)
                == ResolveInitial(c, Entry(old(StatesIn(p, entrySet)), old(TransitionsIn(p, transSet))), i, 0)
    {
      var t := p.transitions[j];
      assert c.transitions[j] == DecodeTransition(p, t);
      if t.source == i {
        BitSetAt(j, transSet, Tb(p));
        BitClear(i, entrySet, Nb(p));
        BitOr(entrySet, t.target, Nb(p));
        AddAncestorsOfAll(p, t.target, i + 1, entrySet);
      }
      j := j + 1;
    }
  }

  method ResolveCompoundState(p: Program, config: array<bv8>, exitSet: array<bv8>, i: nat, entrySet: array<bv8>, ghost trans: set<nat>)
    requires Fits(p) && IsStates(p, config) && IsStates(p, exitSet) && IsStates(p, entrySet)
    requires entrySet != config && entrySet != exitSet && i < |p.states|
    modifies entrySet
    ensures Entry(StatesIn(p, entrySet), trans)
            == ResolveCompound(Decode(p), StatesIn(p, config), StatesIn(p, exitSet), Entry(old(StatesIn(p, entrySet)), trans), i)
  {
    hide Members, Fits, IsTree, DecodeRaw;
    var s := p.states[i];
    assert Decode(p).states[i] == DecodeState(p, s);
    var entering := BitHasAnd(entrySet[..], s.children, Nb(p));
    var staying := BitHasAnd(config[..], s.children, Nb(p));
    var leaving := BitHasAnd(exitSet[..], s.children, Nb(p));
    if !entering && (!staying || leaving) {
      BitOr(entrySet, s.completion, Nb(p));
      var shallow := BitHasAnd(s.completion, s.children, Nb(p));
      if !shallow {
        AddAncestorsOfFirst(p, s.completion, i + 1, entrySet);
      }
    }
  }

  /** One pass in document order over the growing entry set. */
  method AddDescendants(p: Program, config: array<bv8>, history: array<bv8>, exitSet: array<bv8>,
                        entrySet: array<bv8>, transSet: array<bv8>)
    requires Fits(p) && IsStates(p, config) && IsStates(p, history) && IsStates(p, exitSet)
    requires IsStates(p, entrySet) && IsTransitions(p, transSet)
    requires entrySet !in {config, history, exitSet, transSet} && transSet !in {config, history, exitSet}
    modifies entrySet, transSet
    ensures Entry(StatesIn(p, entrySet), TransitionsIn(p, transSet))
            == Descend(Decode(p), StatesIn(p, config), StatesIn(p, history), StatesIn(p, exitSet),
                       Entry(old(StatesIn(p, entrySet)), old(TransitionsIn(p, transSet))), 0)
  {
    hide Members, Fits, IsTree, DecodeRaw, ResolveHistory, ResolveInitial, ResolveCompound;
    ghost var c, cfg, hist, exits := Decode(p), StatesIn(p, config), StatesIn(p, history), StatesIn(p, exitSet);
    ghost var start := Entry(StatesIn(p, entrySet), TransitionsIn(p, transSet));
    var i: nat := 0;
    while i < |p.states|
      invariant i <= |p.states|
      invariant StatesIn(p, config) == cfg && StatesIn(p, history) == hist && StatesIn(p, exitSet) == exits
      invariant Descend(c, cfg, hist, exits, Entry(StatesIn(p, entrySet), TransitionsIn(p, transSet)), i)
                == Descend(c, cfg, hist, exits, start, 0)
    {
      assert c.states[i] == DecodeState(p, p.states[i]);
      var has := BitHas(i, entrySet, Nb(p));
      if has {
        match p.states[i].kind {
          case Parallel => BitOr(entrySet, p.states[i].completion, Nb(p));
          case HistoryShallow => ResolveHistoryState(p, config, history, i, entrySet, transSet);
          case HistoryDeep => ResolveHistoryState(p, config, history, i, entrySet, transSet);
          case Initial => ResolveInitialState(p, i, entrySet, transSet);
          case Compound => ResolveCompoundState(p, config, exitSet, i, entrySet, TransitionsIn(p, transSet));
          case Atomic =>
          case Final =>
        }
      }
      i := i + 1;
    }
  }

  // ---- The context ----

  class Context {
    const program: Program
    const config: array<bv8>
    const history: array<bv8>
    const invocations: array<bv8>
    const initializedData: array<bv8>
    var flags: CFlags
    /** The callbacks made so far, in order. */
    var callbacks: seq<Action>

    /** The arrays are as large as declared, and apart from one another. */
    predicate Shaped() {
      && Fits(program) && Tb(program) <= program.transBytes
      && IsStates(program, config) && IsStates(program, history)
      && IsStates(program, invocations) && IsStates(program, initializedData)
      && config !in {history, invocations, initializedData} && history !in {invocations, initializedData}
      && invocations != initializedData
    }

    ghost function Chart(): Chart
      requires Shaped()
    {
      Decode(program)
    }

    /** The sets the context holds. */
    ghost function Value(): Ctx
      requires Shaped()
      reads this, config, history, invocations, initializedData
    {
      Ctx(StatesIn(program, config), StatesIn(program, history), StatesIn(program, invocations),
          StatesIn(program, initializedData), flags)
    }

    /** No bit beyond the states is set, and nothing is active before the start. */
    ghost predicate Valid()
      reads this, config, history, invocations, initializedData
    {
      Shaped() && Within(Chart(), Value()) && Started(Value())
    }

    constructor (p: Program)
      requires Fits(p)
      ensures program == p && Valid() && Value() == CFRESH && callbacks == []
      ensures fresh(config) && fresh(history) && fresh(invocations) && fresh(initializedData)
    {
      program := p;
      config := new bv8[p.stateBytes];
      history := new bv8[p.stateBytes];
      invocations := new bv8[p.stateBytes];
      initializedData := new bv8[p.stateBytes];
      flags, callbacks := CPRISTINE, [];
      new;
      BitClearAll(config, Nb(p));
      BitClearAll(history, Nb(p));
      BitClearAll(invocations, Nb(p));
      BitClearAll(initializedData, Nb(p));
    }

    // ---- Exiting, taking, entering ----

    method ExitStates(exitSet: array<bv8>)
      requires Shaped() && IsStates(program, exitSet) && StatesIn(program, config) <= AllStates(Chart())
      requires exitSet !in {config, history, invocations, initializedData}
      modifies config, this`callbacks
      ensures StatesIn(program, config) == old(StatesIn(program, config)) - StatesIn(program, exitSet)
      ensures callbacks == old(callbacks) + ExitActions(StatesIn(program, exitSet) * old(StatesIn(program, config)), |program.states|)
    {
      hide Members, Fits, Sized, StateSized, TransitionSized, DecodeRaw;
      var i: nat := |program.states|;
      ghost var cfg, exits := StatesIn(program, config), StatesIn(program, exitSet);
      while i > 0
        invariant i <= |program.states|
        invariant StatesIn(program, exitSet) == exits
        invariant StatesIn(program, config) == cfg - (set x | x in exits && i <= x < |program.states|)
        invariant callbacks + ExitActions(exits * cfg, i) == old(callbacks) + ExitActions(exits * cfg, |program.states|)
      {
        i := i - 1;
        var leaving := BitHas(i, exitSet, Nb(program));
        var active := BitHas(i, config, Nb(program));
        if leaving && active {
          callbacks := callbacks + [OnExit(i)];
          BitClear(i, config, Nb(program));
        }
      }
      assert callbacks + [] == callbacks;
      assert forall x | x in cfg :: x < |program.states|;
    }

    method TakeTransitions(transSet: array<bv8>)
      requires Shaped() && IsTransitions(program, transSet)
      modifies this`callbacks
      ensures callbacks == old(callbacks) + TakeActions(Chart(), TransitionsIn(program, transSet), 0)
    {
      hide Members, Fits, Sized, StateSized, TransitionSized, DecodeRaw;
      ghost var trans := TransitionsIn(program, transSet);
      var j: nat := 0;
      while j < |program.transitions|
        invariant j <= |program.transitions|
        invariant callbacks + TakeActions(Chart(), trans, j) == old(callbacks) + TakeActions(Chart(), trans, 0)
      {
        assert Chart().transitions[j] == DecodeTransition(program, program.transitions[j]);
        var taken := BitHas(j, transSet, Tb(program));
        if taken && program.transitions[j].kind == Normal {
          callbacks := callbacks + [Taken(j)];
        }
        j := j + 1;
      }
      assert callbacks + [] == callbacks;
    }

    method TakeDefaults(transSet: array<bv8>, i: nat)
      requires Shaped() && IsTransitions(program, transSet)
      modifies this`callbacks
      ensures callbacks == old(callbacks) + DefaultActions(Chart(), TransitionsIn(program, transSet), i, 0)
    {
      hide Members, Fits, Sized, StateSized, TransitionSized, DecodeRaw;
      ghost var c, trans := Chart(), TransitionsIn(program, transSet);
      var j: nat := 0;
      while j < |program.transitions|
        invariant j <= |program.transitions|
        invariant callbacks + DefaultActions(c, trans, i, j) == old(callbacks) + DefaultActions(c, trans, i, 0)
      {
        var t := program.transitions[j];
        assert c.transitions[j] == DecodeTransition(program, t);
        assert t.source < Size(c) && c.states[t.source] == DecodeState(program, program.states[t.source]);
        var taken := BitHas(j, transSet, Tb(program));
        if taken && t.kind != Normal && program.states[t.source].parent == i {
          callbacks := callbacks + [Taken(j)];
        }
        j := j + 1;
      }
      assert callbacks + [] == callbacks;
    }

    method EnterState(i: nat, transSet: array<bv8>)
      requires Shaped() && IsTransitions(program, transSet) && i < |program.states|
      requires transSet !in {config, history, invocations, initializedData}
      modifies config, initializedData, this`flags, this`callbacks
      ensures TransitionsIn(program, transSet) == old(TransitionsIn(program, transSet))
      ensures flags == old(flags).(topLevelFinal := flags.topLevelFinal)
      ensures Entering(StatesIn(program, config), StatesIn(program, initializedData), flags.topLevelFinal, callbacks)
              == CEnterOne(Chart(), TransitionsIn(program, transSet),
                           Entering(old(StatesIn(program, config)), old(StatesIn(program, initializedData)),
                                    old(flags.topLevelFinal), old(callbacks)), i)
    {
      hide Members, Fits, DefaultActions;
      assert Chart().states[i] == DecodeState(program, program.states[i]);
      ghost var first := if i in StatesIn(program, initializedData) then [] else [InitData(i)];
      BitSetAt(i, config, Nb(program));
      var initialized := BitHas(i, initializedData, Nb(program));
      if !initialized {
        callbacks := callbacks + [InitData(i)];
        BitSetAt(i, initializedData, Nb(program));
      }
      assert StatesIn(program, initializedData) == old(StatesIn(program, initializedData)) + {i};
      assert callbacks == old(callbacks) + first;
      callbacks := callbacks + [OnEntry(i)];
      TakeDefaults(transSet, i);
      if program.states[i].kind == Final {
        FirstByte(program.states[i].ancestors, Nb(program));
        if program.states[i].ancestors[0] == 0x01 {
          flags := flags.(topLevelFinal := true);
        }
      }
    }

    method EnterStates(entrySet: array<bv8>, transSet: array<bv8>)
      requires Shaped() && IsTransitions(program, transSet) && IsStates(program, entrySet)
      requires transSet !in {config, history, invocations, initializedData}
      requires entrySet !in {config, history, invocations, initializedData}
      modifies config, initializedData, this`flags, this`callbacks
      ensures flags == old(flags).(topLevelFinal := flags.topLevelFinal)
      ensures Entering(StatesIn(program, config), StatesIn(program, initializedData), flags.topLevelFinal, callbacks)
              == CEnterFrom(Chart(), Entry(StatesIn(program, entrySet), TransitionsIn(program, transSet)),
                            Entering(old(StatesIn(program, config)), old(StatesIn(program, initializedData)),
                                     old(flags.topLevelFinal), old(callbacks)), 0)
    {
      hide Members, Fits, CEnterOne;
      ghost var c, e := Chart(), Entry(StatesIn(program, entrySet), TransitionsIn(program, transSet));
      ghost var start := Entering(StatesIn(program, config), StatesIn(program, initializedData), flags.topLevelFinal, callbacks);
      var i: nat := 0;
      while i < |program.states|
        invariant i <= |program.states|
        invariant e == Entry(StatesIn(program, entrySet), TransitionsIn(program, transSet))
        invariant flags == old(flags).(topLevelFinal := flags.topLevelFinal)
        invariant CEnterFrom(c, e, Entering(StatesIn(program, config), StatesIn(program, initializedData), flags.topLevelFinal, callbacks), i)
                  == CEnterFrom(c, e, start, 0)
      {
        assert c.states[i] == DecodeState(program, program.states[i]);
        var entering := BitHas(i, entrySet, Nb(program));
        var active := BitHas(i, config, Nb(program));
        if entering && !active {
          if !IsPseudoKind(program.states[i].kind) {
            EnterState(i, transSet);
          }
        }
        i := i + 1;
      }
    }

    // ---- Invocations ----

    method ManageState(i: nat)
      requires Shaped() && i < |program.states|
      modifies invocations, this`callbacks
      ensures forall k: nat :: k in StatesIn(program, invocations)
                <==> if k == i then k in StatesIn(program, config) else k in old(StatesIn(program, invocations))
      ensures callbacks == old(callbacks) + Manage(StatesIn(program, config), old(StatesIn(program, invocations)), i)
    {
      hide Members, Fits, Sized, DecodeRaw;
      var active := BitHas(i, config, Nb(program));
      var invoked := BitHas(i, invocations, Nb(program));
      if !active && invoked {
        callbacks := callbacks + [Uninvoke(i)];
        BitClear(i, invocations, Nb(program));
      }
      invoked := BitHas(i, invocations, Nb(program));
      if active && !invoked {
        callbacks := callbacks + [Invoke(i)];
        BitSetAt(i, invocations, Nb(program));
      }
    }

    method ManageInvocations()
      requires Shaped()
      modifies invocations, this`callbacks
      ensures Value() == Managed(Chart(), old(Value()))
      ensures callbacks == old(callbacks) + ManageFrom(Chart(), old(Value()).config, old(Value()).invocations, 0)
    {
      hide Members, Fits, Sized, StateSized, TransitionSized, DecodeRaw;
      ghost var c, was, cfg := Chart(), StatesIn(program, invocations), StatesIn(program, config);
      var i: nat := 0;
      while i < |program.states|
        invariant i <= |program.states|
        invariant Value() == old(Value()).(invocations := StatesIn(program, invocations))
        invariant forall k: nat :: k in StatesIn(program, invocations) <==> if k < i then k in cfg else k in was
        invariant callbacks + ManageFrom(c, cfg, was, i) == old(callbacks) + ManageFrom(c, cfg, was, 0)
      {
        ghost var invoked, acts := StatesIn(program, invocations), callbacks;
        ManageState(i);
        assert i in invoked <==> i in was;
        assert acts + Manage(cfg, was, i) + ManageFrom(c, cfg, was, i + 1) == acts + ManageFrom(c, cfg, was, i);
        i := i + 1;
      }
      assert callbacks + [] == callbacks;
      assert StatesIn(program, invocations) == (was - AllStates(c)) + cfg * AllStates(c) by {
        forall k: nat ensures k in StatesIn(program, invocations) <==> k in (was - AllStates(c)) + cfg * AllStates(c) {
          assert k < Size(c) ==> IsState(c, k);
        }
      }
    }

    method Shutdown()
      requires Shaped()
      modifies invocations, this`callbacks
      ensures Value() == old(Value()).(invocations := old(Value()).invocations - AllStates(Chart()))
      ensures callbacks == old(callbacks) + ShutdownActions(old(Value()).config, old(Value()).invocations, |program.states|)
    {
      hide Members, Fits, Sized, StateSized, TransitionSized, DecodeRaw;
      ghost var was, cfg := StatesIn(program, invocations), StatesIn(program, config);
      var i: nat := |program.states|;
      while i > 0
        invariant i <= |program.states| && StatesIn(program, config) == cfg
        invariant StatesIn(program, invocations) == was - (set x | x in was && i <= x < |program.states|)
        invariant callbacks + ShutdownActions(cfg, was, i) == old(callbacks) + ShutdownActions(cfg, was, |program.states|)
      {
        i := i - 1;
        var active := BitHas(i, config, Nb(program));
        if active {
          callbacks := callbacks + [OnExit(i)];
        }
        var invoked := BitHas(i, invocations, Nb(program));
        if invoked {
          callbacks := callbacks + [Uninvoke(i)];
          BitClear(i, invocations, Nb(program));
        }
      }
      assert callbacks + [] == callbacks;
      assert forall k: nat | k in was :: k < Size(Chart()) ==> IsState(Chart(), k);
    }

    // ---- The step ----

    /** From the targets to the next configuration. */
    method DoMicroStep(exitSet: array<bv8>, targetSet: array<bv8>, transSet: array<bv8>)
      requires Shaped() && Within(Chart(), Value())
      requires IsStates(program, exitSet) && IsStates(program, targetSet) && IsTransitions(program, transSet)
      requires exitSet !in {config, history, invocations, initializedData, transSet}
      requires transSet !in {config, history, invocations, initializedData}
      modifies config, initializedData, transSet, this`flags, this`callbacks
      ensures
        var o := CMicroStep(Chart(), old(Value()), StatesIn(program, exitSet), old(StatesIn(program, targetSet)),
                            old(TransitionsIn(program, transSet)));
        Value() == o.ctx && callbacks == old(callbacks) + o.actions
    {
      hide Members, Fits, Sized, StateSized, TransitionSized, DecodeRaw, CEnterFrom, Descend, Climb, ExitActions, TakeActions, AllStates;
      ghost var c, x, cbs, exits := Chart(), Value(), callbacks, StatesIn(program, exitSet);
      ghost var targets := StatesIn(program, targetSet);
      var entrySet := new bv8[program.stateBytes];
      BitCopy(entrySet, targetSet[..], Nb(program));
      assert StatesIn(program, entrySet) == targets;
      AddAncestors(program, entrySet);
      AddDescendants(program, config, history, exitSet, entrySet, transSet);
      ghost var e := Entry(StatesIn(program, entrySet), TransitionsIn(program, transSet));
      ExitStates(exitSet);
      TakeTransitions(transSet);
      ghost var first := ExitActions(exits * x.config, Size(c)) + TakeActions(c, e.trans, 0);
      assert callbacks == cbs + first;
      EnterStates(entrySet, transSet);
      CEnterAppends(c, e, Entering(x.config - exits, x.initializedData, x.flags.topLevelFinal, first), 0, cbs);
    }

    /** One call: takes events from `rounds` until a transition is found. */
    method Step(rounds: seq<Input>) returns (code: Code)
      requires Valid()
      modifies this, config, history, invocations, initializedData
      ensures Valid()
      ensures
        var o := CStep(Chart(), old(Value()), rounds);
        Value() == o.ctx && callbacks == old(callbacks) + o.actions && code == o.code
    {
      hide CMicroStep, Dequeue, ManageFrom, ShutdownActions, Members, Fits, Sized, DecodeRaw, AllStates;
      CStepWithin(Chart(), Value(), rounds);
      CStepStarts(Chart(), Value(), rounds);
      assert callbacks + [] == callbacks;
      if flags.finished {
        return Done;
      }
      if flags.topLevelFinal {
        Shutdown();
        flags := flags.(finished := true);
        return Done;
      }
      var targetSet := new bv8[program.stateBytes];
      var transSet := new bv8[program.transBytes];
      var exitSet := new bv8[program.stateBytes];
      BitClearAll(targetSet, Nb(program));
      BitClearAll(transSet, Tb(program));
      if flags == CPRISTINE {
        ghost var root := Chart().states[0].completion;
        assert Chart().states[0] == DecodeState(program, program.states[0]);
        BitOr(targetSet, program.states[0].completion, Nb(program));
        assert StatesIn(program, targetSet) == root;
        flags := flags.(spontaneous := true, initialized := true);
        GarbageExits(Chart(), Value(), StatesIn(program, exitSet), root);
        DoMicroStep(exitSet, targetSet, transSet);
        return Ok;
      }
      code := DequeueEvents(rounds, targetSet, transSet, exitSet);
    }

    /** Selects transitions and, if there are any, takes them. */
    method SelectAndTake(m: Stimulus, targetSet: array<bv8>, transSet: array<bv8>, exitSet: array<bv8>)
      returns (found: bool)
      requires Shaped() && Within(Chart(), Value())
      requires IsStates(program, exitSet) && IsStates(program, targetSet) && IsTransitions(program, transSet)
      requires exitSet !in {config, history, invocations, initializedData, transSet, targetSet}
      requires transSet !in {config, history, invocations, initializedData, targetSet}
      requires targetSet !in {config, history, invocations, initializedData}
      requires StatesIn(program, targetSet) == {} && TransitionsIn(program, transSet) == {}
      modifies this, config, history, initializedData, targetSet, transSet, exitSet
      ensures
        var sel := Select(Chart(), old(Value()).config, m);
        && (found <==> sel.trans != {})
        && (found ==> Value() == CSelected(Chart(), old(Value()), sel).ctx
                      && callbacks == old(callbacks) + CSelected(Chart(), old(Value()), sel).actions)
        && (!found ==> Value() == old(Value()) && callbacks == old(callbacks)
                       && StatesIn(program, targetSet) == {} && TransitionsIn(program, transSet) == {})
    {
      hide CMicroStep, Members, Fits, Sized, StateSized, TransitionSized, DecodeRaw, AllStates, Select, Remember;
      ghost var c, y := Chart(), Value();
      found := SelectTransitions(program, config, m, targetSet, transSet, exitSet);
      ghost var sel := Select(c, y.config, m);
      NothingTargeted(c, y.config, m);
      assert Value() == y;
      if found {
        flags := flags.(spontaneous := true);
        RememberHistory(program, config, history, exitSet);
        assert Value() == y.(flags := y.flags.(spontaneous := true), history := Remember(c, y.config, sel.exits * y.config, y.history, 0));
        RememberWithin(c, y.config, sel.exits * y.config, y.history, 0);
        DoMicroStep(exitSet, targetSet, transSet);
      }
    }

    /** Before looking at events from outside, invocations are brought up to date. */
    method BeginRound(r: Input) returns (idle: bool)
      requires Shaped()
      modifies invocations, this`callbacks
      ensures Value() == Ready(Chart(), old(Value()), r)
      ensures callbacks == old(callbacks) + RoundActions(Chart(), old(Value()), r)
      ensures idle <==> AtRest(old(Value()), r) && !r.external
    {
      hide ManageFrom, Members, Fits, Sized, DecodeRaw, AllStates;
      idle := false;
      assert callbacks + [] == callbacks;
      if !flags.spontaneous && !r.internal {
        ManageInvocations();
        idle := !r.external;
      }
    }

    method DoRound(r: Input, targetSet: array<bv8>, transSet: array<bv8>, exitSet: array<bv8>)
      returns (stop: bool, code: Code)
      requires Shaped() && Within(Chart(), Value())
      requires IsStates(program, exitSet) && IsStates(program, targetSet) && IsTransitions(program, transSet)
      requires exitSet !in {config, history, invocations, initializedData, transSet, targetSet}
      requires transSet !in {config, history, invocations, initializedData, targetSet}
      requires targetSet !in {config, history, invocations, initializedData}
      requires StatesIn(program, targetSet) == {} && TransitionsIn(program, transSet) == {}
      modifies this, config, history, invocations, initializedData, targetSet, transSet, exitSet
      ensures
        var (end, o) := RoundOf(Chart(), old(Value()), r);
        && stop == end && Value() == o.ctx && callbacks == old(callbacks) + o.actions && code == o.code
        && (!stop ==> StatesIn(program, targetSet) == {} && TransitionsIn(program, transSet) == {})
    {
      hide CSelected, Members, Fits, Sized, DecodeRaw, AllStates, Select, ManageFrom;
      ghost var c, x, cbs := Chart(), Value(), callbacks;
      var event := !flags.spontaneous;
      var idle := BeginRound(r);
      assert Within(c, Value());
      if idle {
        return true, IdleCode;
      }
      var found := SelectAndTake(Stimulus(event, r.matched, r.holds), targetSet, transSet, exitSet);
      if !found {
        flags := flags.(spontaneous := false);
      }
      return found, Ok;
    }

    method DequeueEvents(rounds: seq<Input>, targetSet: array<bv8>, transSet: array<bv8>, exitSet: array<bv8>)
      returns (code: Code)
      requires Shaped() && Within(Chart(), Value())
      requires IsStates(program, exitSet) && IsStates(program, targetSet) && IsTransitions(program, transSet)
      requires exitSet !in {config, history, invocations, initializedData, transSet, targetSet}
      requires transSet !in {config, history, invocations, initializedData, targetSet}
      requires targetSet !in {config, history, invocations, initializedData}
      requires StatesIn(program, targetSet) == {} && TransitionsIn(program, transSet) == {}
      modifies this, config, history, invocations, initializedData, targetSet, transSet, exitSet
      ensures
        var o := Dequeue(Chart(), old(Value()), rounds);
        Value() == o.ctx && callbacks == old(callbacks) + o.actions && code == o.code
    {
      hide Dequeue, RoundOf, Within, Prefixed, StatesIn, TransitionsIn, Decode, Fits, Members;
      ghost var c := Chart();
      ghost var before: seq<Action> := [];
      PrefixedEmpty(Dequeue(c, Value(), rounds));
      var rest := rounds;
      while true
        invariant Within(c, Value())
        invariant StatesIn(program, targetSet) == {} && TransitionsIn(program, transSet) == {}
        invariant callbacks == old(callbacks) + before
        invariant Prefixed(before, Dequeue(c, Value(), rest)) == Dequeue(c, old(Value()), rounds)
        decreases |rest|, flags.spontaneous
      {
        DequeueRound(c, Value(), rest, before);
        ghost var o := RoundOf(c, Value(), Head(rest)).1;
        var stop, result := DoRound(Head(rest), targetSet, transSet, exitSet);
        if stop {
          assert Dequeue(c, old(Value()), rounds) == Prefixed(before, o);
          PrefixedIs(before, o);
          return result;
        }
        before := before + o.actions;
        rest := Tail(rest);
      }
    }
  }

  lemma PrefixedEmpty(o: COutcome)
    ensures Prefixed([], o) == o
  {
    assert [] + o.actions == o.actions;
  }

  function Prefixed(before: seq<Action>, o: COutcome): COutcome {
    o.(actions := before + o.actions)
  }

  lemma PrefixedIs(before: seq<Action>, o: COutcome)
    ensures Prefixed(before, o) == COutcome(o.ctx, before + o.actions, o.code)
  {
  }

  /** One round, and whether it ends the call. */
  function RoundOf(c: Chart, x: Ctx, r: Input): (bool, COutcome) {
    var y := Ready(c, x, r);
    var sel := Select(c, y.config, StimulusOf(x, r));
    if AtRest(x, r) && !r.external then (true, COutcome(y, RoundActions(c, x, r), IdleCode))
    else if sel.trans != {} then (true, Prefixed(RoundActions(c, x, r), CSelected(c, y, sel)))
    else (false, COutcome(y.(flags := y.flags.(spontaneous := false)), RoundActions(c, x, r), Ok))
  }

  /** A call is its first round, and the rest of the call if that does not end it. */
  lemma DequeueRound(c: Chart, x: Ctx, rounds: seq<Input>, before: seq<Action>)
    requires Within(c, x)
    ensures
      var (stop, o) := RoundOf(c, x, Head(rounds));
      Prefixed(before, Dequeue(c, x, rounds))
      == if stop then Prefixed(before, o) else Prefixed(before + o.actions, Dequeue(c, o.ctx, Tail(rounds)))
    ensures
      var (stop, o) := RoundOf(c, x, Head(rounds));
      !stop ==> Within(c, o.ctx) && (|Tail(rounds)| < |rounds| || (|Tail(rounds)| == |rounds| && x.flags.spontaneous && !o.ctx.flags.spontaneous))
  {
    hide CSelected, Select, ManageFrom, AllStates;
  }

  /** Comparing the first byte with one asks which of the first eight are members. */
  lemma FirstByte(s: seq<bv8>, n: nat)
    requires 0 < n <= |s|
    ensures s[0] == 0x01 <==> (set a | a in Members(s, n) && a < 8) == {0}
  {
    var near := set a | a in Members(s, n) && a < 8;
    assert forall a: nat | a < 8 :: a in near <==> Bit(s[0], a) by {
      assert forall a: nat | a < 8 :: a / 8 == 0 && a % 8 == a;
    }
    OnlyFirst(s[0]);
    if s[0] == 0x01 {
      assert near == {0};
    } else if near == {0} {
      assert false;
    }
  }

  lemma OnlyFirst(b: bv8)
    ensures b == 0x01 <==> forall k: nat | k < 8 :: Bit(b, k) <==> k == 0
  {
    assert Bit(b, 0) || !Bit(b, 0);
    assert (forall k: nat | k < 8 :: Bit(b, k) <==> k == 0) ==>
      Bit(b, 0) && !Bit(b, 1) && !Bit(b, 2) && !Bit(b, 3) && !Bit(b, 4) && !Bit(b, 5) && !Bit(b, 6) && !Bit(b, 7);
  }

  lemma NothingTargeted(c: Chart, cfg: set<nat>, m: Stimulus)
    ensures Select(c, cfg, m).trans == {} ==> Select(c, cfg, m).targets == {}
  {
    SelectSpec(c, cfg, m);
  }

  /** Before the first call nothing is active, and it sets a flag. */
  predicate Started(x: Ctx) {
    if x.flags == CPRISTINE then x.config == {} else x.flags.initialized
  }

  lemma CStepStarts(c: Chart, x: Ctx, rounds: seq<Input>)
    requires Started(x)
    ensures Started(CStep(c, x, rounds).ctx)
  {
    if x.flags.finished || x.flags.topLevelFinal || x.flags == CPRISTINE {
    } else {
      DequeueStarted(c, x, rounds);
    }
  }

  lemma {:induction false} DequeueStarted(c: Chart, x: Ctx, rounds: seq<Input>)
    ensures Dequeue(c, x, rounds).ctx.flags.initialized == x.flags.initialized
    decreases |rounds|, x.flags.spontaneous
  {
    hide Select, CEnterFrom;
    var r := Head(rounds);
    var y := Ready(c, x, r);
    if !(AtRest(x, r) && !r.external) && Select(c, y.config, StimulusOf(x, r)).trans == {} {
      DequeueStarted(c, y.(flags := y.flags.(spontaneous := false)), Tail(rounds));
    }
  }

  /** A run on the byte arrays: whatever happens outside, the bits set in `config` form a
      legal configuration, and on charts in order the callbacks are the interpreter's. */
  method RunProgram(p: Program, ghost c: Chart, calls: seq<seq<Input>>) returns (x: Context)
    requires Fits(p) && Decode(p) == Generated(c)
    ensures fresh(x) && x.Valid() && x.program == p
    ensures x.Value() == CRun(Generated(c), calls) && x.callbacks == CTrace(Generated(c), calls)
    ensures CChartOk(c) && x.flags.initialized ==> Legal(c, StatesIn(p, x.config))
    ensures ChartOk(c) && FinalsFit(c) ==> x.callbacks == Shown(Trace(c, InterpreterRun(c, calls)))
  {
    hide CStep, Legal, HistoryLegal, ChartOk, CChartOk, FinalsFit, Generated, InterpreterRun, Shown, Trace, Within, StatesIn, Decode, Fits, Members;
    x := new Context(p);
    var i := 0;
    while i < |calls|
      invariant 0 <= i <= |calls|
      invariant fresh(x) && fresh(x.config) && fresh(x.history) && fresh(x.invocations) && fresh(x.initializedData)
      invariant x.Valid() && x.program == p && x.Chart() == Generated(c)
      invariant x.Value() == CRun(Generated(c), calls[..i]) && x.callbacks == CTrace(Generated(c), calls[..i])
    {
      var code := x.Step(calls[i]);
      assert calls[..i + 1][..i] == calls[..i];
      i := i + 1;
    }
    assert calls[..|calls|] == calls;
    if CChartOk(c) { GeneratedCodeIsLegal(c, calls); }
    if ChartOk(c) && FinalsFit(c) { GeneratedCodeRefines(c, calls); }
  }
}
