/** Which executable content a microstep runs, how often and in which order: exit
    handlers, the content of transitions, data initialization and entry handlers. */
module ContentOrder {
  import opened Charts
  import opened EntrySets
  import opened Transitions
  import opened MicroSteps
  import opened Stepping
  import opened HandlerOrder
  import opened Histories
  import opened GeneratedCode
  import opened GeneratedLegality

  // ---- Which default transitions a pass takes ----

  /** Resolving the pseudo-state `i` takes transition `j`: any transition of an
      `<initial>` element, the first one of a history state without a record. */
  predicate TakesAt(c: Chart, cfg: set<nat>, hist: set<nat>, i: nat, j: nat)
    requires i < Size(c)
  {
    && j < |c.transitions| && c.transitions[j].source == i
    && (c.states[i].kind == Initial
        || (IsHistory(c, i) && TakesDefault(c, cfg, hist, i) && forall l | 0 <= l < j :: c.transitions[l].source != i))
  }

  /** The pass from state `k` on meets the pseudo-state that `j` belongs to and takes `j`. */
  predicate TakesFrom(c: Chart, cfg: set<nat>, hist: set<nat>, exits: set<nat>, e: Entry, k: nat, j: nat)
    decreases Size(c) - k
  {
    k < Size(c) &&
    ((k in e.states && TakesAt(c, cfg, hist, k, j))
     || TakesFrom(c, cfg, hist, exits, if k in e.states then Resolve(c, cfg, hist, exits, e, k) else e, k + 1, j))
  }

  /** The default transitions taken when entering `targets`. */
  function DefaultsTaken(c: Chart, cfg: set<nat>, hist: set<nat>, exits: set<nat>, e: Entry): set<nat> {
    set j | 0 <= j < |c.transitions| && TakesFrom(c, cfg, hist, exits, e, 0, j)
  }

  /** Transitions of pseudo-states, and only these, are marked as such. */
  predicate KindsMatch(c: Chart) {
    forall j | 0 <= j < |c.transitions| ::
      c.transitions[j].source < Size(c)
      && (c.transitions[j].kind == Normal <==> !IsPseudoKind(c.states[c.transitions[j].source].kind))
  }

  lemma TableKinds(c: Chart)
    requires TransitionsOk(c)
    ensures KindsMatch(c)
  {
    forall j: nat | j < |c.transitions|
      ensures c.transitions[j].source < Size(c)
              && (c.transitions[j].kind == Normal <==> !IsPseudoKind(c.states[c.transitions[j].source].kind))
    {
      assert TransitionTableAt(c, j);
    }
  }

  lemma {:induction false} InitialTakes(c: Chart, e: Entry, i: nat, j: nat, l: nat)
    requires j <= |c.transitions|
    ensures l in ResolveInitial(c, e, i, j).trans <==> l in e.trans || (j <= l < |c.transitions| && c.transitions[l].source == i)
    decreases |c.transitions| - j
  {
    if j < |c.transitions| {
      if c.transitions[j].source == i {
        var t := c.transitions[j].target;
        InitialTakes(c, Entry(e.states - {i} + t + TargetAncestors(c, t, i + 1), e.trans + {j}), i, j + 1, l);
      } else {
        InitialTakes(c, e, i, j + 1, l);
      }
    }
  }

  lemma ResolveTakes(c: Chart, cfg: set<nat>, hist: set<nat>, exits: set<nat>, e: Entry, i: nat, j: nat)
    requires i < Size(c)
    ensures j in Resolve(c, cfg, hist, exits, e, i).trans <==> j in e.trans || TakesAt(c, cfg, hist, i, j)
  {
    match c.states[i].kind
    case Initial => InitialTakes(c, e, i, 0, j);
    case Atomic =>
    case Final =>
    case Parallel =>
    case Compound =>
    case HistoryDeep =>
    case HistoryShallow =>
  }

  lemma {:induction false} PassTakes(c: Chart, cfg: set<nat>, hist: set<nat>, exits: set<nat>, e: Entry, k: nat, j: nat)
    ensures j in Descend(c, cfg, hist, exits, e, k).trans <==> j in e.trans || TakesFrom(c, cfg, hist, exits, e, k, j)
    decreases Size(c) - k
  {
    hide Resolve, TakesAt;
    if k < Size(c) {
      if k in e.states {
        ResolveTakes(c, cfg, hist, exits, e, k, j);
        PassTakes(c, cfg, hist, exits, Resolve(c, cfg, hist, exits, e, k), k + 1, j);
      } else {
        PassTakes(c, cfg, hist, exits, e, k + 1, j);
      }
    }
  }

  lemma {:induction false} TakenIsDefault(c: Chart, cfg: set<nat>, hist: set<nat>, exits: set<nat>, e: Entry, k: nat, j: nat)
    requires KindsMatch(c) && TakesFrom(c, cfg, hist, exits, e, k, j)
    ensures j < |c.transitions| && c.transitions[j].kind != Normal
    decreases Size(c) - k
  {
    hide Resolve;
    if !(k in e.states && TakesAt(c, cfg, hist, k, j)) {
      TakenIsDefault(c, cfg, hist, exits, if k in e.states then Resolve(c, cfg, hist, exits, e, k) else e, k + 1, j);
    }
  }

  // ---- The content a microstep should run ----

  function Takings(l: seq<nat>): (r: seq<Action>)
    ensures |r| == |l| && forall i | 0 <= i < |l| :: r[i] == Taken(l[i])
  {
    seq(|l|, i requires 0 <= i < |l| => Taken(l[i]))
  }

  function Leavings(l: seq<nat>): (r: seq<Action>)
    ensures |r| == |l| && forall i | 0 <= i < |l| :: r[i] == OnExit(l[i])
  {
    seq(|l|, i requires 0 <= i < |l| => OnExit(l[i]))
  }

  /** The transitions among `used` of pseudo-states directly below `i`. */
  function DefaultsBelow(c: Chart, used: set<nat>, i: nat): set<nat> {
    set j | j in used && 0 <= j < |c.transitions| && c.transitions[j].source < Size(c) && c.states[c.transitions[j].source].parent == i
  }

  /** Entering `i`: its data if they are new, its entry handler, the default content below it. */
  function Arrival(c: Chart, used: set<nat>, unset: set<nat>, i: nat): seq<Action> {
    (if i in unset then [InitData(i)] else []) + [OnEntry(i)] + Takings(Listing(DefaultsBelow(c, used, i), |c.transitions|, 0))
  }

  function Arrivals(c: Chart, newly: set<nat>, used: set<nat>, unset: set<nat>, i: nat): seq<Action>
    decreases Size(c) - i
  {
    if i >= Size(c) then []
    else (if i in newly then Arrival(c, used, unset, i) else []) + Arrivals(c, newly, used, unset, i + 1)
  }

  /** All content in its order. */
  function Expected(c: Chart, exits: set<nat>, trans: set<nat>, newly: set<nat>, used: set<nat>, unset: set<nat>): seq<Action> {
    Leavings(Reversed(Listing(exits, Size(c), 0))) + Takings(Listing(trans, |c.transitions|, 0))
    + Arrivals(c, newly, used, unset, 0)
  }

  predicate IsContent(a: Action) {
    a.OnExit? || a.Taken? || a.InitData? || a.OnEntry?
  }

  /** The content among the actions of a log. */
  function Content(log: seq<Action>): seq<Action> {
    if log == [] then [] else (if IsContent(log[0]) then [log[0]] else []) + Content(log[1..])
  }

  lemma {:induction false} ContentJoins(a: seq<Action>, b: seq<Action>)
    ensures Content(a + b) == Content(a) + Content(b)
    decreases |a|
  {
    hide IsContent;
    if a == [] {
      assert a + b == b;
    } else {
      var first := if IsContent(a[0]) then [a[0]] else [];
      assert (a + b)[1..] == a[1..] + b;
      ContentJoins(a[1..], b);
      assert first + (Content(a[1..]) + Content(b)) == first + Content(a[1..]) + Content(b);
    }
  }

  lemma {:induction false} ContentAll(log: seq<Action>)
    requires forall a | a in log :: IsContent(a)
    ensures Content(log) == log
    decreases |log|
  {
    if log != [] { ContentAll(log[1..]); }
  }

  lemma {:induction false} ContentNone(log: seq<Action>)
    requires forall a | a in log :: !IsContent(a)
    ensures Content(log) == []
    decreases |log|
  {
    if log != [] { ContentNone(log[1..]); }
  }

  lemma {:induction false} DoneNoContent(c: Chart, cfg: set<nat>, s: nat)
    requires s < Size(c)
    ensures forall a | a in DoneAbove(c, cfg, s) :: !IsContent(a)
    decreases s
  {
    if s != 0 && IsParallel(c, Parent(c, s)) { DoneNoContent(c, cfg, Parent(c, s)); }
  }

  // ---- Leaving, taking, defaults ----

  lemma TakingsJoin(a: seq<nat>, b: seq<nat>)
    ensures Takings(a + b) == Takings(a) + Takings(b) && Leavings(a + b) == Leavings(a) + Leavings(b)
  {
  }

  lemma {:induction false} LeavesInOrder(s: set<nat>, n: nat)
    ensures ExitActions(s, n) == Leavings(Reversed(Listing(s, n, 0)))
    decreases n
  {
    if n > 0 {
      LeavesInOrder(s, n - 1);
      ListingEnds(s, n - 1, 0);
      if n - 1 in s {
        ReversedEnds(Listing(s, n - 1, 0), n - 1);
        TakingsJoin([n - 1], Reversed(Listing(s, n - 1, 0)));
        assert Leavings([n - 1]) == [OnExit(n - 1)];
      } else {
        assert Listing(s, n - 1, 0) + [] == Listing(s, n - 1, 0);
        assert [] + ExitActions(s, n - 1) == ExitActions(s, n - 1);
      }
    }
  }

  lemma {:induction false} TakesInOrder(c: Chart, tr: set<nat>, trans: set<nat>, j: nat)
    requires forall k: nat | k < |c.transitions| :: k in trans <==> k in tr && c.transitions[k].kind == Normal
    ensures TakeActions(c, tr, j) == Takings(Listing(trans, |c.transitions|, j))
    decreases |c.transitions| - j
  {
    if j < |c.transitions| {
      TakesInOrder(c, tr, trans, j + 1);
      var first := if j in trans then [j] else [];
      TakingsJoin(first, Listing(trans, |c.transitions|, j + 1));
      assert Takings(first) == if j in trans then [Taken(j)] else [];
    } else {
      assert Takings([]) == [];
    }
  }

  lemma {:induction false} DefaultsInOrder(c: Chart, tr: set<nat>, used: set<nat>, i: nat, j: nat)
    requires forall k: nat | k < |c.transitions| :: k in used <==> k in tr && c.transitions[k].kind != Normal
    ensures DefaultActions(c, tr, i, j) == Takings(Listing(DefaultsBelow(c, used, i), |c.transitions|, j))
    decreases |c.transitions| - j
  {
    if j < |c.transitions| {
      DefaultsInOrder(c, tr, used, i, j + 1);
      var here := j in DefaultsBelow(c, used, i);
      var first := if here then [j] else [];
      TakingsJoin(first, Listing(DefaultsBelow(c, used, i), |c.transitions|, j + 1));
      assert Takings(first) == if here then [Taken(j)] else [];
    } else {
      assert Takings([]) == [];
    }
  }

  // ---- Entering ----

  lemma EntryContent(c: Chart, e: Entry, used: set<nat>, s: Entering, unset: set<nat>, i: nat)
    requires i < Size(c) && (i in unset <==> i !in s.initializedData)
    requires forall k: nat | k < |c.transitions| :: k in used <==> k in e.trans && c.transitions[k].kind != Normal
    ensures Content(EnterOne(c, e.trans, s, i).actions) == Content(s.actions) + Arrival(c, used, unset, i)
  {
    hide Content, DefaultActions, DoneActions, Takings;
    DefaultsInOrder(c, e.trans, used, i, 0);
    var own := (if i in s.initializedData then [] else [InitData(i)]) + [OnEntry(i)] + DefaultActions(c, e.trans, i, 0);
    var done := DoneActions(c, s.configuration + {i}, i);
    assert own == Arrival(c, used, unset, i);
    ContentAll(own);
    NoContentDone(c, s.configuration + {i}, i);
    ContentNone(done);
    ContentJoins(s.actions, own);
    ContentJoins(s.actions + own, done);
    assert EnterOne(c, e.trans, s, i).actions == s.actions + own + done;
    assert Content(s.actions) + own + [] == Content(s.actions) + own;
  }

  lemma NoContentDone(c: Chart, cfg: set<nat>, i: nat)
    requires i < Size(c)
    ensures forall a | a in DoneActions(c, cfg, i) :: !IsContent(a)
  {
    if i != 0 { DoneNoContent(c, cfg, Parent(c, i)); }
  }

  lemma {:induction false} SameArrivals(c: Chart, a: set<nat>, b: set<nat>, used: set<nat>, u: set<nat>, v: set<nat>, i: nat)
    requires forall x: nat | i <= x :: (x in a <==> x in b) && (x in a ==> (x in u <==> x in v))
    ensures Arrivals(c, a, used, u, i) == Arrivals(c, b, used, v, i)
    decreases Size(c) - i
  {
    if i < Size(c) { SameArrivals(c, a, b, used, u, v, i + 1); }
  }

  lemma EnteredOne(c: Chart, trans: set<nat>, s: Entering, i: nat)
    requires i < Size(c)
    ensures
      var t := EnterOne(c, trans, s, i);
      t.configuration == s.configuration + {i} && t.initializedData == s.initializedData + {i}
  {
  }

  lemma {:induction false} EnteringContent(c: Chart, e: Entry, used: set<nat>, s: Entering, i: nat)
    requires forall k: nat | k < |c.transitions| :: k in used <==> k in e.trans && c.transitions[k].kind != Normal
    ensures
      var newly := Newly(c, e.states, s.configuration);
      Content(EnterFrom(c, e, s, i).actions) == Content(s.actions) + Arrivals(c, newly, used, newly - s.initializedData, i)
    decreases Size(c) - i
  {
    hide Content, Arrival, EnterOne;
    var newly := Newly(c, e.states, s.configuration);
    var unset := newly - s.initializedData;
    if i >= Size(c) {
      assert Content(s.actions) + [] == Content(s.actions);
    } else if i in e.states && i !in s.configuration && Proper(c, i) {
      var t := EnterOne(c, e.trans, s, i);
      EntryContent(c, e, used, s, unset, i);
      EnteringContent(c, e, used, t, i + 1);
      EnteredOne(c, e.trans, s, i);
      var later := Newly(c, e.states, t.configuration);
      SameArrivals(c, later, newly, used, later - t.initializedData, unset, i + 1);
    } else {
      EnteringContent(c, e, used, s, i + 1);
    }
  }

  // ---- Microsteps ----

  /** A microstep runs exactly this content: the exit handlers of the states it leaves,
      innermost first; the content of the normal transitions, in table order; and for
      every state it enters, in document order, its data if they are new, its entry
      handler, and the content of the default transitions taken directly below it. */
  lemma MicroStepContent(c: Chart, st: Stepper, exits: set<nat>, targets: set<nat>, trans: set<nat>)
    requires KindsMatch(c) && exits <= st.configuration
    requires forall j | j in trans :: j < |c.transitions| && c.transitions[j].kind == Normal
    ensures
      var o := MicroStep(c, st, exits, targets, trans);
      var newly := o.stepper.configuration - (st.configuration - exits);
      var used := DefaultsTaken(c, st.configuration, st.history, exits, Entry(WithAncestors(c, targets), trans));
      Content(o.actions) == Expected(c, exits, trans, newly, used, newly - st.initializedData)
  {
    hide Content, Descend, TakesFrom, EnterFrom, ExitActions, TakeActions, Arrivals;
    var cfg := st.configuration;
    var e0 := Entry(WithAncestors(c, targets), trans);
    var e := Descend(c, cfg, st.history, exits, e0, 0);
    var used := DefaultsTaken(c, cfg, st.history, exits, e0);
    TakenSplit(c, cfg, st.history, exits, e0);
    assert exits * cfg == exits;
    var leaving, taking := ExitActions(exits, Size(c)), TakeActions(c, e.trans, 0);
    LeavesInOrder(exits, Size(c));
    TakesInOrder(c, e.trans, trans, 0);
    ContentAll(leaving + taking);
    var s := Entering(cfg - exits, st.initializedData, st.flags.topLevelFinal, leaving + taking);
    EnteringContent(c, e, used, s, 0);
    EnteredConfiguration(c, e, s, 0);
    var newly := Newly(c, e.states, cfg - exits);
    assert EnterFrom(c, e, s, 0).configuration - (cfg - exits) == newly;
  }

  /** What the pass has collected: the selected transitions and the defaults taken. */
  lemma TakenSplit(c: Chart, cfg: set<nat>, hist: set<nat>, exits: set<nat>, e0: Entry)
    requires KindsMatch(c) && forall j | j in e0.trans :: j < |c.transitions| && c.transitions[j].kind == Normal
    ensures
      var tr := Descend(c, cfg, hist, exits, e0, 0).trans;
      var used := DefaultsTaken(c, cfg, hist, exits, e0);
      forall k: nat | k < |c.transitions| ::
        && (k in e0.trans <==> k in tr && c.transitions[k].kind == Normal)
        && (k in used <==> k in tr && c.transitions[k].kind != Normal)
  {
    hide Descend, TakesFrom;
    var tr := Descend(c, cfg, hist, exits, e0, 0).trans;
    forall k: nat | k < |c.transitions|
      ensures k in e0.trans <==> k in tr && c.transitions[k].kind == Normal
      ensures k in DefaultsTaken(c, cfg, hist, exits, e0) <==> k in tr && c.transitions[k].kind != Normal
    {
      PassTakes(c, cfg, hist, exits, e0, 0, k);
      if TakesFrom(c, cfg, hist, exits, e0, 0, k) { TakenIsDefault(c, cfg, hist, exits, e0, 0, k); }
    }
  }

  /** A step that selects transitions runs this content for them. */
  lemma SelectionContent(c: Chart, st: Stepper, m: Stimulus)
    requires TransitionsOk(c) && Select(c, st.configuration, m).trans != {}
    ensures
      var sel := Select(c, st.configuration, m);
      var exits := sel.exits * st.configuration;
      var o := SelectAndStep(c, st, m);
      var newly := o.stepper.configuration - (st.configuration - exits);
      var used := DefaultsTaken(c, st.configuration, o.stepper.history, exits, Entry(WithAncestors(c, sel.targets), sel.trans));
      Content(o.actions) == Expected(c, exits, sel.trans, newly, used, newly - st.initializedData)
  {
    hide MicroStep, Content, DefaultsTaken, Expected, Select;
    var sel := Select(c, st.configuration, m);
    var exits := sel.exits * st.configuration;
    SelectSpec(c, st.configuration, m);
    TableKinds(c);
    var woken := st.(flags := st.flags.(stable := false, spontaneous := true),
                     history := Remember(c, st.configuration, exits, st.history, 0));
    MicroStepContent(c, woken, exits, sel.targets, sel.trans);
    HistoryKept(c, woken, exits, sel.targets, sel.trans);
  }

  lemma HistoryKept(c: Chart, st: Stepper, exits: set<nat>, targets: set<nat>, trans: set<nat>)
    ensures MicroStep(c, st, exits, targets, trans).stepper.history == st.history
  {
  }

  /** The first microstep leaves nothing and takes no normal transition. */
  lemma FirstContent(c: Chart, st: Stepper)
    requires TransitionsOk(c) && st.configuration == {}
    ensures
      var o := MicroStep(c, st, {}, c.states[0].completion, {});
      var used := DefaultsTaken(c, {}, st.history, {}, Entry(WithAncestors(c, c.states[0].completion), {}));
      Content(o.actions) == Expected(c, {}, {}, o.stepper.configuration, used, o.stepper.configuration - st.initializedData)
  {
    hide MicroStep, Content, DefaultsTaken, Expected;
    TableKinds(c);
    MicroStepContent(c, st, {}, c.states[0].completion, {});
    var n := MicroStep(c, st, {}, c.states[0].completion, {}).stepper.configuration;
    assert n - (st.configuration - {}) == n;
  }

  // ---- What the order means ----

  /** How often `a` occurs. */
  function Times(log: seq<Action>, a: Action): nat {
    multiset(log)[a]
  }

  lemma TimesJoin(x: seq<Action>, y: seq<Action>, a: Action)
    ensures Times(x + y, a) == Times(x, a) + Times(y, a)
  {
  }

  lemma NeverIn(log: seq<Action>, a: Action)
    requires a !in log
    ensures Times(log, a) == 0
  {
    assert a !in multiset(log);
  }

  lemma {:induction false} ContentTimes(log: seq<Action>, a: Action)
    requires IsContent(a)
    ensures Times(Content(log), a) == Times(log, a)
    decreases |log|
  {
    if log != [] {
      ContentTimes(log[1..], a);
      assert log == [log[0]] + log[1..];
      TimesJoin([log[0]], log[1..], a);
      TimesJoin(if IsContent(log[0]) then [log[0]] else [], Content(log[1..]), a);
    }
  }

  lemma OneTaking(i: nat, j: nat, here: bool)
    ensures Times(Takings(if here then [i] else []), Taken(j)) == if here && i == j then 1 else 0
  {
    assert Takings(if here then [i] else []) == if here then [Taken(i)] else [];
  }

  lemma {:induction false} TakingsTimes(s: set<nat>, n: nat, i: nat, j: nat)
    ensures Times(Takings(Listing(s, n, i)), Taken(j)) == if j in s && i <= j < n then 1 else 0
    decreases n - i
  {
    hide Times, Takings;
    if i < n {
      TakingsTimes(s, n, i + 1, j);
      var first := if i in s then [i] else [];
      OneTaking(i, j, i in s);
      TakingsJoin(first, Listing(s, n, i + 1));
      TimesJoin(Takings(first), Takings(Listing(s, n, i + 1)), Taken(j));
    } else {
      OneTaking(i, j, false);
    }
  }

  /** The state whose arrival runs default transition `j`. */
  predicate RunsBelow(c: Chart, j: nat, i: nat) {
    j < |c.transitions| && c.transitions[j].source < Size(c) && c.states[c.transitions[j].source].parent == i
  }

  lemma ArrivalTimes(c: Chart, used: set<nat>, unset: set<nat>, i: nat, j: nat)
    ensures Times(Arrival(c, used, unset, i), Taken(j)) == if j in used && RunsBelow(c, j, i) then 1 else 0
    ensures Times(Arrival(c, used, unset, i), InitData(j)) == if j == i && i in unset then 1 else 0
  {
    hide Takings, Listing;
    var first := (if i in unset then [InitData(i)] else []) + [OnEntry(i)];
    var rest := Takings(Listing(DefaultsBelow(c, used, i), |c.transitions|, 0));
    TimesJoin(first, rest, Taken(j));
    TimesJoin(first, rest, InitData(j));
    TakingsTimes(DefaultsBelow(c, used, i), |c.transitions|, 0, j);
    NeverIn(rest, InitData(j));
    NeverIn(first, Taken(j));
  }

  lemma {:induction false} ArrivalsTimes(c: Chart, newly: set<nat>, used: set<nat>, unset: set<nat>, i: nat, j: nat)
    ensures Times(Arrivals(c, newly, used, unset, i), Taken(j))
            == if j in used && exists k: nat :: k in newly && i <= k < Size(c) && RunsBelow(c, j, k) then 1 else 0
    ensures Times(Arrivals(c, newly, used, unset, i), InitData(j))
            == if j in newly && j in unset && i <= j < Size(c) then 1 else 0
    decreases Size(c) - i
  {
    hide Arrival, Times;
    if i >= Size(c) {
      NeverIn([], Taken(j));
      NeverIn([], InitData(j));
    } else {
      var first := if i in newly then Arrival(c, used, unset, i) else [];
      var rest := Arrivals(c, newly, used, unset, i + 1);
      ArrivalsTimes(c, newly, used, unset, i + 1, j);
      ArrivalTimes(c, used, unset, i, j);
      NeverIn([], Taken(j));
      NeverIn([], InitData(j));
      TimesJoin(first, rest, Taken(j));
      TimesJoin(first, rest, InitData(j));
      if k: nat :| k in newly && i <= k < Size(c) && RunsBelow(c, j, k) {
        assert k == i || i + 1 <= k;
      }
    }
  }

  lemma {:induction false} ArrivalsKinds(c: Chart, newly: set<nat>, used: set<nat>, unset: set<nat>, i: nat)
    ensures forall a | a in Arrivals(c, newly, used, unset, i) ::
              a.InitData? || a.OnEntry? || (a.Taken? && a.transition in used)
    decreases Size(c) - i
  {
    hide Arrival;
    if i < Size(c) {
      ArrivalsKinds(c, newly, used, unset, i + 1);
      ArrivalKinds(c, used, unset, i);
    }
  }

  lemma ArrivalKinds(c: Chart, used: set<nat>, unset: set<nat>, i: nat)
    ensures forall a | a in Arrival(c, used, unset, i) :: a.InitData? || a.OnEntry? || (a.Taken? && a.transition in used)
  {
    hide Listing;
    ListingSpec(DefaultsBelow(c, used, i), |c.transitions|, 0);
    var l := Listing(DefaultsBelow(c, used, i), |c.transitions|, 0);
    forall a | a in Takings(l) ensures a.Taken? && a.transition in used {
      var k :| 0 <= k < |l| && Takings(l)[k] == a;
      assert l[k] in l;
    }
  }

  /** The content in its order runs every normal transition of `trans` once and every
      default transition of `used` once if the state above its pseudo-state is entered,
      and initializes the data of every state entered with new data once; nothing else. */
  lemma ExpectedTimes(c: Chart, exits: set<nat>, trans: set<nat>, newly: set<nat>, used: set<nat>, unset: set<nat>, j: nat)
    requires newly <= AllStates(c)
    ensures
      var log := Expected(c, exits, trans, newly, used, unset);
      && Times(log, Taken(j)) == (if j in trans && j < |c.transitions| then 1 else 0)
                                 + (if j in used && exists k: nat :: k in newly && RunsBelow(c, j, k) then 1 else 0)
      && Times(log, InitData(j)) == if j in newly && j in unset then 1 else 0
  {
    hide Times, Listing, Arrivals;
    var leaving, taking, arriving := Leavings(Reversed(Listing(exits, Size(c), 0))), Takings(Listing(trans, |c.transitions|, 0)),
        Arrivals(c, newly, used, unset, 0);
    TimesJoin(leaving, taking, Taken(j));
    TimesJoin(leaving + taking, arriving, Taken(j));
    TimesJoin(leaving, taking, InitData(j));
    TimesJoin(leaving + taking, arriving, InitData(j));
    NeverIn(leaving, Taken(j));
    NeverIn(leaving, InitData(j));
    NeverIn(taking, InitData(j));
    TakingsTimes(trans, |c.transitions|, 0, j);
    ArrivalsTimes(c, newly, used, unset, 0, j);
    assert forall k | k in newly :: 0 <= k < Size(c);
  }

  /** Where normal content stands: behind every exit handler, before every entry handler
      and all data, and in table order. */
  lemma ExpectedOrder(c: Chart, exits: set<nat>, trans: set<nat>, newly: set<nat>, used: set<nat>, unset: set<nat>, p: nat, q: nat)
    requires trans !! used
    requires p < |Expected(c, exits, trans, newly, used, unset)| && q < |Expected(c, exits, trans, newly, used, unset)|
    requires Expected(c, exits, trans, newly, used, unset)[p].Taken?
    requires Expected(c, exits, trans, newly, used, unset)[p].transition in trans
    ensures
      var log := Expected(c, exits, trans, newly, used, unset);
      && (log[q].OnExit? ==> q < p)
      && (log[q].OnEntry? || log[q].InitData? || (log[q].Taken? && log[q].transition in used) ==> p < q)
      && (log[q].Taken? && log[q].transition in trans ==> (p < q <==> log[p].transition < log[q].transition))
  {
    hide Listing, Arrivals;
    var leaving, taking, arriving := Leavings(Reversed(Listing(exits, Size(c), 0))), Takings(Listing(trans, |c.transitions|, 0)),
        Arrivals(c, newly, used, unset, 0);
    var log := leaving + taking + arriving;
    ArrivalsKinds(c, newly, used, unset, 0);
    ListingSpec(trans, |c.transitions|, 0);
    var l := Listing(trans, |c.transitions|, 0);
    SegmentOf(leaving, taking, arriving, p);
    SegmentOf(leaving, taking, arriving, q);
    assert |leaving| <= p < |leaving| + |taking| && log[p] == Taken(l[p - |leaving|]);
    if |leaving| <= q < |leaving| + |taking| {
      assert log[q] == Taken(l[q - |leaving|]);
    }
  }

  lemma SegmentOf(a: seq<Action>, b: seq<Action>, d: seq<Action>, p: nat)
    requires p < |a + b + d|
    ensures p < |a| ==> (a + b + d)[p] == a[p]
    ensures |a| <= p < |a| + |b| ==> (a + b + d)[p] == b[p - |a|]
    ensures |a| + |b| <= p ==> (a + b + d)[p] == d[p - |a| - |b|] && (a + b + d)[p] in d
  {
  }

  /** `log[p]` belongs to the arrival of `k`: its entry handler stands before, with
      nothing but content of default transitions in between. */
  predicate FollowsEntry(log: seq<Action>, p: nat, k: nat)
    requires p < |log|
  {
    exists r | 0 <= r < p :: log[r] == OnEntry(k) && forall s | r < s < p :: log[s].Taken?
  }

  lemma FollowsLater(a: seq<Action>, b: seq<Action>, p: nat, k: nat)
    requires p < |b| && FollowsEntry(b, p, k)
    ensures FollowsEntry(a + b, |a| + p, k)
  {
    var r :| 0 <= r < p && b[r] == OnEntry(k) && forall s | r < s < p :: b[s].Taken?;
    assert (a + b)[|a| + r] == OnEntry(k);
    forall s | |a| + r < s < |a| + p ensures (a + b)[s].Taken? { assert (a + b)[s] == b[s - |a|]; }
  }

  lemma FollowsEarlier(a: seq<Action>, b: seq<Action>, p: nat, k: nat)
    requires p < |a| && FollowsEntry(a, p, k)
    ensures FollowsEntry(a + b, p, k)
  {
    var r :| 0 <= r < p && a[r] == OnEntry(k) && forall s | r < s < p :: a[s].Taken?;
    assert (a + b)[r] == OnEntry(k);
    forall s | r < s < p ensures (a + b)[s].Taken? { assert (a + b)[s] == a[s]; }
  }

  lemma ArrivalFollows(c: Chart, used: set<nat>, unset: set<nat>, i: nat, p: nat)
    requires p < |Arrival(c, used, unset, i)| && Arrival(c, used, unset, i)[p].Taken?
    ensures FollowsEntry(Arrival(c, used, unset, i), p, i)
    ensures RunsBelow(c, Arrival(c, used, unset, i)[p].transition, i)
  {
    hide Listing;
    ListingSpec(DefaultsBelow(c, used, i), |c.transitions|, 0);
    var log := Arrival(c, used, unset, i);
    var l := Listing(DefaultsBelow(c, used, i), |c.transitions|, 0);
    var n := if i in unset then 1 else 0;
    assert log[n] == OnEntry(i) && forall s | n < s < |log| :: log[s] == Taken(l[s - n - 1]);
    assert log[p].transition in l;
  }

  /** Content of default transitions follows the entry handler of the state above. */
  lemma {:induction false} ArrivalsFollow(c: Chart, newly: set<nat>, used: set<nat>, unset: set<nat>, i: nat, p: nat)
    requires p < |Arrivals(c, newly, used, unset, i)| && Arrivals(c, newly, used, unset, i)[p].Taken?
    ensures
      var log := Arrivals(c, newly, used, unset, i);
      exists k: nat :: RunsBelow(c, log[p].transition, k) && FollowsEntry(log, p, k)
    decreases Size(c) - i
  {
    hide Arrival, FollowsEntry, RunsBelow;
    var first := if i in newly then Arrival(c, used, unset, i) else [];
    var rest := Arrivals(c, newly, used, unset, i + 1);
    if p < |first| {
      ArrivalFollows(c, used, unset, i, p);
      FollowsEarlier(first, rest, p, i);
    } else {
      ArrivalsFollow(c, newly, used, unset, i + 1, p - |first|);
      var k: nat :| RunsBelow(c, rest[p - |first|].transition, k) && FollowsEntry(rest, p - |first|, k);
      FollowsLater(first, rest, p - |first|, k);
    }
  }

  lemma TakingsIn(l: seq<nat>, trans: set<nat>, used: set<nat>, taking: seq<Action>)
    requires trans !! used && taking == Takings(l) && forall x | x in l :: x in trans
    ensures forall k | 0 <= k < |taking| :: taking[k].Taken? && taking[k].transition !in used
  {
    forall k | 0 <= k < |taking| ensures taking[k].transition !in used {
      assert taking[k].transition in l;
    }
  }

  lemma ExpectedFollows(c: Chart, exits: set<nat>, trans: set<nat>, newly: set<nat>, used: set<nat>, unset: set<nat>, p: nat)
    requires trans !! used && p < |Expected(c, exits, trans, newly, used, unset)|
    requires Expected(c, exits, trans, newly, used, unset)[p].Taken?
    requires Expected(c, exits, trans, newly, used, unset)[p].transition in used
    ensures
      var log := Expected(c, exits, trans, newly, used, unset);
      exists k: nat :: RunsBelow(c, log[p].transition, k) && FollowsEntry(log, p, k)
  {
    hide Listing, Arrivals, FollowsEntry, RunsBelow;
    var leaving, taking, arriving := Leavings(Reversed(Listing(exits, Size(c), 0))), Takings(Listing(trans, |c.transitions|, 0)),
        Arrivals(c, newly, used, unset, 0);
    ListingSpec(trans, |c.transitions|, 0);
    SegmentOf(leaving, taking, arriving, p);
    TakingsIn(Listing(trans, |c.transitions|, 0), trans, used, taking);
    var q := p - |leaving| - |taking|;
    ArrivalsFollow(c, newly, used, unset, 0, q);
    var k: nat :| RunsBelow(c, arriving[q].transition, k) && FollowsEntry(arriving, q, k);
    FollowsLater(leaving + taking, arriving, q, k);
  }

  // ---- Defaults are taken below states being entered ----

  lemma {:induction false} TakenBelowEntered(c: Chart, cfg: set<nat>, hist: set<nat>, z: set<nat>, e: Entry, i: nat, j: nat)
    requires Setting(c, cfg, hist, z) && PassInv(c, cfg, z, e.states, i) && i <= Size(c)
    requires ChildCompletions(c) && DefaultsClosed(c) && Recorded(c, hist, z, e.states)
    requires TakesFrom(c, cfg, hist, cfg * z, e, i, j)
    ensures
      var d := Descend(c, cfg, hist, cfg * z, e, i).states;
      exists k: nat :: RunsBelow(c, j, k) && k in Newly(c, d, cfg - cfg * z)
    decreases Size(c) - i
  {
    hide PassInv, Setting, Resolve, Recorded, ChildCompletions, DefaultsClosed, TakesAt, RunsBelow, Newly;
    if i in e.states {
      RecordedHere(c, hist, z, e.states, i);
      PassStep(c, cfg, hist, z, e, i);
      RecordedStays(c, cfg, hist, z, e, i);
      if TakesAt(c, cfg, hist, i, j) {
        var k := ParentOfTaken(c, cfg, hist, z, e, i, j);
        ParentEntered(c, cfg, hist, z, e, i, k);
      } else {
        TakenBelowEntered(c, cfg, hist, z, Resolve(c, cfg, hist, cfg * z, e, i), i + 1, j);
      }
    } else {
      PassSkips(c, cfg, z, e.states, i);
      TakenBelowEntered(c, cfg, hist, z, e, i + 1, j);
    }
  }

  lemma ParentOfTaken(c: Chart, cfg: set<nat>, hist: set<nat>, z: set<nat>, e: Entry, i: nat, j: nat) returns (k: nat)
    requires Setting(c, cfg, hist, z) && PassInv(c, cfg, z, e.states, i) && i < Size(c) && i in e.states
    requires TakesAt(c, cfg, hist, i, j)
    ensures RunsBelow(c, j, k) && k in e.states && Proper(c, k) && k < i && (k in z || k !in cfg)
  {
    hide HistoryReady, Filled, EdgesFilled, Apart;
    assert StateOk(c, i);
    k := Parent(c, i);
    assert ChildOf(c, i, k);
  }

  lemma ParentEntered(c: Chart, cfg: set<nat>, hist: set<nat>, z: set<nat>, e: Entry, i: nat, k: nat)
    requires k in e.states && Proper(c, k) && (k in z || k !in cfg)
    ensures k in Newly(c, Descend(c, cfg, hist, cfg * z, e, i).states, cfg - cfg * z)
  {
    DescendKeeps(c, cfg, hist, cfg * z, e, i, k);
  }

  lemma OneParent(c: Chart, j: nat, k: nat, l: nat)
    requires RunsBelow(c, j, k) && RunsBelow(c, j, l)
    ensures k == l
  {
  }

  /** Whose content a step of a run runs, and how often: every selected transition's and
      every default transition's taken once, no other's; and the data of a state once,
      when it is entered with its data not initialized. */
  lemma ContentExact(c: Chart, st: Stepper, m: Stimulus, j: nat)
    requires ChartOk(c) && Legal(c, st.configuration) && HistoryLegal(c, st.configuration, st.history)
    requires Select(c, st.configuration, m).trans != {}
    ensures
      var sel := Select(c, st.configuration, m);
      var exits := sel.exits * st.configuration;
      var o := SelectAndStep(c, st, m);
      var used := DefaultsTaken(c, st.configuration, o.stepper.history, exits, Entry(WithAncestors(c, sel.targets), sel.trans));
      && sel.trans !! used
      && Times(o.actions, Taken(j)) == (if j in sel.trans || j in used then 1 else 0)
      && Times(o.actions, InitData(j))
         == if j in o.stepper.configuration - (st.configuration - exits) && j !in st.initializedData then 1 else 0
  {
    hide PassInv, Select, Legal, HistoryLegal, Setting, Remember, Descend, TakesFrom, Expected, Content, SelectAndStep, Times, Zone,
      NextConfiguration, Recorded, StatesOk, ChildCompletions, DefaultsClosed, HistoriesFromOutside, Newly, RunsBelow;
    var cfg := st.configuration;
    var sel := Select(c, cfg, m);
    var exits := sel.exits * cfg;
    var o := SelectAndStep(c, st, m);
    var e0 := Entry(WithAncestors(c, sel.targets), sel.trans);
    var used := DefaultsTaken(c, cfg, o.stepper.history, exits, e0);
    var newly := o.stepper.configuration - (cfg - exits);
    SelectSpec(c, cfg, m);
    SelectionContent(c, st, m);
    SelectionLegal(c, st, m);
    LegalStates(c, o.stepper.configuration);
    ChartSetting(c, st, m);
    SelectedConfiguration(c, st, m);
    ExpectedTimes(c, exits, sel.trans, newly, used, newly - st.initializedData, j);
    ContentTimes(o.actions, Taken(j));
    ContentTimes(o.actions, InitData(j));
    TableKinds(c);
    forall k | k in used ensures k !in sel.trans {
      TakenIsDefault(c, cfg, o.stepper.history, exits, e0, 0, k);
    }
    if j in used {
      UsedEntered(c, st, m, j);
    }
  }

  lemma LegalStates(c: Chart, n: set<nat>)
    requires Legal(c, n)
    ensures n <= AllStates(c)
  {
  }

  lemma UsedEntered(c: Chart, st: Stepper, m: Stimulus, j: nat)
    requires ChartOk(c) && Legal(c, st.configuration) && HistoryLegal(c, st.configuration, st.history)
    requires Select(c, st.configuration, m).trans != {}
    requires
      var sel := Select(c, st.configuration, m);
      var exits := sel.exits * st.configuration;
      j in DefaultsTaken(c, st.configuration, SelectAndStep(c, st, m).stepper.history, exits, Entry(WithAncestors(c, sel.targets), sel.trans))
    ensures
      var exits := Select(c, st.configuration, m).exits * st.configuration;
      exists k: nat :: RunsBelow(c, j, k) && k in SelectAndStep(c, st, m).stepper.configuration - (st.configuration - exits)
  {
    hide PassInv, Select, Legal, HistoryLegal, Setting, Remember, Descend, TakesFrom, SelectAndStep, Zone, Recorded, StatesOk,
      ChildCompletions, DefaultsClosed, HistoriesFromOutside, RunsBelow;
    var cfg := st.configuration;
    var sel := Select(c, cfg, m);
    ChartSetting(c, st, m);
    SelectedConfiguration(c, st, m);
    var z := Zone(c, sel.trans);
    var hist := SelectAndStep(c, st, m).stepper.history;
    var e0 := Entry(WithAncestors(c, sel.targets), sel.trans);
    TakenBelowEntered(c, cfg, hist, z, e0, 0, j);
    var d := Descend(c, cfg, hist, cfg * z, e0, 0).states;
    var k: nat :| RunsBelow(c, j, k) && k in Newly(c, d, cfg - cfg * z);
  }

  // ---- Generated code ----

  lemma CEntryContent(c: Chart, e: Entry, used: set<nat>, s: Entering, unset: set<nat>, i: nat)
    requires i < Size(c) && (i in unset <==> i !in s.initializedData)
    requires forall k: nat | k < |c.transitions| :: k in used <==> k in e.trans && c.transitions[k].kind != Normal
    ensures Content(CEnterOne(c, e.trans, s, i).actions) == Content(s.actions) + Arrival(c, used, unset, i)
  {
    hide Content, DefaultActions, Takings;
    DefaultsInOrder(c, e.trans, used, i, 0);
    var own := (if i in s.initializedData then [] else [InitData(i)]) + [OnEntry(i)] + DefaultActions(c, e.trans, i, 0);
    assert own == Arrival(c, used, unset, i);
    ContentAll(own);
    ContentJoins(s.actions, own);
    assert CEnterOne(c, e.trans, s, i).actions == s.actions + own;
  }

  lemma {:induction false} CEnteringContent(c: Chart, e: Entry, used: set<nat>, s: Entering, i: nat)
    requires forall k: nat | k < |c.transitions| :: k in used <==> k in e.trans && c.transitions[k].kind != Normal
    ensures
      var newly := Newly(c, e.states, s.configuration);
      Content(CEnterFrom(c, e, s, i).actions) == Content(s.actions) + Arrivals(c, newly, used, newly - s.initializedData, i)
    decreases Size(c) - i
  {
    hide Content, Arrival, FirstByteFinal;
    var newly := Newly(c, e.states, s.configuration);
    var unset := newly - s.initializedData;
    if i >= Size(c) {
      assert Content(s.actions) + [] == Content(s.actions);
    } else if i in e.states && i !in s.configuration && Proper(c, i) {
      var t := CEnterOne(c, e.trans, s, i);
      CEntryContent(c, e, used, s, unset, i);
      CEnteringContent(c, e, used, t, i + 1);
      var later := Newly(c, e.states, t.configuration);
      SameArrivals(c, later, newly, used, later - t.initializedData, unset, i + 1);
    } else {
      CEnteringContent(c, e, used, s, i + 1);
    }
  }

  /** A microstep of generated code runs the same content, on any table. */
  lemma GeneratedContent(c: Chart, x: Ctx, exits: set<nat>, targets: set<nat>, trans: set<nat>)
    requires KindsMatch(c) && exits <= x.config
    requires forall j | j in trans :: j < |c.transitions| && c.transitions[j].kind == Normal
    ensures
      var o := CMicroStep(c, x, exits, targets, trans);
      var newly := o.ctx.config - (x.config - exits);
      var used := DefaultsTaken(c, x.config, x.history, exits, Entry(Climb(c, targets, 0), trans));
      Content(o.actions) == o.actions == Expected(c, exits, trans, newly, used, newly - x.initializedData)
  {
    hide Content, Descend, TakesFrom, CEnterFrom, ExitActions, TakeActions, Arrivals, Climb;
    var cfg := x.config;
    var e0 := Entry(Climb(c, targets, 0), trans);
    var e := Descend(c, cfg, x.history, exits, e0, 0);
    var used := DefaultsTaken(c, cfg, x.history, exits, e0);
    TakenSplit(c, cfg, x.history, exits, e0);
    assert exits * cfg == exits;
    var leaving, taking := ExitActions(exits, Size(c)), TakeActions(c, e.trans, 0);
    LeavesInOrder(exits, Size(c));
    TakesInOrder(c, e.trans, trans, 0);
    ContentAll(leaving + taking);
    var s := Entering(cfg - exits, x.initializedData, x.flags.topLevelFinal, leaving + taking);
    CEnteringContent(c, e, used, s, 0);
    CEntered(c, e, s, 0);
    CEnterOnlyContent(c, e, s, 0);
    ContentAll(CMicroStep(c, x, exits, targets, trans).actions);
    var newly := Newly(c, e.states, cfg - exits);
    assert CEnterFrom(c, e, s, 0).configuration - (cfg - exits) == newly;
  }

  /** ... and so does a step of generated code that selects transitions. */
  lemma GeneratedSelectionContent(c: Chart, x: Ctx, m: Stimulus)
    requires KindsMatch(c)
    ensures
      var sel := Select(c, x.config, m);
      var exits := sel.exits * x.config;
      var o := CSelected(c, x, sel);
      var newly := o.ctx.config - (x.config - exits);
      var used := DefaultsTaken(c, x.config, o.ctx.history, exits, Entry(Climb(c, sel.targets, 0), sel.trans));
      o.actions == Expected(c, exits, sel.trans, newly, used, newly - x.initializedData)
  {
    hide CMicroStep, Content, DefaultsTaken, Expected, Select, Climb;
    var sel := Select(c, x.config, m);
    var exits := sel.exits * x.config;
    SelectSpec(c, x.config, m);
    var woken := x.(flags := x.flags.(spontaneous := true), history := Remember(c, x.config, exits, x.history, 0));
    GeneratedContent(c, woken, exits, sel.targets, sel.trans);
    CHistoryKept(c, woken, exits, sel.targets, sel.trans);
  }

  lemma CHistoryKept(c: Chart, x: Ctx, exits: set<nat>, targets: set<nat>, trans: set<nat>)
    ensures CMicroStep(c, x, exits, targets, trans).ctx.history == x.history
  {
  }

  lemma {:induction false} CEnterOnlyContent(c: Chart, e: Entry, s: Entering, i: nat)
    requires forall a | a in s.actions :: IsContent(a)
    ensures forall a | a in CEnterFrom(c, e, s, i).actions :: IsContent(a)
    decreases Size(c) - i
  {
    hide FirstByteFinal, DefaultActions;
    if i < Size(c) {
      DefaultsShown(c, e.trans, i, 0);
      CEnterOnlyContent(c, e, if i in e.states && i !in s.configuration && Proper(c, i) then CEnterOne(c, e.trans, s, i) else s, i + 1);
    }
  }
}
