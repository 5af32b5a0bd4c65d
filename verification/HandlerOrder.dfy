/** In which order a microstep runs exit and entry handlers. */
module HandlerOrder {
  import opened Charts
  import opened EntrySets
  import opened Transitions
  import opened MicroSteps
  import opened Stepping

  /** The state whose exit (or entry) handler an action runs, if any. */
  function Handled(a: Action, entry: bool): seq<nat> {
    match a
    case OnExit(x) => if entry then [] else [x]
    case OnEntry(x) => if entry then [x] else []
    case _ => []
  }

  function HandlersOf(log: seq<Action>, entry: bool): seq<nat>
    decreases |log|
  {
    if log == [] then [] else Handled(log[0], entry) + HandlersOf(log[1..], entry)
  }

  function ExitsOf(log: seq<Action>): seq<nat> {
    HandlersOf(log, false)
  }

  function EntriesOf(log: seq<Action>): seq<nat> {
    HandlersOf(log, true)
  }

  /** The members of `s` from `i` up to `n`, in document order. */
  function Listing(s: set<nat>, n: nat, i: nat): seq<nat>
    decreases n - i
  {
    if i >= n then [] else (if i in s then [i] else []) + Listing(s, n, i + 1)
  }

  function Reversed(l: seq<nat>): seq<nat> {
    if l == [] then [] else Reversed(l[1..]) + [l[0]]
  }

  predicate Ascending(l: seq<nat>) {
    forall j, k | 0 <= j < k < |l| :: l[j] < l[k]
  }

  lemma {:induction false} ListingSpec(s: set<nat>, n: nat, i: nat)
    ensures Ascending(Listing(s, n, i))
    ensures forall x: nat :: x in Listing(s, n, i) <==> x in s && i <= x < n
    decreases n - i
  {
    if i < n {
      ListingSpec(s, n, i + 1);
      var rest := Listing(s, n, i + 1);
      forall k | 0 <= k < |rest| ensures i < rest[k] { assert rest[k] in rest; }
    }
  }

  lemma {:induction false} HandlersJoin(a: seq<Action>, b: seq<Action>, entry: bool)
    ensures HandlersOf(a + b, entry) == HandlersOf(a, entry) + HandlersOf(b, entry)
    decreases |a|
  {
    if a == [] {
      assert a + b == b;
    } else {
      assert (a + b)[1..] == a[1..] + b;
      HandlersJoin(a[1..], b, entry);
    }
  }

  lemma ExitsJoin(a: seq<Action>, b: seq<Action>)
    ensures ExitsOf(a + b) == ExitsOf(a) + ExitsOf(b) && EntriesOf(a + b) == EntriesOf(a) + EntriesOf(b)
  {
    HandlersJoin(a, b, false);
    HandlersJoin(a, b, true);
  }

  predicate NoHandlers(log: seq<Action>) {
    forall a | a in log :: !a.OnExit? && !a.OnEntry?
  }

  lemma {:induction false} NoHandlersNone(log: seq<Action>)
    requires NoHandlers(log)
    ensures ExitsOf(log) == [] && EntriesOf(log) == []
    decreases |log|
  {
    if log != [] {
      assert log[0] in log;
      assert forall a | a in log[1..] :: a in log;
      NoHandlersNone(log[1..]);
    }
  }

  lemma {:induction false} TakeNone(c: Chart, trans: set<nat>, j: nat)
    ensures NoHandlers(TakeActions(c, trans, j))
    decreases |c.transitions| - j
  {
    if j < |c.transitions| { TakeNone(c, trans, j + 1); }
  }

  lemma {:induction false} DefaultNone(c: Chart, trans: set<nat>, i: nat, j: nat)
    ensures NoHandlers(DefaultActions(c, trans, i, j))
    decreases |c.transitions| - j
  {
    if j < |c.transitions| { DefaultNone(c, trans, i, j + 1); }
  }

  lemma {:induction false} DoneNone(c: Chart, cfg: set<nat>, s: nat)
    requires s < Size(c)
    ensures NoHandlers(DoneAbove(c, cfg, s))
    decreases s
  {
    if s != 0 && IsParallel(c, Parent(c, s)) { DoneNone(c, cfg, Parent(c, s)); }
  }

  lemma {:induction false} ListingEnds(s: set<nat>, n: nat, i: nat)
    requires i <= n
    ensures Listing(s, n + 1, i) == Listing(s, n, i) + if n in s then [n] else []
    decreases n - i
  {
    if i < n { ListingEnds(s, n, i + 1); }
  }

  lemma {:induction false} ReversedEnds(l: seq<nat>, x: nat)
    ensures Reversed(l + [x]) == [x] + Reversed(l)
    decreases |l|
  {
    if l == [] {
      assert [] + [x] == [x];
    } else {
      assert (l + [x])[1..] == l[1..] + [x];
      ReversedEnds(l[1..], x);
    }
  }

  lemma {:induction false} ExitActionsOrder(s: set<nat>, n: nat)
    ensures ExitsOf(ExitActions(s, n)) == Reversed(Listing(s, n, 0)) && EntriesOf(ExitActions(s, n)) == []
    decreases n
  {
    if n > 0 {
      ExitActionsOrder(s, n - 1);
      ListingEnds(s, n - 1, 0);
      if n - 1 in s {
        ReversedEnds(Listing(s, n - 1, 0), n - 1);
        ExitsJoin([OnExit(n - 1)], ExitActions(s, n - 1));
        assert HandlersOf([], true) == [] && HandlersOf([], false) == [];
        assert ExitsOf([OnExit(n - 1)]) == [n - 1] && EntriesOf([OnExit(n - 1)]) == [];
      } else {
        assert Listing(s, n - 1, 0) + [] == Listing(s, n - 1, 0);
        assert [] + ExitActions(s, n - 1) == ExitActions(s, n - 1);
      }
    }
  }

  lemma EnterOneOrder(c: Chart, trans: set<nat>, s: Entering, i: nat)
    requires i < Size(c)
    ensures
      var t := EnterOne(c, trans, s, i);
      ExitsOf(t.actions) == ExitsOf(s.actions) && EntriesOf(t.actions) == EntriesOf(s.actions) + [i]
  {
    hide ExitsOf, EntriesOf;
    var first := if i in s.initializedData then [] else [InitData(i)];
    var defaults := DefaultActions(c, trans, i, 0);
    var done := DoneActions(c, s.configuration + {i}, i);
    DefaultNone(c, trans, i, 0);
    if i != 0 { DoneNone(c, s.configuration + {i}, Parent(c, i)); }
    NoHandlersNone(first);
    NoHandlersNone(defaults);
    NoHandlersNone(done);
    EntryAlone(i);
    ExitsJoin(s.actions, first);
    ExitsJoin(s.actions + first, [OnEntry(i)]);
    ExitsJoin(s.actions + first + [OnEntry(i)], defaults);
    ExitsJoin(s.actions + first + [OnEntry(i)] + defaults, done);
  }

  lemma EntryAlone(i: nat)
    ensures ExitsOf([OnEntry(i)]) == [] && EntriesOf([OnEntry(i)]) == [i]
  {
    var log := [OnEntry(i)];
    assert log[1..] == [] && HandlersOf([], true) == [] && HandlersOf([], false) == [];
  }

  /** The proper states of the entry set that are not active yet. */
  function Newly(c: Chart, e: set<nat>, cfg: set<nat>): set<nat> {
    set x | x in e && Proper(c, x) && x !in cfg
  }

  lemma {:induction false} EnterOrder(c: Chart, e: Entry, s: Entering, i: nat)
    ensures
      var t := EnterFrom(c, e, s, i);
      && ExitsOf(t.actions) == ExitsOf(s.actions)
      && EntriesOf(t.actions) == EntriesOf(s.actions) + Listing(Newly(c, e.states, s.configuration), Size(c), i)
    decreases Size(c) - i
  {
    hide EnterOne, ExitsOf, EntriesOf;
    if i < Size(c) {
      if i in e.states && i !in s.configuration && Proper(c, i) {
        var t := EnterOne(c, e.trans, s, i);
        EnterOneOrder(c, e.trans, s, i);
        EnterOrder(c, e, t, i + 1);
        EnterOneConfiguration(c, e.trans, s, i);
        ListingFrom(Newly(c, e.states, s.configuration), Newly(c, e.states, t.configuration), Size(c), i + 1);
      } else {
        EnterOrder(c, e, s, i + 1);
      }
    }
  }

  lemma EnterOneConfiguration(c: Chart, trans: set<nat>, s: Entering, i: nat)
    requires i < Size(c)
    ensures EnterOne(c, trans, s, i).configuration == s.configuration + {i}
  {
  }

  lemma {:induction false} ListingFrom(s: set<nat>, t: set<nat>, n: nat, i: nat)
    requires forall x | i <= x < n :: x in s <==> x in t
    ensures Listing(s, n, i) == Listing(t, n, i)
    decreases n - i
  {
    if i < n { ListingFrom(s, t, n, i + 1); }
  }

  /** A microstep runs the exit handler of every state it leaves exactly once,
      children before parents, and the entry handler of every state it enters
      exactly once, parents before children. */
  lemma MicroStepOrder(c: Chart, st: Stepper, exits: set<nat>, targets: set<nat>, trans: set<nat>)
    requires exits <= st.configuration
    ensures
      var log := MicroStep(c, st, exits, targets, trans).actions;
      var e := EntrySet(c, st.configuration, st.history, exits, targets, trans).states;
      && ExitsOf(log) == Reversed(Listing(exits, Size(c), 0))
      && EntriesOf(log) == Listing(Newly(c, e, st.configuration - exits), Size(c), 0)
  {
    var cfg := st.configuration;
    var e := EntrySet(c, cfg, st.history, exits, targets, trans);
    var exiting, taking := ExitActions(exits * cfg, Size(c)), TakeActions(c, e.trans, 0);
    assert exits * cfg == exits;
    ExitActionsOrder(exits, Size(c));
    TakeNone(c, e.trans, 0);
    NoHandlersNone(taking);
    ExitsJoin(exiting, taking);
    EnterOrder(c, e, Entering(cfg - exits, st.initializedData, st.flags.topLevelFinal, exiting + taking), 0);
  }
}
