/** State charts as the interpreter's tables hold them: one row per state in
    document order, one row per transition in post-fix order. */
module Charts {

  datatype Kind = Atomic | Parallel | Compound | Final | HistoryDeep | HistoryShallow | Initial

  /** A row of the state table.  `ancestors` are the proper ancestors.  `children`
      is whatever the table lists there: every descendant for the interpreter,
      the direct children for generated C. */
  datatype State = State(
    parent: nat,
    kind: Kind,
    completion: set<nat>,
    ancestors: set<nat>,
    children: set<nat>)

  datatype TransitionKind = Normal | OfHistory | OfInitial

  datatype Transition = Transition(
    source: nat,
    target: set<nat>,
    exitSet: set<nat>,
    conflicts: set<nat>,
    kind: TransitionKind,
    internal: bool,
    hasEvent: bool,
    hasCond: bool)

  datatype RawChart = RawChart(states: seq<State>, transitions: seq<Transition>)

  predicate PlacedAt(s: seq<State>, i: nat)
    requires i < |s|
  {
    s[i].parent < i && s[s[i].parent].kind in {Compound, Parallel}
  }

  /** Document order: every parent precedes its children, and only compound and
      parallel states have children. */
  predicate IsTree(c: RawChart) {
    && 0 < |c.states|
    && c.states[0].kind == Compound
    && forall i: nat | 0 < i < |c.states| :: PlacedAt(c.states, i)
  }

  type Chart = c: RawChart | IsTree(c)
    witness RawChart([State(0, Compound, {}, {}, {})], [])

  function Size(c: Chart): nat {
    |c.states|
  }

  predicate IsState(c: Chart, i: nat) {
    i < Size(c)
  }

  predicate IsPseudoKind(k: Kind) {
    k in {HistoryDeep, HistoryShallow, Initial}
  }

  predicate IsHistoryKind(k: Kind) {
    k in {HistoryDeep, HistoryShallow}
  }

  predicate Proper(c: Chart, i: nat) {
    i < Size(c) && !IsPseudoKind(c.states[i].kind)
  }

  predicate IsHistory(c: Chart, i: nat) {
    i < Size(c) && IsHistoryKind(c.states[i].kind)
  }

  predicate IsCompound(c: Chart, i: nat) {
    i < Size(c) && c.states[i].kind == Compound
  }

  predicate IsParallel(c: Chart, i: nat) {
    i < Size(c) && c.states[i].kind == Parallel
  }

  function Parent(c: Chart, x: nat): (k: nat)
    requires 0 < x < Size(c)
    ensures k < x && c.states[k].kind in {Compound, Parallel}
  {
    assert PlacedAt(c.states, x);
    c.states[x].parent
  }

  predicate ChildOf(c: Chart, x: nat, k: nat)
    ensures ChildOf(c, x, k) ==> k < x < Size(c) && c.states[k].kind in {Compound, Parallel}
  {
    0 < x < Size(c) && Parent(c, x) == k
  }

  /** `k` is a proper descendant of `a`. */
  predicate Under(c: Chart, k: nat, a: nat)
    decreases k
  {
    && 0 < k < Size(c)
    && (Parent(c, k) == a || Under(c, Parent(c, k), a))
  }

  predicate AtOrUnder(c: Chart, k: nat, a: nat) {
    k < Size(c) && (k == a || Under(c, k, a))
  }

  function AllStates(c: Chart): set<nat> {
    set i | 0 <= i < Size(c) && IsState(c, i)
  }

  function Descendants(c: Chart, a: nat): set<nat> {
    set k | 0 <= k < Size(c) && Under(c, k, a)
  }

  function AncestorsOf(c: Chart, k: nat): set<nat> {
    set a | 0 <= a < Size(c) && Under(c, k, a)
  }

  function ProperChildren(c: Chart, a: nat): set<nat> {
    set k | 0 <= k < Size(c) && ChildOf(c, k, a) && Proper(c, k)
  }

  // ---- The ancestor relation ----

  lemma {:induction false} UnderBounds(c: Chart, k: nat, a: nat)
    requires Under(c, k, a)
    ensures a < k < Size(c) && c.states[a].kind in {Compound, Parallel}
    decreases k
  {
    if Parent(c, k) != a {
      UnderBounds(c, Parent(c, k), a);
    }
  }

  lemma {:induction false} UnderTransitive(c: Chart, k: nat, m: nat, a: nat)
    requires Under(c, k, m) && Under(c, m, a)
    ensures Under(c, k, a)
    decreases k
  {
    if Parent(c, k) != m {
      UnderTransitive(c, Parent(c, k), m, a);
    }
  }

  lemma {:induction false} UnderRoot(c: Chart, k: nat)
    requires 0 < k < Size(c)
    ensures Under(c, k, 0)
    decreases k
  {
    if Parent(c, k) != 0 {
      UnderRoot(c, Parent(c, k));
    }
  }

  /** Two states above (or at) a common one are comparable. */
  lemma {:induction false} Comparable(c: Chart, k: nat, a: nat, b: nat)
    requires AtOrUnder(c, k, a) && AtOrUnder(c, k, b)
    ensures a == b || Under(c, a, b) || Under(c, b, a)
    decreases k
  {
    if k != a && k != b {
      Comparable(c, Parent(c, k), a, b);
    }
  }

  /** The child of `a` on the way down to its descendant `k`. */
  function Toward(c: Chart, a: nat, k: nat): (x: nat)
    requires Under(c, k, a)
    ensures ChildOf(c, x, a) && AtOrUnder(c, k, x) && a < x <= k
    decreases k
  {
    if Parent(c, k) == a then
      UnderBounds(c, k, a); k
    else
      var x := Toward(c, a, Parent(c, k)); x
  }

  lemma ChildUnder(c: Chart, x: nat, a: nat)
    requires ChildOf(c, x, a)
    ensures Under(c, x, a)
  {
  }

  lemma AtOrUnderTransitive(c: Chart, k: nat, m: nat, a: nat)
    requires AtOrUnder(c, k, m) && AtOrUnder(c, m, a)
    ensures AtOrUnder(c, k, a)
    ensures Under(c, k, m) || Under(c, m, a) ==> Under(c, k, a)
  {
    if k != m && m != a {
      UnderTransitive(c, k, m, a);
    }
  }

  lemma UnderSibling(c: Chart, y: nat, x: nat, k: nat, a: nat)
    requires ChildOf(c, x, k) && ChildOf(c, y, k) && Under(c, x, a)
    ensures Under(c, y, a)
  {
  }
}
