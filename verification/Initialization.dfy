/** Building the tables: ancestors and descendants by walking up from every state,
    exit sets from the transitions' domains, and the conflict matrix row by row. */
module Initialization {
  import opened Charts
  import opened EntrySets
  import opened Transitions

  // ---- Ancestors and descendants ----

  /** The states strictly above `i` and not above `p`, its ancestor or itself. */
  ghost predicate Passed(c: Chart, i: nat, p: nat, a: nat) {
    Under(c, i, a) && !Under(c, p, a)
  }

  ghost predicate Walked(c: Chart, ancestors: seq<set<nat>>, children: seq<set<nat>>, i: nat, p: nat)
    requires |ancestors| == |children| == Size(c)
  {
    && (forall j: nat | j < i && j < Size(c) :: ancestors[j] == AncestorsOf(c, j))
    && (i < Size(c) ==> ancestors[i] == set a | 0 <= a < Size(c) && Passed(c, i, p, a))
    && (forall a: nat | a < Size(c) ::
          children[a] == set k | 0 <= k < Size(c) && ((k < i && Under(c, k, a)) || (k == i && Passed(c, i, p, a))))
    && (forall j: nat | i < j < Size(c) :: ancestors[j] == {})
  }

  method WalkUp(c: Chart, ancestors: array<set<nat>>, children: array<set<nat>>, i: nat)
    requires ancestors != children && ancestors.Length == children.Length == Size(c) && i < Size(c)
    requires Walked(c, ancestors[..], children[..], i, i)
    modifies ancestors, children
    ensures Walked(c, ancestors[..], children[..], i, 0)
  {
    var p: nat := i;
    while p != 0
      invariant p < Size(c) && AtOrUnder(c, i, p)
      invariant Walked(c, ancestors[..], children[..], i, p)
      decreases p
    {
      var q := Parent(c, p);
      ghost var anc, kids := ancestors[..], children[..];
      ancestors[i] := ancestors[i] + {q};
      children[q] := children[q] + {i};
      WalkOne(c, i, p);
      p := q;
    }
  }

  lemma WalkOne(c: Chart, i: nat, p: nat)
    requires i < Size(c) && AtOrUnder(c, i, p) && 0 < p < Size(c)
    ensures AtOrUnder(c, i, Parent(c, p))
    ensures forall a: nat :: Passed(c, i, Parent(c, p), a) <==> Passed(c, i, p, a) || a == Parent(c, p)
  {
    var q := Parent(c, p);
    assert ChildOf(c, p, q);
    ChildUnder(c, p, q);
    AtOrUnderTransitive(c, i, p, q);
    forall a: nat ensures Under(c, p, a) <==> a == q || Under(c, q, a) { }
    if Under(c, q, q) { UnderBounds(c, q, q); }
  }

  method Relations(c: Chart) returns (ancestors: seq<set<nat>>, children: seq<set<nat>>)
    ensures |ancestors| == |children| == Size(c)
    ensures forall i: nat | i < Size(c) :: ancestors[i] == AncestorsOf(c, i) && children[i] == Descendants(c, i)
  {
    var anc := new set<nat>[Size(c)](i => {});
    var kids := new set<nat>[Size(c)](i => {});
    var i := 0;
    assert forall a: nat :: !Passed(c, 0, 0, a);
    while i < Size(c)
      invariant i <= Size(c) && Walked(c, anc[..], kids[..], i, i)
    {
      WalkUp(c, anc, kids, i);
      assert forall a: nat :: Passed(c, i, 0, a) <==> Under(c, i, a);
      i := i + 1;
      assert forall a: nat :: !Passed(c, i, i, a);
    }
    ancestors, children := anc[..], kids[..];
  }

  // ---- Domains ----

  /** All states above `s`, nearest first. */
  function AncestorList(c: Chart, s: nat): (l: seq<nat>)
    requires s < Size(c)
    ensures forall a | a in l :: a < Size(c)
    ensures 0 < s ==> 0 < |l| && l[|l| - 1] == 0
    decreases s
  {
    if s == 0 then [] else [Parent(c, s)] + AncestorList(c, Parent(c, s))
  }

  method ProperAncestors(c: Chart, s: nat) returns (ancestors: seq<nat>)
    requires s < Size(c)
    ensures ancestors == AncestorList(c, s)
  {
    ancestors := [];
    var node: nat := s;
    while node != 0
      invariant node < Size(c) && ancestors + AncestorList(c, node) == AncestorList(c, s)
      decreases node
    {
      node := Parent(c, node);
      ancestors := ancestors + [node];
    }
  }

  function Elements(s: seq<nat>): set<nat> {
    set x | x in s
  }

  /** The nearest compound ancestor of the first state that has all of them below it. */
  method FindLcca(c: Chart, states: seq<nat>) returns (ancestor: nat)
    requires 0 < |states| && 0 < states[0] < Size(c)
    ensures ancestor == Lcca(c, Parent(c, states[0]), Elements(states))
  {
    var ancestors := ProperAncestors(c, states[0]);
    var i := 0;
    ghost var all := Elements(states);
    ghost var at: nat := Parent(c, states[0]);
    while i < |ancestors|
      invariant i <= |ancestors| && at < Size(c)
      invariant i < |ancestors| ==> ancestors[i..] == [at] + AncestorList(c, at)
      invariant i < |ancestors| ==> Lcca(c, at, all) == Lcca(c, Parent(c, states[0]), all)
      invariant i == |ancestors| ==> Lcca(c, Parent(c, states[0]), all) == 0
      invariant 0 < |ancestors| && ancestors[|ancestors| - 1] == 0
    {
      assert ancestors[i] == at;
      if IsCompound(c, ancestors[i]) {
        var j := 0;
        while j < |states| && Under(c, states[j], ancestors[i])
          invariant j <= |states|
          invariant forall k | 0 <= k < j :: Under(c, states[k], ancestors[i])
        {
          j := j + 1;
        }
        if j == |states| {
          return ancestors[i];
        }
        assert states[j] in all;
      }
      assert ancestors[i + 1..] == AncestorList(c, at);
      if at != 0 { at := Parent(c, at); }
      i := i + 1;
    }
    ancestor := ancestors[|ancestors| - 1];
  }

  method AllBelow(c: Chart, targets: seq<nat>, a: nat) returns (all: bool)
    ensures all <==> forall x | x in targets :: Under(c, x, a)
  {
    var k := 0;
    while k < |targets|
      invariant k <= |targets|
      invariant forall x | 0 <= x < k :: Under(c, targets[x], a)
    {
      if !Under(c, targets[k], a) {
        assert targets[k] in targets;
        return false;
      }
      k := k + 1;
    }
    all := true;
  }

  method TransitionDomain(c: Chart, t: Transition, targets: seq<nat>) returns (domain: nat)
    requires 0 < t.source < Size(c) && t.target == Elements(targets) && SourceState(c, t) != 0
    ensures domain == Domain(c, t)
  {
    assert forall x :: x in targets <==> x in t.target;
    var source := SourceState(c, t);
    if t.internal && IsCompound(c, source) {
      var inside := AllBelow(c, targets, source);
      if inside {
        return source;
      }
    }
    var tStates := [source] + targets;
    assert Elements(tStates) == {source} + t.target;
    domain := FindLcca(c, tStates);
  }

  method ExitSet(c: Chart, t: Transition, targets: seq<nat>) returns (statesToExit: set<nat>)
    requires 0 < t.source < Size(c) && t.target == Elements(targets)
    ensures statesToExit == ExitSetOf(c, t)
  {
    statesToExit := {};
    if |targets| == 0 || SourceState(c, t) == 0 {
      return;
    }
    assert targets[0] in t.target;
    var domain := TransitionDomain(c, t, targets);
    var k := 0;
    while k < Size(c)
      invariant k <= Size(c)
      invariant statesToExit == set x | 0 <= x < k && x < Size(c) && Under(c, x, domain) && Proper(c, x)
    {
      if Under(c, k, domain) && Proper(c, k) {
        statesToExit := statesToExit + {k};
      }
      k := k + 1;
    }
  }

  // ---- The conflict matrix ----

  /** Row `i` of the matrix, the first `k` columns. */
  ghost function RowUpto(c: Chart, i: nat, k: nat): set<nat> {
    set x | 0 <= x < k && ConflictAt(c, i, x)
  }

  predicate Sourced(c: Chart) {
    forall j: nat | j < |c.transitions| :: SourcedAt(c, j)
  }

  predicate SourcedAt(c: Chart, j: nat)
    requires j < |c.transitions|
  {
    0 < c.transitions[j].source < Size(c)
  }

  /** Upper triangle by comparing, lower triangle by symmetry. */
  method ConflictMatrix(c: Chart, exitSets: seq<set<nat>>) returns (conflicts: seq<set<nat>>)
    requires Sourced(c) && |exitSets| == |c.transitions|
    requires forall j: nat | j < |c.transitions| :: SourcedAt(c, j) && exitSets[j] == ExitSetOf(c, c.transitions[j])
    ensures |conflicts| == |c.transitions|
    ensures forall i: nat | i < |c.transitions| :: conflicts[i] == RowUpto(c, i, |c.transitions|)
  {
    var n := |c.transitions|;
    var m := new set<nat>[n](i => {});
    var i := 0;
    while i < n
      invariant i <= n
      invariant forall x: nat | x < i :: m[x] == RowUpto(c, x, n)
    {
      var row := CompareRow(c, exitSets, i);
      var j := 0;
      while j < i
        invariant 0 <= j <= i
        invariant forall x: nat | x < i :: m[x] == RowUpto(c, x, n)
        invariant row == set x | 0 <= x < n && (x < j || i <= x) && ConflictAt(c, i, x)
      {
        ConflictSymmetric(c, i, j);
        if i in m[j] {
          row := row + {j};
        }
        j := j + 1;
      }
      m[i] := row;
      i := i + 1;
    }
    conflicts := m[..];
  }

  method CompareRow(c: Chart, exitSets: seq<set<nat>>, i: nat) returns (row: set<nat>)
    requires Sourced(c) && |exitSets| == |c.transitions| && i < |c.transitions|
    requires forall j: nat | j < |c.transitions| :: SourcedAt(c, j) && exitSets[j] == ExitSetOf(c, c.transitions[j])
    ensures row == set x | 0 <= x < |c.transitions| && i <= x && ConflictAt(c, i, x)
  {
    row := {};
    var j := i;
    while j < |c.transitions|
      invariant i <= j <= |c.transitions|
      invariant row == set x | i <= x < j && ConflictAt(c, i, x)
    {
      assert SourcedAt(c, i) && SourcedAt(c, j);
      var s1, s2 := SourceState(c, c.transitions[i]), SourceState(c, c.transitions[j]);
      if s1 == s2 || Under(c, s1, s2) || Under(c, s2, s1) || exitSets[i] * exitSets[j] != {} {
        row := row + {j};
      }
      j := j + 1;
    }
  }

  // ---- All tables ----

  /** The same document, whatever the tables say. */
  ghost predicate SameDocument(c: Chart, d: Chart) {
    && Size(c) == Size(d) && |c.transitions| == |d.transitions|
    && (forall i: nat | i < Size(c) :: SameState(c, d, i))
    && (forall j: nat | j < |c.transitions| :: SameTransition(c, d, j))
  }

  ghost predicate SameState(c: Chart, d: Chart, i: nat)
    requires i < Size(c) && i < Size(d)
  {
    && c.states[i].parent == d.states[i].parent && c.states[i].kind == d.states[i].kind
    && c.states[i].completion == d.states[i].completion
  }

  ghost predicate SameTransition(c: Chart, d: Chart, j: nat)
    requires j < |c.transitions| && j < |d.transitions|
  {
    d.transitions[j] == c.transitions[j].(exitSet := d.transitions[j].exitSet, conflicts := d.transitions[j].conflicts)
  }

  lemma {:induction false} SameUnder(c: Chart, d: Chart, k: nat, a: nat)
    requires SameDocument(c, d)
    ensures Under(c, k, a) <==> Under(d, k, a)
    decreases k
  {
    if 0 < k < Size(c) {
      assert SameState(c, d, k);
      SameUnder(c, d, Parent(c, k), a);
    }
  }

  lemma {:induction false} SameLcca(c: Chart, d: Chart, a: nat, s: set<nat>)
    requires SameDocument(c, d) && a < Size(c)
    ensures Lcca(c, a, s) == Lcca(d, a, s)
    decreases a
  {
    assert SameState(c, d, a);
    forall x: nat ensures Under(c, x, a) <==> Under(d, x, a) { SameUnder(c, d, x, a); }
    if a != 0 { SameLcca(c, d, Parent(c, a), s); }
  }

  lemma SameExitSet(c: Chart, d: Chart, t: Transition, u: Transition)
    requires SameDocument(c, d) && 0 < t.source < Size(c)
    requires u == t.(exitSet := u.exitSet, conflicts := u.conflicts)
    ensures ExitSetOf(c, t) == ExitSetOf(d, u) && Domain(c, t) == Domain(d, u) && SourceState(c, t) == SourceState(d, u)
  {
    assert SameState(c, d, t.source);
    forall x: nat, a: nat ensures Under(c, x, a) <==> Under(d, x, a) { SameUnder(c, d, x, a); }
    var source := SourceState(c, t);
    assert SameState(c, d, source);
    if source != 0 { SameLcca(c, d, Parent(c, source), {source} + t.target); }
    forall x: nat | x < Size(c) ensures Proper(c, x) <==> Proper(d, x) { assert SameState(c, d, x); }
  }

  lemma SameConflict(c: Chart, d: Chart, j: nat, k: nat)
    requires SameDocument(c, d)
    ensures ConflictAt(c, j, k) == ConflictAt(d, j, k)
  {
    if j < |c.transitions| && k < |c.transitions| {
      assert SameTransition(c, d, j) && SameTransition(c, d, k);
    }
    if j < |c.transitions| && k < |c.transitions| && 0 < c.transitions[j].source < Size(c) && 0 < c.transitions[k].source < Size(c) {
      SameExitSet(c, d, c.transitions[j], d.transitions[j]);
      SameExitSet(c, d, c.transitions[k], d.transitions[k]);
      SameUnder(c, d, SourceState(c, c.transitions[j]), SourceState(c, c.transitions[k]));
      SameUnder(c, d, SourceState(c, c.transitions[k]), SourceState(c, c.transitions[j]));
    }
  }

  ghost predicate MatrixAt(c: Chart, j: nat)
    requires j < |c.transitions|
  {
    && 0 < c.transitions[j].source < Size(c)
    && c.transitions[j].exitSet == ExitSetOf(c, c.transitions[j])
    && c.transitions[j].conflicts == set k | 0 <= k < |c.transitions| && ConflictAt(c, j, k)
  }

  /** The tables of a document; `targets` lists each transition's targets as written. */
  method Init(doc: Chart, targets: seq<seq<nat>>) returns (c: Chart)
    requires Sourced(doc) && |targets| == |doc.transitions|
    requires forall j: nat | j < |targets| :: doc.transitions[j].target == Elements(targets[j])
    ensures SameDocument(doc, c) && TablesOk(c)
    ensures forall j: nat | j < |c.transitions| :: MatrixAt(c, j)
  {
    var n := |doc.transitions|;
    var ancestors, children := Relations(doc);
    var exits := new set<nat>[n](i => {});
    var i := 0;
    while i < n
      invariant i <= n
      invariant forall j: nat | j < i :: SourcedAt(doc, j) && exits[j] == ExitSetOf(doc, doc.transitions[j])
    {
      assert SourcedAt(doc, i);
      exits[i] := ExitSet(doc, doc.transitions[i], targets[i]);
      i := i + 1;
    }
    var exitSets := exits[..];
    var conflicts := ConflictMatrix(doc, exitSets);
    var states := seq(Size(doc), (k: nat) requires k < Size(doc) =>
      doc.states[k].(ancestors := ancestors[k], children := children[k]));
    var transitions := seq(n, (k: nat) requires k < n =>
      doc.transitions[k].(exitSet := exitSets[k], conflicts := conflicts[k]));
    forall k: nat | 0 < k < |states| ensures PlacedAt(states, k) { assert PlacedAt(doc.states, k); }
    c := RawChart(states, transitions);
    TablesBuilt(doc, c);
    forall j: nat | j < n ensures MatrixAt(c, j) {
      assert SourcedAt(doc, j);
      MatrixBuilt(doc, c, j);
    }
  }

  lemma TablesBuilt(doc: Chart, c: Chart)
    requires SameDocument(doc, c)
    requires forall i: nat | i < Size(doc) ::
      c.states[i].ancestors == AncestorsOf(doc, i) && c.states[i].children == Descendants(doc, i)
    ensures TablesOk(c)
  {
    forall i: nat | i < Size(c) ensures TableAt(c, i) {
      forall x: nat ensures Under(doc, x, i) <==> Under(c, x, i) { SameUnder(doc, c, x, i); }
      forall x: nat ensures Under(doc, i, x) <==> Under(c, i, x) { SameUnder(doc, c, i, x); }
    }
  }

  lemma MatrixBuilt(doc: Chart, c: Chart, j: nat)
    requires SameDocument(doc, c) && j < |doc.transitions| && SourcedAt(doc, j)
    requires c.transitions[j].exitSet == ExitSetOf(doc, doc.transitions[j])
    requires c.transitions[j].conflicts == RowUpto(doc, j, |doc.transitions|)
    ensures MatrixAt(c, j)
  {
    assert SameTransition(doc, c, j);
    SameExitSet(doc, c, doc.transitions[j], c.transitions[j]);
    forall k: nat ensures ConflictAt(doc, j, k) == ConflictAt(c, j, k) { SameConflict(doc, c, j, k); }
  }
}
