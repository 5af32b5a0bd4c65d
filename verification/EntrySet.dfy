/** The entry set of a microstep: the transitions' targets closed over ancestors,
    then over descendants in one pass in document order over the growing set. */
module EntrySets {
  import opened Charts

  /** The growing entry set, and the transitions to take on the way. */
  datatype Entry = Entry(states: set<nat>, trans: set<nat>)

  // ---- One pass over the growing set ----

  function WithAncestors(c: Chart, s: set<nat>): set<nat>
  {
    s + set x, a | x in s && x < Size(c) && a in c.states[x].ancestors :: a
  }

  /** The first transition at or after `j` that leaves `i`, or the table's length. */
  function FirstFrom(c: Chart, i: nat, j: nat): (r: nat)
    requires j <= |c.transitions|
    ensures j <= r <= |c.transitions|
    ensures r < |c.transitions| ==> c.transitions[r].source == i
    ensures forall k | j <= k < r :: c.transitions[k].source != i
    decreases |c.transitions| - j
  {
    if j == |c.transitions| || c.transitions[j].source == i then j else FirstFrom(c, i, j + 1)
  }

  /** The ancestors of the first state at or after `k` in `t`. */
  function FirstTargetAncestors(c: Chart, t: set<nat>, k: nat): set<nat>
    decreases Size(c) - k
  {
    if k >= Size(c) then {}
    else if k in t then c.states[k].ancestors
    else FirstTargetAncestors(c, t, k + 1)
  }

  /** The ancestors of every state at or after `k` in `t`. */
  function TargetAncestors(c: Chart, t: set<nat>, k: nat): set<nat> {
    set x, a | x in t && k <= x < Size(c) && a in c.states[x].ancestors :: a
  }

  /** All transitions of the initial pseudo-state `i`, from transition `j` on. */
  function ResolveInitial(c: Chart, e: Entry, i: nat, j: nat): Entry
    requires j <= |c.transitions|
    decreases |c.transitions| - j
  {
    if j == |c.transitions| then e
    else if c.transitions[j].source != i then ResolveInitial(c, e, i, j + 1)
    else
      var t := c.transitions[j].target;
      ResolveInitial(c, Entry(e.states - {i} + t + TargetAncestors(c, t, i + 1), e.trans + {j}), i, j + 1)
  }

  function ResolveHistory(c: Chart, cfg: set<nat>, hist: set<nat>, e: Entry, i: nat): Entry
    requires i < Size(c)
  {
    var s := c.states[i];
    if s.completion * hist == {} && s.parent !in cfg then
      var j := FirstFrom(c, i, 0);
      if j == |c.transitions| then e
      else
        var t := c.transitions[j].target;
        var up := if s.kind == HistoryDeep && t * s.children == {} then FirstTargetAncestors(c, t, i + 1) else {};
        Entry(e.states + t + up, e.trans + {j})
    else
      e.(states := e.states + s.completion * hist)
  }

  /** A compound state is completed when nothing below it is being entered and
      nothing below it stays active. */
  predicate Completes(c: Chart, cfg: set<nat>, exits: set<nat>, states: set<nat>, i: nat)
    requires i < Size(c)
  {
    var kids := c.states[i].children;
    states * kids == {} && (cfg * kids == {} || exits * kids != {})
  }

  function ResolveCompound(c: Chart, cfg: set<nat>, exits: set<nat>, e: Entry, i: nat): Entry
    requires i < Size(c)
  {
    var s := c.states[i];
    if Completes(c, cfg, exits, e.states, i) then
      var deep := if s.completion * s.children == {} then FirstTargetAncestors(c, s.completion, i + 1) else {};
      e.(states := e.states + s.completion + deep)
    else e
  }

  function Resolve(c: Chart, cfg: set<nat>, hist: set<nat>, exits: set<nat>, e: Entry, i: nat): Entry
    requires i < Size(c)
  {
    match c.states[i].kind
    case Atomic => e
    case Final => e
    case Parallel => e.(states := e.states + c.states[i].completion)
    case HistoryDeep => ResolveHistory(c, cfg, hist, e, i)
    case HistoryShallow => ResolveHistory(c, cfg, hist, e, i)
    case Initial => ResolveInitial(c, e, i, 0)
    case Compound => ResolveCompound(c, cfg, exits, e, i)
  }

  /** The pass from state `i` on. */
  function Descend(c: Chart, cfg: set<nat>, hist: set<nat>, exits: set<nat>, e: Entry, i: nat): Entry
    decreases Size(c) - i
  {
    if i >= Size(c) then e
    else Descend(c, cfg, hist, exits, if i in e.states then Resolve(c, cfg, hist, exits, e, i) else e, i + 1)
  }

  // ---- What a chart author may write ----

  /** Some state of `t` is `x` or lies below it. */
  ghost predicate Reaches(c: Chart, t: set<nat>, x: nat) {
    exists tx :: tx in t && AtOrUnder(c, tx, x)
  }

  /** No compound state is asked to enter two of its children, and a history
      state speaks for its whole parent. */
  ghost predicate Compatible(c: Chart, t: set<nat>) {
    forall k: nat, x: nat, y: nat |
      ChildOf(c, x, k) && ChildOf(c, y, k) && x != y && Reaches(c, t, x) && Reaches(c, t, y) ::
      IsParallel(c, k) && !IsHistory(c, x) && !IsHistory(c, y)
  }

  ghost predicate TargetsOk(c: Chart, base: nat, t: set<nat>) {
    && t != {}
    && (forall x | x in t :: Under(c, x, base) && c.states[x].kind != Initial)
    && Compatible(c, t)
  }

  function HistoryMask(c: Chart, h: nat): set<nat>
    requires h < Size(c)
  {
    var p := c.states[h].parent;
    set k | 0 <= k < Size(c) && !IsHistory(c, k)
            && (if c.states[h].kind == HistoryDeep then Under(c, k, p) else ChildOf(c, k, p))
  }

  /** What the default transition `j` of history state `h` adds to the entry set. */
  function HistoryDefault(c: Chart, h: nat, j: nat): set<nat>
    requires h < Size(c) && j < |c.transitions|
  {
    var t := c.transitions[j].target;
    t + if c.states[h].kind == HistoryDeep then FirstTargetAncestors(c, t, h + 1) else {}
  }

  ghost predicate HistoryDefaultOk(c: Chart, h: nat, j: nat)
    requires h < Size(c) && j < |c.transitions|
  {
    var t := c.transitions[j].target;
    TargetsOk(c, c.states[h].parent, t) && forall x | x in t :: Proper(c, x)
  }

  /** Nothing is recorded and the parent is not active. */
  predicate TakesDefault(c: Chart, cfg: set<nat>, hist: set<nat>, h: nat)
    requires h < Size(c)
  {
    c.states[h].completion * hist == {} && c.states[h].parent !in cfg
  }

  /** The default of a history state leaves no gap below the history's parent. */
  ghost predicate DefaultClosed(c: Chart, h: nat, j: nat)
    requires h < Size(c) && j < |c.transitions|
  {
    var p := c.states[h].parent;
    forall k: nat, x | ChildOf(c, x, k) && x in HistoryDefault(c, h, j) && Under(c, x, p) && k != p ::
      k in HistoryDefault(c, h, j)
  }

  ghost predicate DefaultsClosed(c: Chart) {
    forall h: nat | IsHistory(c, h) && FirstFrom(c, h, 0) < |c.transitions| :: DefaultClosed(c, h, FirstFrom(c, h, 0))
  }

  ghost predicate StateOk(c: Chart, i: nat)
    requires i < Size(c)
  {
    match c.states[i].kind
    case Atomic => c.states[i].children == {}
    case Final => c.states[i].children == {}
    case Parallel => c.states[i].completion == ProperChildren(c, i)
    case Compound => CompoundOk(c, i)
    case Initial => InitialOk(c, i)
    case HistoryDeep => HistoryOk(c, i)
    case HistoryShallow => HistoryOk(c, i)
  }

  /** A compound state completes to one state below it: an `<initial>` child, or
      the proper state its `initial` attribute names, at whatever depth. */
  ghost predicate CompoundOk(c: Chart, i: nat)
    requires i < Size(c)
  {
    exists x: nat :: CompletesTo(c, i, x)
  }

  predicate CompletesTo(c: Chart, i: nat, x: nat)
    requires i < Size(c)
  {
    Under(c, x, i) && !IsHistory(c, x) && (Proper(c, x) || ChildOf(c, x, i)) && c.states[i].completion == {x}
  }

  /** No `initial` attribute reaches further down than to a child. */
  ghost predicate ChildCompletions(c: Chart) {
    forall i: nat, x | IsCompound(c, i) && x in c.states[i].completion :: ChildOf(c, x, i)
  }

  /** An initial pseudo-state is the first child of a compound state and has one
      transition, to compatible states below that compound. */
  ghost predicate InitialOk(c: Chart, i: nat)
    requires i < Size(c)
  {
    && 0 < i && IsCompound(c, Parent(c, i))
    && (forall k: nat | Under(c, k, Parent(c, i)) && k != i :: i < k)
    && FirstFrom(c, i, 0) < |c.transitions|
    && FirstFrom(c, i, FirstFrom(c, i, 0) + 1) == |c.transitions|
    && TargetsOk(c, Parent(c, i), c.transitions[FirstFrom(c, i, 0)].target)
  }

  /** A history state precedes the proper states below its parent, covers what its
      type says, and has a default transition. */
  ghost predicate HistoryOk(c: Chart, i: nat)
    requires i < Size(c)
  {
    && 0 < i
    && (forall k: nat | Under(c, k, Parent(c, i)) && Proper(c, k) :: i < k)
    && c.states[i].children == {}
    && c.states[i].completion == HistoryMask(c, i)
    && FirstFrom(c, i, 0) < |c.transitions|
    && HistoryDefaultOk(c, i, FirstFrom(c, i, 0))
  }

  /** The interpreter's tables: all ancestors, and all descendants as children. */
  ghost predicate TableAt(c: Chart, i: nat)
    requires i < Size(c)
  {
    c.states[i].ancestors == AncestorsOf(c, i) && c.states[i].children == Descendants(c, i)
  }

  ghost predicate TablesOk(c: Chart) {
    forall i: nat | i < Size(c) :: TableAt(c, i)
  }

  ghost predicate StatesOk(c: Chart) {
    TablesOk(c) && forall i: nat | i < Size(c) :: StateOk(c, i)
  }

  // ---- Legal configurations ----

  ghost predicate HasChildIn(c: Chart, k: nat, s: set<nat>) {
    exists x: nat :: ChildOf(c, x, k) && Proper(c, x) && x in s
  }

  ghost predicate ParentsIn(c: Chart, s: set<nat>) {
    forall k: nat, x | ChildOf(c, x, k) && x in s :: k in s
  }

  /** Only parallel states have two children in `s`. */
  ghost predicate OneChildEach(c: Chart, s: set<nat>) {
    forall k: nat, x, y | ChildOf(c, x, k) && ChildOf(c, y, k) && x in s && y in s && x != y :: IsParallel(c, k)
  }

  ghost predicate AllRegionsIn(c: Chart, s: set<nat>) {
    forall k, x: nat | ChildOf(c, x, k) && k in s && IsParallel(c, k) && Proper(c, x) :: x in s
  }

  ghost predicate CompoundsFilled(c: Chart, s: set<nat>) {
    forall k | k in s && IsCompound(c, k) :: HasChildIn(c, k, s)
  }

  /** Legal in the sense of section 3.11 of the SCXML Recommendation. */
  ghost predicate Legal(c: Chart, s: set<nat>) {
    && 0 in s
    && (forall x | x in s :: Proper(c, x))
    && ParentsIn(c, s)
    && CompoundsFilled(c, s)
    && OneChildEach(c, s)
    && AllRegionsIn(c, s)
  }

  /** `r` is the part of a legal configuration strictly below `p`: all of it when
      `deep`, its top layer otherwise. */
  ghost predicate LegalBelow(c: Chart, p: nat, r: set<nat>, deep: bool) {
    && (forall x | x in r :: Proper(c, x) && Under(c, x, p))
    && (forall k: nat, x | ChildOf(c, x, k) && x in r :: k == p || (deep && k in r))
    && OneChildEach(c, r)
    && (IsCompound(c, p) ==> HasChildIn(c, p, r))
    && (forall x: nat | IsParallel(c, p) && ChildOf(c, x, p) && Proper(c, x) :: x in r)
    && (deep ==> CompoundsFilled(c, r) && AllRegionsIn(c, r))
  }

  /** What each history state would bring back when its parent is inactive. */
  ghost predicate HistoryLegal(c: Chart, cfg: set<nat>, hist: set<nat>) {
    forall h: nat, p: nat | ChildOf(c, h, p) && IsHistory(c, h) && p !in cfg ::
      var r := HistoryMask(c, h) * hist;
      r == {} || LegalBelow(c, p, r, c.states[h].kind == HistoryDeep)
  }

  // ---- The zone a microstep re-enters ----

  /** `z` is the part of the tree a microstep leaves and re-enters: everything
      below some active compound states, or everything when starting. */
  ghost predicate ZoneOk(c: Chart, cfg: set<nat>, z: set<nat>) {
    && (forall x | x in z :: x < Size(c))
    && (forall k, x: nat | ChildOf(c, x, k) && k in z :: x in z)
    && (forall k: nat, x, y: nat | ChildOf(c, x, k) && ChildOf(c, y, k) && x in z :: y in z)
    && (forall k: nat, x | ChildOf(c, x, k) && x in z && k !in z :: IsCompound(c, k) && k in cfg)
    && (if cfg == {} then 0 in z else Legal(c, cfg) && 0 !in z)
  }

  /** Every history state in the zone is resolved against a usable record. */
  ghost predicate HistoryReady(c: Chart, cfg: set<nat>, hist: set<nat>, z: set<nat>) {
    forall h: nat, p | ChildOf(c, h, p) && IsHistory(c, h) && p in z ::
      var r := HistoryMask(c, h) * hist;
      || (r == {} && p !in cfg)
      || LegalBelow(c, p, r, c.states[h].kind == HistoryDeep)
  }

  /** A state that still counts when the pass has reached `i`: a proper one, or a
      pseudo-state not resolved yet. */
  predicate Live(c: Chart, e: set<nat>, x: nat, i: nat) {
    x in e && x < Size(c) && (Proper(c, x) || i <= x)
  }

  ghost predicate HasLiveChild(c: Chart, e: set<nat>, k: nat, i: nat) {
    exists x: nat :: ChildOf(c, x, k) && Live(c, e, x, i)
  }

  ghost predicate Shape(c: Chart, cfg: set<nat>, z: set<nat>, e: set<nat>, i: nat) {
    && (forall x | x in e :: x < Size(c) && (x in z || (x in cfg && Proper(c, x))))
    && ParentsIn(c, e)
    && (forall x | x in e && IsHistory(c, x) :: x in z)
    && (forall k: nat, x: nat | ChildOf(c, x, k) && x in e && c.states[x].kind == Initial :: k in z)
    && (forall x | x in e && x < i :: c.states[x].kind != Initial)
    && (cfg == {} ==> 0 in e)
    && EdgesFilled(c, z, e, i)
  }

  /** Every kept state with children in the zone gets one back. */
  ghost predicate EdgesFilled(c: Chart, z: set<nat>, e: set<nat>, i: nat) {
    forall k: nat, x | ChildOf(c, x, k) && x in z && k !in z :: HasLiveChild(c, e, k, i)
  }

  /** Two siblings that count are regions of a parallel state. */
  ghost predicate ApartLive(c: Chart, e: set<nat>, i: nat) {
    forall k: nat, x: nat, y: nat |
      ChildOf(c, x, k) && ChildOf(c, y, k) && x != y && Live(c, e, x, i) && Live(c, e, y, i) ::
      IsParallel(c, k)
  }

  /** Below the parent of a history state still to be resolved, at most the
      parent's proper children have been entered. */
  ghost predicate ApartHistory(c: Chart, e: set<nat>, i: nat) {
    forall k: nat, h, y |
      ChildOf(c, h, k) && h in e && IsHistory(c, h) && i <= h && y in e && Under(c, y, k) && y != h ::
      ChildOf(c, y, k) && Proper(c, y)
  }

  ghost predicate Apart(c: Chart, e: set<nat>, i: nat) {
    ApartLive(c, e, i) && ApartHistory(c, e, i)
  }

  ghost predicate Filled(c: Chart, z: set<nat>, e: set<nat>, i: nat) {
    && (forall k | k in e && k in z && k < i && IsCompound(c, k) :: HasLiveChild(c, e, k, i))
    && (forall k: nat, x: nat | ChildOf(c, x, k) && k in e && k in z && k < i && IsParallel(c, k) && Proper(c, x) :: x in e)
  }

  /** What holds when the pass has dealt with every state below `i`. */
  ghost predicate PassInv(c: Chart, cfg: set<nat>, z: set<nat>, e: set<nat>, i: nat) {
    Shape(c, cfg, z, e, i) && Apart(c, e, i) && Filled(c, z, e, i)
  }

  /** What history state `h` would bring back is legal below its parent. */
  ghost predicate Restorable(c: Chart, hist: set<nat>, h: nat)
    requires 0 < h < Size(c)
  {
    LegalBelow(c, Parent(c, h), HistoryMask(c, h) * hist, c.states[h].kind == HistoryDeep)
  }

  /** A history state entered below a kept state has something to bring back. */
  ghost predicate Recorded(c: Chart, hist: set<nat>, z: set<nat>, e: set<nat>) {
    forall h: nat, p | ChildOf(c, h, p) && IsHistory(c, h) && h in e && p !in z :: Restorable(c, hist, h)
  }

  ghost predicate Setting(c: Chart, cfg: set<nat>, hist: set<nat>, z: set<nat>) {
    StatesOk(c) && ZoneOk(c, cfg, z) && HistoryReady(c, cfg, hist, z)
  }

  // ---- Each case of the pass keeps the invariant ----

  /** Moving on: a state that needs nothing itself keeps the filled part filled. */
  lemma FilledAdvances(c: Chart, z: set<nat>, e: set<nat>, i: nat)
    requires Filled(c, z, e, i) && i < Size(c) && (i in e ==> !IsPseudoKind(c.states[i].kind))
    requires i in e && i in z && IsCompound(c, i) ==> HasLiveChild(c, e, i, i + 1)
    requires forall x: nat | i in e && i in z && IsParallel(c, i) && ChildOf(c, x, i) && Proper(c, x) :: x in e
    ensures Filled(c, z, e, i + 1)
  {
    forall k | k in e && k in z && k < i + 1 && IsCompound(c, k)
      ensures HasLiveChild(c, e, k, i + 1)
    {
      if k < i {
        var x: nat :| ChildOf(c, x, k) && Live(c, e, x, i);
        assert Live(c, e, x, i + 1);
      }
    }
  }

  lemma ApartAdvances(c: Chart, e: set<nat>, i: nat)
    requires Apart(c, e, i)
    ensures Apart(c, e, i + 1)
  {
    assert forall x: nat | Live(c, e, x, i + 1) :: Live(c, e, x, i);
  }

  lemma PassSkips(c: Chart, cfg: set<nat>, z: set<nat>, e: set<nat>, i: nat)
    requires PassInv(c, cfg, z, e, i) && i < Size(c)
    requires i in e ==> c.states[i].kind == Atomic || c.states[i].kind == Final
    ensures PassInv(c, cfg, z, e, i + 1)
  {
    ApartAdvances(c, e, i);
    FilledAdvances(c, z, e, i);
    ShapeAdvances(c, cfg, z, e, i);
  }

  lemma ShapeAdvances(c: Chart, cfg: set<nat>, z: set<nat>, e: set<nat>, i: nat)
    requires Shape(c, cfg, z, e, i) && i < Size(c) && (i in e ==> !IsPseudoKind(c.states[i].kind))
    ensures Shape(c, cfg, z, e, i + 1)
  {
    EdgesStay(c, z, e, e, i);
  }

  // ---- Facts about the growing set ----

  lemma {:induction false} AncestorIn(c: Chart, s: set<nat>, x: nat, a: nat)
    requires ParentsIn(c, s) && x in s && Under(c, x, a)
    ensures a in s
    decreases x
  {
    assert ChildOf(c, x, Parent(c, x));
    if Parent(c, x) != a {
      AncestorIn(c, s, Parent(c, x), a);
    }
  }

  lemma {:induction false} UnderInZone(c: Chart, cfg: set<nat>, z: set<nat>, x: nat, a: nat)
    requires ZoneOk(c, cfg, z) && Under(c, x, a) && a in z
    ensures x in z
    decreases x
  {
    assert ChildOf(c, x, Parent(c, x));
    if Parent(c, x) != a {
      UnderInZone(c, cfg, z, Parent(c, x), a);
    }
  }

  lemma TowardIn(c: Chart, s: set<nat>, y: nat, a: nat) returns (w: nat)
    requires ParentsIn(c, s) && y in s && Under(c, y, a)
    ensures ChildOf(c, w, a) && w in s && AtOrUnder(c, y, w)
  {
    w := Toward(c, a, y);
    if y != w { AncestorIn(c, s, y, w); }
  }

  /** The edge of the zone on the way up from `y` to the kept state `a`. */
  lemma {:induction false} EdgeAbove(c: Chart, z: set<nat>, y: nat, a: nat) returns (w: nat, k: nat)
    requires Under(c, y, a) && y in z && a !in z
    ensures ChildOf(c, w, k) && w in z && k !in z && AtOrUnder(c, k, a)
    decreases y
  {
    k := Parent(c, y);
    assert ChildOf(c, y, k);
    if k in z {
      w, k := EdgeAbove(c, z, k, a);
    } else {
      w := y;
      UnderBounds(c, y, a);
    }
  }

  /** Pseudo-states come before the proper states below their parent. */
  lemma PseudoFirst(c: Chart, h: nat, k: nat, y: nat)
    requires StatesOk(c) && ChildOf(c, h, k) && IsHistory(c, h) && Under(c, y, k) && Proper(c, y)
    ensures h < y
  {
    assert StateOk(c, h);
  }

  // ---- Parallel and compound states ----

  lemma ParallelApart(c: Chart, cfg: set<nat>, z: set<nat>, e: set<nat>, i: nat)
    requires StatesOk(c) && PassInv(c, cfg, z, e, i) && i in e && IsParallel(c, i)
    ensures Apart(c, e + ProperChildren(c, i), i + 1)
  {
    var e' := e + ProperChildren(c, i);
    assert ApartLive(c, e', i + 1) by {
      assert forall x: nat | Live(c, e', x, i + 1) :: Live(c, e, x, i) || ChildOf(c, x, i);
    }
    forall k: nat, h, y |
      ChildOf(c, h, k) && h in e' && IsHistory(c, h) && i + 1 <= h && y in e' && Under(c, y, k) && y != h
      ensures ChildOf(c, y, k) && Proper(c, y)
    {
      if y !in e {
        NewRegion(c, h, k, i, y);
      }
    }
  }

  /** A state newly entered below the proper state `i` cannot disturb a history
      state that comes after `i`, unless that lies below `i` as well. */
  lemma NewBelow(c: Chart, h: nat, k: nat, i: nat, y: nat)
    requires StatesOk(c) && ChildOf(c, h, k) && IsHistory(c, h) && Proper(c, i) && i < h
    requires Under(c, y, i) && Under(c, y, k)
    ensures k == i || Under(c, k, i)
  {
    Comparable(c, y, i, k);
    if Under(c, i, k) {
      PseudoFirst(c, h, k, i);
    }
  }

  lemma NewRegion(c: Chart, h: nat, k: nat, i: nat, y: nat)
    requires StatesOk(c) && ChildOf(c, h, k) && IsHistory(c, h) && Proper(c, i) && i < h
    requires ChildOf(c, y, i) && Under(c, y, k)
    ensures k == i
  {
    ChildUnder(c, y, i);
    NewBelow(c, h, k, i, y);
    if k != i {
      UnderBounds(c, i, k);
      UnderBounds(c, k, i);
    }
  }

  lemma ParallelShape(c: Chart, cfg: set<nat>, z: set<nat>, e: set<nat>, i: nat)
    requires ZoneOk(c, cfg, z) && Shape(c, cfg, z, e, i) && i in e && IsParallel(c, i)
    ensures Shape(c, cfg, z, e + ProperChildren(c, i), i + 1)
  {
    var e' := e + ProperChildren(c, i);
    forall x | x in e' ensures x < Size(c) && (x in z || (x in cfg && Proper(c, x))) {
      if x !in e { assert ChildOf(c, x, i); }
    }
    EdgesStay(c, z, e, e', i);
  }

  lemma EdgesStay(c: Chart, z: set<nat>, e: set<nat>, e': set<nat>, i: nat)
    requires EdgesFilled(c, z, e, i) && e <= e' && i < Size(c) && (i in e ==> !IsPseudoKind(c.states[i].kind))
    ensures EdgesFilled(c, z, e', i + 1)
  {
    forall k: nat, x | ChildOf(c, x, k) && x in z && k !in z
      ensures HasLiveChild(c, e', k, i + 1)
    {
      var y: nat :| ChildOf(c, y, k) && Live(c, e, y, i);
      assert Live(c, e', y, i + 1);
    }
  }

  lemma FilledGrows(c: Chart, z: set<nat>, e: set<nat>, e': set<nat>, i: nat)
    requires Filled(c, z, e, i) && e <= e'
    requires forall x | x in e' && x !in e :: i < x
    ensures Filled(c, z, e', i)
  {
    forall k | k in e' && k in z && k < i && IsCompound(c, k)
      ensures HasLiveChild(c, e', k, i)
    {
      var x: nat :| ChildOf(c, x, k) && Live(c, e, x, i);
      assert Live(c, e', x, i);
    }
  }

  lemma PassParallel(c: Chart, cfg: set<nat>, z: set<nat>, e: set<nat>, i: nat)
    requires StatesOk(c) && ZoneOk(c, cfg, z) && PassInv(c, cfg, z, e, i) && i in e && IsParallel(c, i)
    ensures PassInv(c, cfg, z, e + ProperChildren(c, i), i + 1)
  {
    var e' := e + ProperChildren(c, i);
    ParallelApart(c, cfg, z, e, i);
    ParallelShape(c, cfg, z, e, i);
    FilledGrows(c, z, e, e', i);
    FilledAdvances(c, z, e', i);
  }

  /** A compound state outside the zone is never completed: either it keeps a
      child, or a transition domain at or below it gets a new one. */
  lemma KeptNotCompleted(c: Chart, cfg: set<nat>, z: set<nat>, e: set<nat>, i: nat)
    requires StatesOk(c) && ZoneOk(c, cfg, z) && Shape(c, cfg, z, e, i)
    requires i in e && i !in z && IsCompound(c, i)
    ensures !Completes(c, cfg, cfg * z, e, i)
  {
    var kids := c.states[i].children;
    assert TableAt(c, i);
    var x: nat :| ChildOf(c, x, i) && Proper(c, x) && x in cfg;
    ChildUnder(c, x, i);
    assert x in cfg * kids;
    if cfg * z * kids != {} {
      var y :| y in cfg * z * kids;
      EdgeEntered(c, z, e, i, i, y);
    }
  }

  lemma EdgeEntered(c: Chart, z: set<nat>, e: set<nat>, i: nat, i': nat, y: nat)
    requires i < Size(c) && TableAt(c, i) && EdgesFilled(c, z, e, i')
    requires i !in z && y in z && Under(c, y, i)
    ensures e * c.states[i].children != {}
  {
    var w, k := EdgeAbove(c, z, y, i);
    var u: nat :| ChildOf(c, u, k) && Live(c, e, u, i');
    ChildUnder(c, u, k);
    AtOrUnderTransitive(c, u, k, i);
    assert u in e * c.states[i].children;
  }

  /** In the zone, only what is being entered counts. */
  lemma ZoneCompletes(c: Chart, cfg: set<nat>, z: set<nat>, e: set<nat>, i: nat)
    requires StatesOk(c) && ZoneOk(c, cfg, z) && i in z && IsCompound(c, i)
    ensures Completes(c, cfg, cfg * z, e, i) <==> (forall y | y in e && Under(c, y, i) :: false)
  {
    var kids := c.states[i].children;
    assert TableAt(c, i);
    forall y | y in kids ensures y in z { UnderInZone(c, cfg, z, y, i); }
    assert cfg * kids == cfg * z * kids;
    assert forall y | y in e && Under(c, y, i) :: y in e * kids;
  }

  /** What completing the compound state `i` brings in: some states below it with
      all those in between. */
  ghost predicate Completion(c: Chart, b: set<nat>, i: nat) {
    && (forall y | y in b :: Under(c, y, i) && !IsHistory(c, y))
    && (forall k: nat, y | ChildOf(c, y, k) && y in b :: k == i || k in b)
    && OneChildEach(c, b)
    && exists w :: ChildOf(c, w, i) && w in b
  }

  lemma CompoundApart(c: Chart, e: set<nat>, i: nat, b: set<nat>)
    requires StatesOk(c) && Apart(c, e, i) && i in e && IsCompound(c, i)
    requires forall y | y in e && Under(c, y, i) :: false
    requires Completion(c, b, i)
    ensures Apart(c, e + b, i + 1)
  {
    var e' := e + b;
    assert ApartLive(c, e', i + 1) by {
      forall k: nat, y: nat, w: nat |
        ChildOf(c, y, k) && ChildOf(c, w, k) && y != w && Live(c, e', y, i + 1) && Live(c, e', w, i + 1)
        ensures IsParallel(c, k)
      {
        if y in b {
          CompletionSibling(c, e, b, i, k, y, w);
        } else if w in b {
          CompletionSibling(c, e, b, i, k, w, y);
        } else {
          assert Live(c, e, y, i) && Live(c, e, w, i);
        }
      }
    }
    forall k: nat, h, y |
      ChildOf(c, h, k) && h in e' && IsHistory(c, h) && i + 1 <= h && y in e' && Under(c, y, k) && y != h
      ensures ChildOf(c, y, k) && Proper(c, y)
    {
      if y !in e {
        NewBelow(c, h, k, i, y);
        ChildUnder(c, h, k);
        AtOrUnderTransitive(c, h, k, i);
        assert false;
      }
    }
  }

  lemma CompletionSibling(c: Chart, e: set<nat>, b: set<nat>, i: nat, k: nat, y: nat, w: nat)
    requires Completion(c, b, i) && (forall v | v in e && Under(c, v, i) :: false)
    requires ChildOf(c, y, k) && ChildOf(c, w, k) && y != w && y in b && w in e + b
    ensures IsParallel(c, k)
  {
    UnderSibling(c, w, y, k, i);
    assert OneChildEach(c, b);
  }

  lemma PassCompletion(c: Chart, cfg: set<nat>, z: set<nat>, e: set<nat>, i: nat, b: set<nat>)
    requires StatesOk(c) && ZoneOk(c, cfg, z) && PassInv(c, cfg, z, e, i) && i in e && i in z && IsCompound(c, i)
    requires forall y | y in e && Under(c, y, i) :: false
    requires Completion(c, b, i)
    ensures PassInv(c, cfg, z, e + b, i + 1)
  {
    var e' := e + b;
    CompoundApart(c, e, i, b);
    EdgesStay(c, z, e, e', i);
    CompletionShape(c, cfg, z, e, i, b);
    forall y | y in b ensures i < y { UnderBounds(c, y, i); }
    FilledGrows(c, z, e, e', i);
    var w :| ChildOf(c, w, i) && w in b;
    assert Live(c, e', w, i + 1);
    FilledAdvances(c, z, e', i);
  }

  lemma CompletionShape(c: Chart, cfg: set<nat>, z: set<nat>, e: set<nat>, i: nat, b: set<nat>)
    requires ZoneOk(c, cfg, z) && Shape(c, cfg, z, e, i) && i in e && i in z && IsCompound(c, i)
    requires Completion(c, b, i) && EdgesFilled(c, z, e + b, i + 1)
    ensures Shape(c, cfg, z, e + b, i + 1)
  {
    forall y | y in b ensures y in z && i < y {
      UnderInZone(c, cfg, z, y, i);
      UnderBounds(c, y, i);
    }
  }

  lemma PassCompound(c: Chart, cfg: set<nat>, z: set<nat>, e: set<nat>, i: nat, x: nat)
    requires StatesOk(c) && ZoneOk(c, cfg, z) && PassInv(c, cfg, z, e, i) && i in e && i in z && IsCompound(c, i)
    requires forall y | y in e && Under(c, y, i) :: false
    requires ChildOf(c, x, i) && !IsHistory(c, x)
    ensures PassInv(c, cfg, z, e + {x}, i + 1)
  {
    assert Completion(c, {x}, i);
    PassCompletion(c, cfg, z, e, i, {x});
  }

  lemma PassCompoundBusy(c: Chart, cfg: set<nat>, z: set<nat>, e: set<nat>, i: nat)
    requires PassInv(c, cfg, z, e, i) && i in e && IsCompound(c, i)
    requires i in z ==> exists y: nat :: y in e && Under(c, y, i)
    ensures PassInv(c, cfg, z, e, i + 1)
  {
    if i in z {
      var y: nat :| y in e && Under(c, y, i);
      var w := TowardIn(c, e, y, i);
      assert Live(c, e, w, i + 1);
    }
    ApartAdvances(c, e, i);
    FilledAdvances(c, z, e, i);
    ShapeAdvances(c, cfg, z, e, i);
  }

  // ---- Pseudo-states ----

  /** What the pseudo-state `i` below `p` brings in. */
  ghost predicate GraftMembers(c: Chart, p: nat, b: set<nat>, i: nat) {
    && (forall x | x in b :: Under(c, x, p) && i < x && c.states[x].kind != Initial)
    && (forall k: nat, x | ChildOf(c, x, k) && x in b :: k == p || k in b)
    && (IsParallel(c, p) || IsHistory(c, i) ==> forall x | x in b :: Proper(c, x))
    && (IsCompound(c, p) ==> exists x :: ChildOf(c, x, p) && x in b)
  }

  ghost predicate GraftApart(c: Chart, b: set<nat>) {
    && OneChildEach(c, b)
    && forall k: nat, h, y | ChildOf(c, h, k) && h in b && IsHistory(c, h) && y in b && Under(c, y, k) :: y == h
  }

  ghost predicate Graft(c: Chart, p: nat, b: set<nat>, i: nat) {
    GraftMembers(c, p, b, i) && GraftApart(c, b)
  }

  /** Below the parent `p` of the pseudo-state `i`, nothing but `i` has been
      resolved: at most the regions of a parallel are there too. */
  ghost predicate OnlyHere(c: Chart, p: nat, e: set<nat>, i: nat) {
    forall y: nat | y in e && Under(c, y, p) :: y == i || (IsParallel(c, p) && ChildOf(c, y, p) && Proper(c, y))
  }

  predicate Grafted(c: Chart, e: set<nat>, i: nat, b: set<nat>, e': set<nat>)
    requires i < Size(c)
  {
    e' == (if IsHistory(c, i) then e else e - {i}) + b
  }

  lemma GraftShape(c: Chart, cfg: set<nat>, z: set<nat>, e: set<nat>, i: nat, p: nat, b: set<nat>, e': set<nat>)
    requires ZoneOk(c, cfg, z) && Shape(c, cfg, z, e, i)
    requires i in e && ChildOf(c, i, p) && i in z && IsPseudoKind(c.states[i].kind)
    requires GraftMembers(c, p, b, i) && Grafted(c, e, i, b, e')
    ensures Shape(c, cfg, z, e', i + 1)
  {
    assert p in e;
    forall x | x in b ensures x in z {
      var w := Toward(c, p, x);
      if w != x { UnderInZone(c, cfg, z, x, w); }
    }
    forall k: nat, x | ChildOf(c, x, k) && x in e' ensures k in e' { }
    GraftEdges(c, cfg, z, e, i, p, b, e');
  }

  lemma GraftEdges(c: Chart, cfg: set<nat>, z: set<nat>, e: set<nat>, i: nat, p: nat, b: set<nat>, e': set<nat>)
    requires ZoneOk(c, cfg, z) && EdgesFilled(c, z, e, i)
    requires i in e && ChildOf(c, i, p) && IsPseudoKind(c.states[i].kind)
    requires GraftMembers(c, p, b, i) && Grafted(c, e, i, b, e')
    ensures EdgesFilled(c, z, e', i + 1)
  {
    forall k: nat, x | ChildOf(c, x, k) && x in z && k !in z
      ensures HasLiveChild(c, e', k, i + 1)
    {
      var y: nat :| ChildOf(c, y, k) && Live(c, e, y, i);
      GraftChild(c, e, i, p, b, e', k, y);
    }
  }

  /** The child that counted still does, or the graft has brought another. */
  lemma GraftChild(c: Chart, e: set<nat>, i: nat, p: nat, b: set<nat>, e': set<nat>, k: nat, x: nat)
    requires i in e && ChildOf(c, i, p) && IsPseudoKind(c.states[i].kind)
    requires GraftMembers(c, p, b, i) && Grafted(c, e, i, b, e')
    requires IsCompound(c, k) && ChildOf(c, x, k) && Live(c, e, x, i)
    ensures HasLiveChild(c, e', k, i + 1)
  {
    if x == i {
      var y :| ChildOf(c, y, p) && y in b;
      assert Live(c, e', y, i + 1);
    } else {
      assert Live(c, e', x, i + 1);
    }
  }

  lemma GraftFilled(c: Chart, cfg: set<nat>, z: set<nat>, e: set<nat>, i: nat, p: nat, b: set<nat>, e': set<nat>)
    requires Filled(c, z, e, i)
    requires i in e && ChildOf(c, i, p) && IsPseudoKind(c.states[i].kind)
    requires GraftMembers(c, p, b, i) && Grafted(c, e, i, b, e')
    ensures Filled(c, z, e', i + 1)
  {
    forall k | k in e' && k in z && k < i + 1 && IsCompound(c, k)
      ensures HasLiveChild(c, e', k, i + 1)
    {
      var x: nat :| ChildOf(c, x, k) && Live(c, e, x, i);
      GraftChild(c, e, i, p, b, e', k, x);
    }
  }

  lemma GraftLive(c: Chart, e: set<nat>, i: nat, p: nat, b: set<nat>, e': set<nat>)
    requires ApartLive(c, e, i) && i in e && ChildOf(c, i, p) && IsPseudoKind(c.states[i].kind)
    requires Graft(c, p, b, i) && Grafted(c, e, i, b, e') && OnlyHere(c, p, e, i)
    ensures ApartLive(c, e', i + 1)
  {
    forall k: nat, x: nat, y: nat |
      ChildOf(c, x, k) && ChildOf(c, y, k) && x != y && Live(c, e', x, i + 1) && Live(c, e', y, i + 1)
      ensures IsParallel(c, k)
    {
      if x in b && y !in b {
        GraftSibling(c, p, e, i, b, k, x, y);
      } else if y in b && x !in b {
        GraftSibling(c, p, e, i, b, k, y, x);
      } else if x !in b {
        assert Live(c, e, x, i) && Live(c, e, y, i);
      }
    }
  }

  /** A sibling of a grafted state that was there before is a region of `p`. */
  lemma GraftSibling(c: Chart, p: nat, e: set<nat>, i: nat, b: set<nat>, k: nat, x: nat, y: nat)
    requires GraftMembers(c, p, b, i) && OnlyHere(c, p, e, i)
    requires ChildOf(c, x, k) && ChildOf(c, y, k) && x in b && y in e
    ensures y == i || (IsParallel(c, k) && k == p && Proper(c, y))
  {
    assert AtOrUnder(c, k, p);
    ChildUnder(c, y, k);
    AtOrUnderTransitive(c, y, k, p);
  }

  lemma GraftHistory(c: Chart, e: set<nat>, i: nat, p: nat, b: set<nat>, e': set<nat>)
    requires StatesOk(c) && ApartHistory(c, e, i) && i in e && ChildOf(c, i, p) && IsPseudoKind(c.states[i].kind)
    requires Graft(c, p, b, i) && Grafted(c, e, i, b, e') && OnlyHere(c, p, e, i)
    ensures ApartHistory(c, e', i + 1)
  {
    forall k: nat, h, y |
      ChildOf(c, h, k) && h in e' && IsHistory(c, h) && i + 1 <= h && y in e' && Under(c, y, k) && y != h
      ensures ChildOf(c, y, k) && Proper(c, y)
    {
      if h in b {
        if y !in b { GraftOverHistory(c, e, i, p, b, k, h, y); }
      } else if y in b {
        GraftBesideHistory(c, e, i, p, b, k, h, y);
      }
    }
  }

  /** A grafted history state is alone below its parent. */
  lemma GraftOverHistory(c: Chart, e: set<nat>, i: nat, p: nat, b: set<nat>, k: nat, h: nat, y: nat)
    requires GraftMembers(c, p, b, i) && OnlyHere(c, p, e, i) && ChildOf(c, i, p)
    requires ChildOf(c, h, k) && h in b && IsHistory(c, h) && y in e && Under(c, y, k)
    ensures y == i && !IsHistory(c, i)
  {
    assert Under(c, h, p);
    assert AtOrUnder(c, k, p);
    AtOrUnderTransitive(c, y, k, p);
  }

  /** A graft leaves the history states still to be resolved alone. */
  lemma GraftBesideHistory(c: Chart, e: set<nat>, i: nat, p: nat, b: set<nat>, k: nat, h: nat, y: nat)
    requires StatesOk(c) && GraftMembers(c, p, b, i) && OnlyHere(c, p, e, i) && i in e && ChildOf(c, i, p)
    requires ApartHistory(c, e, i) && IsPseudoKind(c.states[i].kind)
    requires ChildOf(c, h, k) && h in e && IsHistory(c, h) && i < h && y in b
    ensures !Under(c, y, k)
  {
    if Under(c, y, k) {
      Comparable(c, y, k, p);
      if Under(c, p, k) {
        PseudoFirst(c, h, k, p);
      } else {
        ChildUnder(c, h, k);
        AtOrUnderTransitive(c, h, k, p);
      }
    }
  }

  lemma PassGraft(c: Chart, cfg: set<nat>, z: set<nat>, e: set<nat>, i: nat, p: nat, b: set<nat>, e': set<nat>)
    requires StatesOk(c) && ZoneOk(c, cfg, z) && PassInv(c, cfg, z, e, i)
    requires i in e && ChildOf(c, i, p) && i in z && IsPseudoKind(c.states[i].kind)
    requires Graft(c, p, b, i) && Grafted(c, e, i, b, e') && OnlyHere(c, p, e, i)
    ensures PassInv(c, cfg, z, e', i + 1)
  {
    GraftShape(c, cfg, z, e, i, p, b, e');
    GraftFilled(c, cfg, z, e, i, p, b, e');
    GraftLive(c, e, i, p, b, e');
    GraftHistory(c, e, i, p, b, e');
  }

  /** The states below `p` at or above a state of `t`. */
  ghost function Cover(c: Chart, p: nat, t: set<nat>): set<nat> {
    set x | 0 <= x < Size(c) && Under(c, x, p) && Reaches(c, t, x)
  }

  ghost predicate ClosedBelow(c: Chart, p: nat, b: set<nat>) {
    forall k: nat, x | ChildOf(c, x, k) && x in b && Under(c, x, p) && k != p :: k in b
  }

  lemma {:induction false} ClimbsTo(c: Chart, p: nat, b: set<nat>, x: nat) returns (w: nat)
    requires ClosedBelow(c, p, b)
    requires x in b && Under(c, x, p)
    ensures ChildOf(c, w, p) && w in b
    decreases x
  {
    w := x;
    if !ChildOf(c, x, p) {
      assert ChildOf(c, x, Parent(c, x));
      w := ClimbsTo(c, p, b, Parent(c, x));
    }
  }

  /** Compatible targets below `p`, closed upward as far as `p`, can be grafted. */
  lemma TargetsGraft(c: Chart, p: nat, t: set<nat>, b: set<nat>, i: nat)
    requires TargetsOk(c, p, t) && t <= b <= Cover(c, p, t)
    requires forall x | x in b :: i < x
    requires ClosedBelow(c, p, b)
    requires IsParallel(c, p) || IsHistory(c, i) ==> forall x | x in b :: Proper(c, x)
    ensures Graft(c, p, b, i)
  {
    hide Compatible, Reaches;
    TargetsMembers(c, p, t, b, i);
    TargetsApart(c, p, t, b);
  }

  lemma TargetsApart(c: Chart, p: nat, t: set<nat>, b: set<nat>)
    requires Compatible(c, t) && b <= Cover(c, p, t)
    ensures GraftApart(c, b)
  {
    hide Reaches;
    assert OneChildEach(c, b);
    forall k: nat, h, y | ChildOf(c, h, k) && h in b && IsHistory(c, h) && y in b && Under(c, y, k)
      ensures y == h
    {
      TargetAlone(c, t, k, h, y);
    }
  }

  lemma TargetsMembers(c: Chart, p: nat, t: set<nat>, b: set<nat>, i: nat)
    requires t != {} && (forall x | x in t :: Under(c, x, p) && c.states[x].kind != Initial)
    requires t <= b <= Cover(c, p, t)
    requires forall x | x in b :: i < x
    requires ClosedBelow(c, p, b)
    requires IsParallel(c, p) || IsHistory(c, i) ==> forall x | x in b :: Proper(c, x)
    ensures GraftMembers(c, p, b, i)
  {
    forall x | x in b ensures c.states[x].kind != Initial {
      var tx :| tx in t && AtOrUnder(c, tx, x);
      if tx != x { UnderBounds(c, tx, x); }
    }
    var t0 :| t0 in t;
    var w := ClimbsTo(c, p, b, t0);
  }

  /** A single target is always compatible with itself. */
  lemma SingletonCompatible(c: Chart, t: nat)
    requires t < Size(c)
    ensures Compatible(c, {t})
  {
    forall k: nat, x: nat, y: nat | ChildOf(c, x, k) && ChildOf(c, y, k) && Reaches(c, {t}, x) && Reaches(c, {t}, y) ensures x == y {
      Comparable(c, t, x, y);
      SiblingsApart(c, x, y, k);
      SiblingsApart(c, y, x, k);
    }
  }

  lemma SiblingsApart(c: Chart, x: nat, y: nat, k: nat)
    requires ChildOf(c, x, k) && ChildOf(c, y, k)
    ensures !Under(c, x, y)
  {
    if Under(c, k, y) { UnderBounds(c, k, y); }
  }

  lemma TargetAlone(c: Chart, t: set<nat>, k: nat, h: nat, y: nat)
    requires Compatible(c, t) && Reaches(c, t, h) && Reaches(c, t, y)
    requires ChildOf(c, h, k) && IsHistory(c, h) && Under(c, y, k)
    ensures y == h
  {
    var w := Toward(c, k, y);
    var ty :| ty in t && AtOrUnder(c, ty, y);
    AtOrUnderTransitive(c, ty, y, w);
    assert Reaches(c, t, w);
    if y != w { UnderBounds(c, y, w); }
  }

  lemma CoverClosed(c: Chart, p: nat, t: set<nat>)
    ensures ClosedBelow(c, p, Cover(c, p, t))
  {
    forall k: nat, x | ChildOf(c, x, k) && x in Cover(c, p, t) && Under(c, x, p) && k != p
      ensures k in Cover(c, p, t)
    {
      var tx :| tx in t && AtOrUnder(c, tx, x);
      ChildUnder(c, x, k);
      AtOrUnderTransitive(c, tx, x, k);
      assert Reaches(c, t, k);
    }
  }

  lemma TargetsReached(c: Chart, p: nat, t: set<nat>)
    requires forall x | x in t :: Under(c, x, p)
    ensures t <= Cover(c, p, t)
  {
    forall x | x in t ensures x in Cover(c, p, t) {
      assert AtOrUnder(c, x, x);
      assert Reaches(c, t, x);
    }
  }

  // ---- Initial pseudo-states ----

  lemma InitialAlone(c: Chart, cfg: set<nat>, z: set<nat>, e: set<nat>, i: nat, q: nat)
    requires ZoneOk(c, cfg, z) && Shape(c, cfg, z, e, i) && ApartLive(c, e, i)
    requires i in e && c.states[i].kind == Initial && ChildOf(c, i, q) && InitialOk(c, i)
    ensures OnlyHere(c, q, e, i) && q in z && i in z
  {
    forall y: nat | y in e && Under(c, y, q) ensures y == i {
      var w := TowardIn(c, e, y, q);
      ChildUnder(c, w, q);
      assert Live(c, e, i, i) && Live(c, e, w, i);
      if y != i { UnderBounds(c, y, w); }
    }
  }

  lemma InitialResolved(c: Chart, e: Entry, i: nat)
    requires i < Size(c) && InitialOk(c, i)
    ensures
      var j := FirstFrom(c, i, 0);
      var t := c.transitions[j].target;
      ResolveInitial(c, e, i, 0) == Entry(e.states - {i} + t + TargetAncestors(c, t, i + 1), e.trans + {j})
  {
    var j := FirstFrom(c, i, 0);
    SkipsTo(c, e, i, 0, j);
    var t := c.transitions[j].target;
    SkipsTo(c, Entry(e.states - {i} + t + TargetAncestors(c, t, i + 1), e.trans + {j}), i, j + 1, |c.transitions|);
  }

  lemma {:induction false} SkipsTo(c: Chart, e: Entry, i: nat, j: nat, l: nat)
    requires j <= l <= |c.transitions|
    requires forall k | j <= k < l :: c.transitions[k].source != i
    ensures ResolveInitial(c, e, i, j) == ResolveInitial(c, e, i, l)
    decreases l - j
  {
    if j < l { SkipsTo(c, e, i, j + 1, l); }
  }

  lemma InitialCover(c: Chart, e: set<nat>, i: nat, q: nat, t: set<nat>)
    requires TablesOk(c) && ParentsIn(c, e) && i in e && ChildOf(c, i, q) && InitialOk(c, i)
    requires c.states[i].kind == Initial && TargetsOk(c, q, t)
    ensures e - {i} + t + TargetAncestors(c, t, i + 1) == e - {i} + Cover(c, q, t)
    ensures forall x | x in Cover(c, q, t) :: i < x
  {
    hide Compatible, Cover, TargetAncestors, InitialOk, TablesOk, ParentsIn;
    TargetsReached(c, q, t);
    forall a | a in TargetAncestors(c, t, i + 1) ensures a in e - {i} + Cover(c, q, t) {
      InitialReached(c, e, i, q, t, a);
    }
    forall x | x in Cover(c, q, t) ensures i < x && x in t + TargetAncestors(c, t, i + 1) {
      CoverReached(c, i, q, t, x);
    }
  }

  lemma InitialReached(c: Chart, e: set<nat>, i: nat, q: nat, t: set<nat>, a: nat)
    requires TablesOk(c) && ParentsIn(c, e) && i in e && ChildOf(c, i, q) && c.states[i].kind == Initial
    requires (forall x | x in t :: Under(c, x, q)) && a in TargetAncestors(c, t, i + 1)
    ensures a in e - {i} + Cover(c, q, t)
  {
    var x :| x in t && i + 1 <= x < Size(c) && a in c.states[x].ancestors;
    assert TableAt(c, x);
    assert AtOrUnder(c, x, a);
    AboveTarget(c, e, i, q, x, a);
    assert Reaches(c, t, a);
  }

  lemma CoverReached(c: Chart, i: nat, q: nat, t: set<nat>, x: nat)
    requires TablesOk(c) && i < Size(c) && InitialOk(c, i) && ChildOf(c, i, q) && c.states[i].kind == Initial
    requires (forall y | y in t :: Under(c, y, q) && c.states[y].kind != Initial) && x in Cover(c, q, t)
    ensures i < x && x in t + TargetAncestors(c, t, i + 1)
  {
    var tx :| tx in t && AtOrUnder(c, tx, x);
    assert i < tx by { if tx == i { assert false; } }
    if tx != x {
      UnderBounds(c, tx, x);
      assert TableAt(c, tx);
      assert x in c.states[tx].ancestors;
      assert i < x;
    }
  }

  /** An ancestor `a` of a target `x` below `q` lies below `q` or is entered anyway. */
  lemma AboveTarget(c: Chart, e: set<nat>, i: nat, q: nat, x: nat, a: nat)
    requires ParentsIn(c, e) && i in e && ChildOf(c, i, q) && Under(c, x, q) && Under(c, x, a)
    ensures Under(c, a, q) || a in e
    ensures IsPseudoKind(c.states[i].kind) ==> a != i
  {
    Comparable(c, x, a, q);
    UnderBounds(c, x, a);
    if Under(c, q, a) { AncestorIn(c, e, q, a); }
  }

  lemma PassInitial(c: Chart, cfg: set<nat>, z: set<nat>, e: Entry, i: nat)
    requires StatesOk(c) && ZoneOk(c, cfg, z) && PassInv(c, cfg, z, e.states, i)
    requires i in e.states && c.states[i].kind == Initial && InitialOk(c, i)
    ensures PassInv(c, cfg, z, ResolveInitial(c, e, i, 0).states, i + 1)
  {
    var q := Parent(c, i);
    assert ChildOf(c, i, q);
    var t := c.transitions[FirstFrom(c, i, 0)].target;
    InitialAlone(c, cfg, z, e.states, i, q);
    InitialResolved(c, e, i);
    InitialCover(c, e.states, i, q, t);
    var b := Cover(c, q, t);
    CoverClosed(c, q, t);
    TargetsReached(c, q, t);
    TargetsGraft(c, q, t, b, i);
    PassGraft(c, cfg, z, e.states, i, q, b, ResolveInitial(c, e, i, 0).states);
  }

  // ---- History states ----

  lemma HistoryAlone(c: Chart, cfg: set<nat>, z: set<nat>, e: set<nat>, i: nat, p: nat)
    requires PassInv(c, cfg, z, e, i)
    requires i in e && IsHistory(c, i) && ChildOf(c, i, p)
    ensures OnlyHere(c, p, e, i) && i in z
  {
    assert Live(c, e, i, i);
    assert forall y: nat | ChildOf(c, y, p) && y in e && Proper(c, y) :: Live(c, e, y, i);
  }

  lemma RestoreGraft(c: Chart, p: nat, r: set<nat>, deep: bool, i: nat)
    requires StatesOk(c) && ChildOf(c, i, p) && IsHistory(c, i) && LegalBelow(c, p, r, deep)
    ensures Graft(c, p, r, i)
  {
    forall x | x in r ensures i < x { PseudoFirst(c, i, p, x); }
    assert GraftMembers(c, p, r, i);
    assert GraftApart(c, r);
  }

  lemma {:induction false} FirstTargetUp(c: Chart, t: set<nat>, k: nat, a: nat) returns (x: nat)
    requires TablesOk(c) && a in FirstTargetAncestors(c, t, k)
    ensures x in t && k <= x && Under(c, x, a)
    decreases Size(c) - k
  {
    if k in t {
      assert TableAt(c, k);
      x := k;
    } else {
      x := FirstTargetUp(c, t, k + 1, a);
    }
  }

  lemma DefaultGraft(c: Chart, i: nat, p: nat, j: nat, b: set<nat>)
    requires StatesOk(c) && ChildOf(c, i, p) && IsHistory(c, i) && j < |c.transitions| && HistoryDefaultOk(c, i, j)
    requires DefaultClosed(c, i, j)
    requires b == set x | x in HistoryDefault(c, i, j) && Under(c, x, p)
    ensures Graft(c, p, b, i)
  {
    var t := c.transitions[j].target;
    assert t <= b;
    TargetsReached(c, p, t);
    forall x | x in b ensures x in Cover(c, p, t) && Proper(c, x) && i < x {
      DefaultMember(c, i, p, j, x);
    }
    hide StatesOk, HistoryDefaultOk, HistoryDefault;
    TargetsGraft(c, p, t, b, i);
  }

  lemma DefaultMember(c: Chart, i: nat, p: nat, j: nat, x: nat)
    requires StatesOk(c) && ChildOf(c, i, p) && IsHistory(c, i) && j < |c.transitions| && HistoryDefaultOk(c, i, j)
    requires x in HistoryDefault(c, i, j) && Under(c, x, p)
    ensures x in Cover(c, p, c.transitions[j].target) && Proper(c, x) && i < x
  {
    var t := c.transitions[j].target;
    assert forall y | y in t :: Proper(c, y);
    if x in t {
      TargetsReached(c, p, t);
    } else {
      hide HistoryDefaultOk, StateOk;
      var y := FirstTargetUp(c, t, i + 1, x);
      AboveTargetCovered(c, p, t, y, x);
    }
    PseudoFirst(c, i, p, x);
  }

  lemma AboveTargetCovered(c: Chart, p: nat, t: set<nat>, y: nat, x: nat)
    requires y in t && Under(c, y, x) && Under(c, x, p)
    ensures x in Cover(c, p, t) && Proper(c, x)
  {
    assert AtOrUnder(c, y, x);
    assert Reaches(c, t, x);
    UnderBounds(c, y, x);
  }

  /** The default of a history state adds nothing outside its parent's subtree
      that is not being entered anyway. */
  lemma DefaultInside(c: Chart, e: set<nat>, i: nat, p: nat, j: nat)
    requires StatesOk(c) && ParentsIn(c, e) && i in e && ChildOf(c, i, p) && IsHistory(c, i)
    requires j < |c.transitions| && HistoryDefaultOk(c, i, j)
    ensures e + HistoryDefault(c, i, j) == e + set x | x in HistoryDefault(c, i, j) && Under(c, x, p)
  {
    var t := c.transitions[j].target;
    forall x | x in HistoryDefault(c, i, j) && !Under(c, x, p) ensures x in e {
      var y := FirstTargetUp(c, t, i + 1, x);
      AboveTarget(c, e, i, p, y, x);
    }
  }

  lemma PassHistory(c: Chart, cfg: set<nat>, hist: set<nat>, z: set<nat>, e: Entry, i: nat)
    requires Setting(c, cfg, hist, z) && PassInv(c, cfg, z, e.states, i)
    requires i in e.states && IsHistory(c, i) && HistoryOk(c, i) && (Parent(c, i) !in z ==> Restorable(c, hist, i))
    requires TakesDefault(c, cfg, hist, i) ==> DefaultClosed(c, i, FirstFrom(c, i, 0))
    ensures PassInv(c, cfg, z, ResolveHistory(c, cfg, hist, e, i).states, i + 1)
  {
    var p := Parent(c, i);
    assert ChildOf(c, i, p);
    HistoryAlone(c, cfg, z, e.states, i, p);
    var r := HistoryMask(c, i) * hist;
    var e' := ResolveHistory(c, cfg, hist, e, i).states;
    if r == {} && p !in cfg {
      var j := FirstFrom(c, i, 0);
      var b := set x | x in HistoryDefault(c, i, j) && Under(c, x, p);
      DefaultGraft(c, i, p, j, b);
      DefaultInside(c, e.states, i, p, j);
      assert e' == e.states + HistoryDefault(c, i, j);
      PassGraft(c, cfg, z, e.states, i, p, b, e');
    } else {
      RestoreGraft(c, p, r, c.states[i].kind == HistoryDeep, i);
      PassGraft(c, cfg, z, e.states, i, p, r, e');
    }
  }

  // ---- The whole pass ----

  lemma PassCompoundStep(c: Chart, cfg: set<nat>, hist: set<nat>, z: set<nat>, e: Entry, i: nat)
    requires Setting(c, cfg, hist, z) && ChildCompletions(c) && PassInv(c, cfg, z, e.states, i)
    requires i in e.states && IsCompound(c, i) && CompoundOk(c, i)
    ensures PassInv(c, cfg, z, ResolveCompound(c, cfg, cfg * z, e, i).states, i + 1)
  {
    if i !in z {
      KeptNotCompleted(c, cfg, z, e.states, i);
      PassCompoundBusy(c, cfg, z, e.states, i);
    } else {
      PassCompoundZone(c, cfg, z, e, i);
    }
  }

  lemma PassCompoundZone(c: Chart, cfg: set<nat>, z: set<nat>, e: Entry, i: nat)
    requires StatesOk(c) && ChildCompletions(c) && ZoneOk(c, cfg, z) && PassInv(c, cfg, z, e.states, i)
    requires i in e.states && i in z && IsCompound(c, i) && CompoundOk(c, i)
    ensures PassInv(c, cfg, z, ResolveCompound(c, cfg, cfg * z, e, i).states, i + 1)
  {
    hide PassInv, StateOk, ZoneOk;
    ZoneCompletes(c, cfg, z, e.states, i);
    if Completes(c, cfg, cfg * z, e.states, i) {
      var x := CompletedBy(c, i);
      assert ResolveCompound(c, cfg, cfg * z, e, i).states == e.states + {x};
      PassCompound(c, cfg, z, e.states, i, x);
    } else {
      PassCompoundBusy(c, cfg, z, e.states, i);
    }
  }

  /** The interpreter lists every descendant as a child, so that a completion is
      never taken for a deep one. */
  lemma CompletionListed(c: Chart, i: nat) returns (x: nat)
    requires TablesOk(c) && i < Size(c) && CompoundOk(c, i)
    ensures CompletesTo(c, i, x)
    ensures c.states[i].completion * c.states[i].children != {}
  {
    x :| CompletesTo(c, i, x);
    assert TableAt(c, i);
    UnderBounds(c, x, i);
    assert x in c.states[i].completion * c.states[i].children;
  }

  lemma CompletedBy(c: Chart, i: nat) returns (x: nat)
    requires TablesOk(c) && ChildCompletions(c) && IsCompound(c, i) && CompoundOk(c, i)
    ensures ChildOf(c, x, i) && !IsHistory(c, x) && c.states[i].completion == {x}
    ensures c.states[i].completion * c.states[i].children != {}
  {
    x := CompletionListed(c, i);
    assert x in c.states[i].completion;
  }

  lemma PassStep(c: Chart, cfg: set<nat>, hist: set<nat>, z: set<nat>, e: Entry, i: nat)
    requires Setting(c, cfg, hist, z) && PassInv(c, cfg, z, e.states, i)
    requires i < Size(c) && i in e.states && (IsCompound(c, i) ==> ChildCompletions(c))
    requires IsHistory(c, i) && TakesDefault(c, cfg, hist, i) ==> DefaultsClosed(c)
    requires IsHistory(c, i) && 0 < i && Parent(c, i) !in z ==> Restorable(c, hist, i)
    ensures PassInv(c, cfg, z, Resolve(c, cfg, hist, cfg * z, e, i).states, i + 1)
  {
    assert StateOk(c, i);
    match c.states[i].kind
    case Atomic => PassSkips(c, cfg, z, e.states, i);
    case Final => PassSkips(c, cfg, z, e.states, i);
    case Parallel => PassParallel(c, cfg, z, e.states, i);
    case Initial => PassInitial(c, cfg, z, e, i);
    case HistoryDeep => PassHistory(c, cfg, hist, z, e, i);
    case HistoryShallow => PassHistory(c, cfg, hist, z, e, i);
    case Compound => PassCompoundStep(c, cfg, hist, z, e, i);
  }

  /** Where a state looks for what it brings in: below itself, or below its parent
      for a pseudo-state. */
  function Base(c: Chart, i: nat): nat
    requires i < Size(c)
  {
    if IsPseudoKind(c.states[i].kind) then c.states[i].parent else i
  }

  /** Whatever resolving a state brings in lies on the way to a state below its base. */
  lemma Added(c: Chart, cfg: set<nat>, hist: set<nat>, exits: set<nat>, e: Entry, i: nat, v: nat) returns (w: nat)
    requires StatesOk(c) && i < Size(c)
    requires v in Resolve(c, cfg, hist, exits, e, i).states && v !in e.states
    ensures AtOrUnder(c, w, v) && Under(c, w, Base(c, i)) && c.states[i].kind !in {Atomic, Final}
    ensures !IsPseudoKind(c.states[i].kind) ==> w == v && v in c.states[i].completion
    ensures IsHistory(c, v) ==> w == v && c.states[i].kind == Initial
  {
    assert StateOk(c, i) && TableAt(c, i);
    match c.states[i].kind
    case Atomic => assert false;
    case Final => assert false;
    case Parallel =>
      w := v;
    case Compound =>
      w := CompletionListed(c, i);
    case HistoryDeep => w := AddedByHistory(c, cfg, hist, e, i, v);
    case HistoryShallow => w := AddedByHistory(c, cfg, hist, e, i, v);
    case Initial => w := AddedByInitial(c, e, i, v);
  }

  lemma AddedByInitial(c: Chart, e: Entry, i: nat, v: nat) returns (w: nat)
    requires TablesOk(c) && i < Size(c) && InitialOk(c, i) && v in ResolveInitial(c, e, i, 0).states && v !in e.states
    ensures AtOrUnder(c, w, v) && Under(c, w, Parent(c, i)) && (IsHistory(c, v) ==> w == v)
  {
    InitialResolved(c, e, i);
    var t := c.transitions[FirstFrom(c, i, 0)].target;
    if v in t {
      w := v;
    } else {
      w :| w in t && i + 1 <= w < Size(c) && v in c.states[w].ancestors;
      assert TableAt(c, w);
      UnderBounds(c, w, v);
    }
  }

  lemma AddedByHistory(c: Chart, cfg: set<nat>, hist: set<nat>, e: Entry, i: nat, v: nat) returns (w: nat)
    requires TablesOk(c) && IsHistory(c, i) && HistoryOk(c, i) && v !in e.states
    requires v in ResolveHistory(c, cfg, hist, e, i).states
    ensures AtOrUnder(c, w, v) && Under(c, w, Parent(c, i)) && !IsHistory(c, v)
  {
    var t := c.transitions[FirstFrom(c, i, 0)].target;
    w := v;
    if v in c.states[i].completion {
      if ChildOf(c, v, Parent(c, i)) { ChildUnder(c, v, Parent(c, i)); }
    } else if v !in t {
      w := FirstTargetUp(c, t, i + 1, v);
      UnderBounds(c, w, v);
    }
  }

  /** History states are only brought in by `<initial>` transitions, below states
      being entered. */
  lemma NewHistory(c: Chart, cfg: set<nat>, hist: set<nat>, z: set<nat>, u: set<nat>, e: Entry, i: nat, h: nat)
    requires Setting(c, cfg, hist, z) && PassInv(c, cfg, z, u, i) && i < Size(c) && i in u
    requires 0 < h && IsHistory(c, h) && h !in e.states && h in Resolve(c, cfg, hist, cfg * z, e, i).states
    ensures Parent(c, h) in z && c.states[i].kind == Initial && Under(c, h, Base(c, i))
  {
    hide Resolve, HistoryReady, Filled, ApartHistory;
    var w := Added(c, cfg, hist, cfg * z, e, i, h);
    assert StateOk(c, i);
    var q := Parent(c, i);
    assert ChildOf(c, i, q);
    if Parent(c, h) != q { UnderInZone(c, cfg, z, Parent(c, h), q); }
  }

  lemma RecordedStays(c: Chart, cfg: set<nat>, hist: set<nat>, z: set<nat>, e: Entry, i: nat)
    requires Setting(c, cfg, hist, z) && PassInv(c, cfg, z, e.states, i) && i < Size(c) && i in e.states
    requires Recorded(c, hist, z, e.states)
    ensures Recorded(c, hist, z, Resolve(c, cfg, hist, cfg * z, e, i).states)
  {
    hide Setting, PassInv, Restorable, Resolve;
    forall h: nat, p | ChildOf(c, h, p) && IsHistory(c, h) && h in Resolve(c, cfg, hist, cfg * z, e, i).states && p !in z
      ensures Restorable(c, hist, h)
    {
      if h !in e.states { NewHistory(c, cfg, hist, z, e.states, e, i, h); }
    }
  }

  lemma RecordedHere(c: Chart, hist: set<nat>, z: set<nat>, e: set<nat>, i: nat)
    requires Recorded(c, hist, z, e) && i in e && i < Size(c)
    ensures IsHistory(c, i) && 0 < i && Parent(c, i) !in z ==> Restorable(c, hist, i)
  {
    if IsHistory(c, i) && 0 < i { assert ChildOf(c, i, Parent(c, i)); }
  }

  lemma {:induction false} PassAll(c: Chart, cfg: set<nat>, hist: set<nat>, z: set<nat>, e: Entry, i: nat)
    requires Setting(c, cfg, hist, z) && PassInv(c, cfg, z, e.states, i) && i <= Size(c)
    requires ChildCompletions(c) && DefaultsClosed(c)
    requires Recorded(c, hist, z, e.states)
    ensures PassInv(c, cfg, z, Descend(c, cfg, hist, cfg * z, e, i).states, Size(c))
    decreases Size(c) - i
  {
    hide PassInv, Setting, Resolve, Recorded, ChildCompletions, DefaultsClosed;
    if i < Size(c) {
      if i in e.states {
        RecordedHere(c, hist, z, e.states, i);
        PassStep(c, cfg, hist, z, e, i);
        RecordedStays(c, cfg, hist, z, e, i);
        PassAll(c, cfg, hist, z, Resolve(c, cfg, hist, cfg * z, e, i), i + 1);
      } else {
        PassSkips(c, cfg, z, e.states, i);
        PassAll(c, cfg, hist, z, e, i + 1);
      }
    }
  }

  // ---- What the pass achieves ----

  /** The configuration after leaving the zone and entering the entry set. */
  function NextConfiguration(c: Chart, cfg: set<nat>, exits: set<nat>, e: set<nat>): set<nat> {
    (cfg - exits) + set x | x in e && Proper(c, x)
  }

  lemma PassLegal(c: Chart, cfg: set<nat>, z: set<nat>, e: set<nat>)
    requires StatesOk(c) && ZoneOk(c, cfg, z) && PassInv(c, cfg, z, e, Size(c))
    ensures Legal(c, NextConfiguration(c, cfg, cfg * z, e))
  {
    var n := NextConfiguration(c, cfg, cfg * z, e);
    assert ParentsIn(c, n);
    assert OneChildEach(c, n) by {
      assert forall x | x in n && x in e :: Live(c, e, x, Size(c));
    }
    assert CompoundsFilled(c, n) by {
      forall k | k in n && IsCompound(c, k) ensures HasChildIn(c, k, n) {
        LegalCompound(c, cfg, z, e, k);
      }
    }
    assert AllRegionsIn(c, n);
  }

  lemma LegalCompound(c: Chart, cfg: set<nat>, z: set<nat>, e: set<nat>, k: nat)
    requires StatesOk(c) && ZoneOk(c, cfg, z) && PassInv(c, cfg, z, e, Size(c))
    requires k in NextConfiguration(c, cfg, cfg * z, e) && IsCompound(c, k)
    ensures HasChildIn(c, k, NextConfiguration(c, cfg, cfg * z, e))
  {
    var n := NextConfiguration(c, cfg, cfg * z, e);
    if k in z {
      var x: nat :| ChildOf(c, x, k) && Live(c, e, x, Size(c));
      assert x in n;
    } else {
      var x: nat :| ChildOf(c, x, k) && Proper(c, x) && x in cfg;
      if x in z {
        var y: nat :| ChildOf(c, y, k) && Proper(c, y) && y in e;
        assert y in n;
      } else {
        assert x in n;
      }
    }
  }
}
