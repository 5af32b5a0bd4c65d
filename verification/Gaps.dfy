/** What a pass over the growing entry set leaves out when an `initial` attribute
    names a state that is no child, and when a later `<initial>` element makes up
    for it: the exact condition under which the pass ends legally. */
module Gaps {
  import opened Charts
  import opened EntrySets

  // ---- What a default entry brings in ----

  /** What entering `y` by default brings in, as far as the first pseudo-states. */
  function Defaults(c: Chart, y: nat): set<nat>
    decreases Size(c) - y
  {
    if IsCompound(c, y) || IsParallel(c, y) then
      {y} + set w, x | w in c.states[y].completion && y < w < Size(c) && x in Defaults(c, w) :: x
    else {y}
  }

  /** Entering `y` by default meets an `<initial>` element, whose transition enters
      every ancestor of its targets. */
  ghost predicate Repairs(c: Chart, y: nat) {
    exists x: nat :: x in Defaults(c, y) && x < Size(c) && c.states[x].kind == Initial
  }

  /** A region of a parallel state between `i` and `x` that is not on the way. */
  predicate SkippedRegion(c: Chart, i: nat, x: nat, m: nat, w: nat) {
    Under(c, m, i) && Under(c, x, m) && IsParallel(c, m) && ChildOf(c, w, m) && Proper(c, w) && !AtOrUnder(c, x, w)
  }

  /** Completing the compound state `i` leaves states out for good: its initial state
      is no child, and no `<initial>` element is met below that state or a region of
      a parallel state on the way is skipped. */
  ghost predicate Gaping(c: Chart, i: nat) {
    IsCompound(c, i) && exists x: nat :: CompletesTo(c, i, x) && GapStays(c, i, x)
  }

  ghost predicate GapStays(c: Chart, i: nat, x: nat) {
    !ChildOf(c, x, i) && (!Repairs(c, x) || exists m, w :: SkippedRegion(c, i, x, m, w))
  }

  // ---- Gaps left by the default of a history state ----

  /** `m` is a region of a parallel state that is entered in time to bring it in. */
  predicate Early(c: Chart, b: set<nat>, p: nat, m: nat)
    decreases m
  {
    && Under(c, m, p) && IsParallel(c, Parent(c, m))
    && (Parent(c, m) == p || Parent(c, m) in b || Early(c, b, p, Parent(c, m)))
  }

  /** Entering the targets `t` leaves `y` to be entered by default. */
  ghost predicate OpenBelow(c: Chart, p: nat, t: set<nat>, y: nat) {
    && Under(c, y, p) && Proper(c, y) && (forall v | v in Cover(c, p, t) :: !Under(c, v, y))
    && (y in Cover(c, p, t) || (IsParallel(c, Parent(c, y)) && (Parent(c, y) == p || Parent(c, y) in Cover(c, p, t))))
  }

  /** `m` lies above a target, is not named itself, and comes in at best too late. */
  ghost predicate Left(c: Chart, p: nat, t: set<nat>, b: set<nat>, m: nat) {
    m in Cover(c, p, t) && m !in b && !Early(c, b, p, m)
  }

  ghost predicate RepairedBelow(c: Chart, p: nat, t: set<nat>, m: nat) {
    exists y: nat :: OpenBelow(c, p, t, y) && Under(c, y, m) && Repairs(c, y)
  }

  ghost predicate MissesRegion(c: Chart, p: nat, t: set<nat>, m: nat, w: nat) {
    IsParallel(c, m) && ChildOf(c, w, m) && Proper(c, w) && w !in Cover(c, p, t)
  }

  ghost predicate Sticks(c: Chart, p: nat, t: set<nat>, b: set<nat>, m: nat) {
    Left(c, p, t, b, m) && (!RepairedBelow(c, p, t, m) || exists w :: MissesRegion(c, p, t, m, w))
  }

  /** The default of history state `h` leaves states out for good: neither named, nor
      above the first target, nor regions, nor brought in by an `<initial>` element
      together with all their regions. */
  ghost predicate GapingDefault(c: Chart, h: nat) {
    && 0 < h && IsHistory(c, h) && FirstFrom(c, h, 0) < |c.transitions|
    && exists m: nat :: Sticks(c, Parent(c, h), c.transitions[FirstFrom(c, h, 0)].target,
                               HistoryDefault(c, h, FirstFrom(c, h, 0)), m)
  }

  /** The pass from state `i` on completes a gaping compound state, or takes a gaping
      default. */
  ghost predicate OpensGap(c: Chart, cfg: set<nat>, hist: set<nat>, exits: set<nat>, e: Entry, i: nat)
    decreases Size(c) - i
  {
    i < Size(c) &&
    (OpensGapAt(c, cfg, hist, exits, e, i)
     || OpensGap(c, cfg, hist, exits, if i in e.states then Resolve(c, cfg, hist, exits, e, i) else e, i + 1))
  }

  ghost predicate OpensGapAt(c: Chart, cfg: set<nat>, hist: set<nat>, exits: set<nat>, e: Entry, i: nat)
    requires i < Size(c)
  {
    && i in e.states
    && ((IsCompound(c, i) && Completes(c, cfg, exits, e.states, i) && Gaping(c, i))
        || (IsHistory(c, i) && TakesDefault(c, cfg, hist, i) && GapingDefault(c, i)))
  }

  /** A history state from `i` on is entered below a kept state without a record. */
  ghost predicate Stranded(c: Chart, hist: set<nat>, z: set<nat>, e: set<nat>, i: nat) {
    exists h: nat :: StrandedAt(c, hist, z, e, h) && i <= h
  }

  predicate StrandedAt(c: Chart, hist: set<nat>, z: set<nat>, e: set<nat>, h: nat) {
    0 < h && IsHistory(c, h) && h in e && Parent(c, h) !in z && HistoryMask(c, h) * hist == {}
  }

  ghost predicate Usable(c: Chart, hist: set<nat>, z: set<nat>, e: set<nat>) {
    forall h: nat | 0 < h && IsHistory(c, h) && h in e && Parent(c, h) !in z ::
      HistoryMask(c, h) * hist == {} || Restorable(c, hist, h)
  }

  lemma {:induction false} DefaultsStep(c: Chart, y: nat, k: nat, w: nat)
    requires k in Defaults(c, y) && (IsCompound(c, k) || IsParallel(c, k))
    requires w in c.states[k].completion && k < w < Size(c)
    ensures w in Defaults(c, y)
    decreases Size(c) - y
  {
    assert w in Defaults(c, w);
    if k != y {
      var v :| v in c.states[y].completion && y < v < Size(c) && k in Defaults(c, v);
      DefaultsStep(c, v, k, w);
    }
  }

  lemma {:induction false} DefaultsInside(c: Chart, y: nat, x: nat)
    requires StatesOk(c) && x in Defaults(c, y) && y < Size(c)
    ensures AtOrUnder(c, x, y) && (IsHistory(c, x) ==> x == y)
    decreases Size(c) - y
  {
    if x != y {
      assert StateOk(c, y);
      var w :| w in c.states[y].completion && y < w < Size(c) && x in Defaults(c, w);
      CompletionBelow(c, y, w);
      DefaultsInside(c, w, x);
      AtOrUnderTransitive(c, x, w, y);
    }
  }

  lemma CompletionBelow(c: Chart, y: nat, w: nat)
    requires StatesOk(c) && (IsCompound(c, y) || IsParallel(c, y)) && w in c.states[y].completion
    ensures Under(c, w, y) && y < w < Size(c) && !IsHistory(c, w)
  {
    assert StateOk(c, y);
    UnderBounds(c, w, y);
  }

  /** What repairs does so through one of the states it completes to. */
  lemma RepairsNext(c: Chart, y: nat) returns (w: nat)
    requires StatesOk(c) && y < Size(c) && Repairs(c, y) && c.states[y].kind != Initial
    ensures IsCompound(c, y) || IsParallel(c, y)
    ensures w in c.states[y].completion && y < w < Size(c) && Repairs(c, w)
  {
    var x: nat :| x in Defaults(c, y) && x < Size(c) && c.states[x].kind == Initial;
    w :| w in c.states[y].completion && y < w < Size(c) && x in Defaults(c, w);
  }

  // ---- The upward closure ----

  ghost function Up(c: Chart, e: set<nat>): set<nat> {
    set a | 0 <= a < Size(c) && Reaches(c, e, a)
  }

  lemma UpHolds(c: Chart, e: set<nat>)
    requires forall x | x in e :: x < Size(c)
    ensures e <= Up(c, e) && ParentsIn(c, Up(c, e))
  {
    forall x | x in e ensures x in Up(c, e) {
      assert AtOrUnder(c, x, x);
      assert Reaches(c, e, x);
    }
    forall k: nat, x | ChildOf(c, x, k) && x in Up(c, e) ensures k in Up(c, e) {
      var tx :| tx in e && AtOrUnder(c, tx, x);
      ChildUnder(c, x, k);
      AtOrUnderTransitive(c, tx, x, k);
      assert Reaches(c, e, k);
    }
  }

  lemma UpLeast(c: Chart, e: set<nat>, s: set<nat>)
    requires ParentsIn(c, s) && e <= s
    ensures Up(c, e) <= s
  {
    forall a | a in Up(c, e) ensures a in s {
      var x :| x in e && AtOrUnder(c, x, a);
      if x != a { AncestorIn(c, s, x, a); }
    }
  }

  lemma UpGrows(c: Chart, e: set<nat>, e': set<nat>)
    requires e <= e'
    ensures Up(c, e) <= Up(c, e')
  {
    forall a | a in Up(c, e) ensures a in Up(c, e') {
      var x :| x in e && AtOrUnder(c, x, a);
      assert x in e';
      assert Reaches(c, e', a);
    }
  }

  /** A missing state lies strictly above one that is there. */
  lemma MissingAbove(c: Chart, e: set<nat>, m: nat) returns (x: nat)
    requires m in Up(c, e) && m !in e
    ensures x in e && Under(c, x, m) && !IsPseudoKind(c.states[m].kind) && c.states[m].kind in {Compound, Parallel}
  {
    x :| x in e && AtOrUnder(c, x, m);
    UnderBounds(c, x, m);
  }

  lemma SameTest(c: Chart, cfg: set<nat>, exits: set<nat>, e: set<nat>, i: nat)
    requires TablesOk(c) && i < Size(c) && forall x | x in e :: x < Size(c)
    ensures Completes(c, cfg, exits, e, i) == Completes(c, cfg, exits, Up(c, e), i)
  {
    assert TableAt(c, i);
    UpHolds(c, e);
    forall y | y in Up(c, e) && Under(c, y, i) ensures exists x :: x in e * c.states[i].children {
      var x :| x in e && AtOrUnder(c, x, y);
      AtOrUnderTransitive(c, x, y, i);
      assert x in e * c.states[i].children;
    }
  }

  // ---- As long as every gap will be closed ----

  ghost predicate Lowest(c: Chart, e: set<nat>, y: nat) {
    forall v | v in e :: !Under(c, v, y)
  }

  /** `y`, below `m`, is still to be resolved: it is there, or a region of a parallel
      state for which the same holds. */
  ghost predicate Coming(c: Chart, e: set<nat>, i: nat, m: nat, y: nat)
    decreases y
  {
    Under(c, y, m)
    && if y in e then i <= y
       else Proper(c, y) && IsParallel(c, Parent(c, y)) && Coming(c, e, i, m, Parent(c, y))
  }

  /** `y` will bring in all its ancestors, `m` too. */
  ghost predicate Mender(c: Chart, e: set<nat>, i: nat, m: nat, y: nat) {
    Coming(c, e, i, m, y) && Repairs(c, y) && Lowest(c, e, y)
  }

  ghost predicate HasMender(c: Chart, e: set<nat>, i: nat, m: nat) {
    exists y: nat :: Mender(c, e, i, m, y)
  }

  ghost predicate NoHistoryUnder(c: Chart, e: set<nat>, m: nat) {
    forall h | h in e && IsHistory(c, h) :: !Under(c, h, m)
  }

  ghost predicate RegionsAbove(c: Chart, e: set<nat>, m: nat) {
    forall w: nat | ChildOf(c, w, m) && Proper(c, w) && IsParallel(c, m) :: w in Up(c, e)
  }

  ghost predicate MendedAt(c: Chart, z: set<nat>, e: set<nat>, i: nat, m: nat) {
    && m in z && NoHistoryUnder(c, e, m)
    && (Coming(c, e, i, 0, m) || (HasMender(c, e, i, m) && RegionsAbove(c, e, m)))
  }

  ghost predicate Mended(c: Chart, z: set<nat>, e: set<nat>, i: nat) {
    forall m | m in Up(c, e) && m !in e :: MendedAt(c, z, e, i, m)
  }

  /** With the missing states the entry set is as it should be, and each of them will
      be made up for. */
  ghost predicate GapInv(c: Chart, cfg: set<nat>, z: set<nat>, e: set<nat>, i: nat) {
    (forall x | x in e :: x < Size(c)) && PassInv(c, cfg, z, Up(c, e), i) && Mended(c, z, e, i)
  }

  lemma {:induction false} ComingAfter(c: Chart, e: set<nat>, i: nat, m: nat, y: nat)
    requires Coming(c, e, i, m, y)
    ensures i <= y && (y !in e ==> i < y)
    decreases y
  {
    if y !in e { ComingAfter(c, e, i, m, Parent(c, y)); }
  }

  lemma {:induction false} ComingSkips(c: Chart, e: set<nat>, i: nat, m: nat, y: nat)
    requires Coming(c, e, i, m, y) && i !in e
    ensures Coming(c, e, i + 1, m, y)
    decreases y
  {
    if y !in e { ComingSkips(c, e, i, m, Parent(c, y)); }
  }

  /** What is coming hangs below something there that is not resolved yet. */
  lemma {:induction false} ComingTop(c: Chart, e: set<nat>, i: nat, m: nat, y: nat) returns (k: nat)
    requires Coming(c, e, i, m, y)
    ensures k in e && i <= k && Under(c, k, m) && AtOrUnder(c, y, k) && (k == y || IsParallel(c, k))
    decreases y
  {
    if y in e {
      k := y;
    } else {
      k := ComingTop(c, e, i, m, Parent(c, y));
      assert ChildOf(c, y, Parent(c, y));
      ChildUnder(c, y, Parent(c, y));
      AtOrUnderTransitive(c, y, Parent(c, y), k);
    }
  }

  lemma GapSkips(c: Chart, cfg: set<nat>, hist: set<nat>, z: set<nat>, e: set<nat>, i: nat)
    requires Setting(c, cfg, hist, z) && GapInv(c, cfg, z, e, i) && i < Size(c) && i !in e
    ensures GapInv(c, cfg, z, e, i + 1)
  {
    hide PassInv, HistoryReady, ZoneOk, Coming;
    var u := Up(c, e);
    UpHolds(c, e);
    if i !in u {
      PassSkips(c, cfg, z, u, i);
    } else {
      MissedHere(c, z, e, i);
      var x := MissingAbove(c, e, i);
      if IsCompound(c, i) {
        PassCompoundBusy(c, cfg, z, u, i);
      } else {
        assert StateOk(c, i);
        assert RegionsAbove(c, e, i);
        PassParallel(c, cfg, z, u, i);
        assert u + ProperChildren(c, i) == u;
      }
    }
    forall m | m in u && m !in e ensures MendedAt(c, z, e, i + 1, m) {
      MendedSkips(c, z, e, i, m);
    }
  }

  lemma MissedHere(c: Chart, z: set<nat>, e: set<nat>, i: nat)
    requires Mended(c, z, e, i) && i in Up(c, e) && i !in e
    ensures RegionsAbove(c, e, i)
  {
    assert MendedAt(c, z, e, i, i);
    if Coming(c, e, i, 0, i) { ComingAfter(c, e, i, 0, i); }
  }

  lemma MendedSkips(c: Chart, z: set<nat>, e: set<nat>, i: nat, m: nat)
    requires MendedAt(c, z, e, i, m) && i !in e
    ensures MendedAt(c, z, e, i + 1, m)
  {
    if Coming(c, e, i, 0, m) {
      ComingSkips(c, e, i, 0, m);
    } else {
      var y: nat :| Mender(c, e, i, m, y);
      ComingSkips(c, e, i, m, y);
      assert Mender(c, e, i + 1, m, y);
    }
  }

  lemma UnderBase(c: Chart, k: nat)
    requires StatesOk(c) && k < Size(c)
    ensures AtOrUnder(c, k, Base(c, k)) && (IsPseudoKind(c.states[k].kind) ==> 0 < k && Under(c, k, Base(c, k)))
    ensures 0 < k && IsPseudoKind(c.states[k].kind) ==> Base(c, k) == Parent(c, k)
  {
    assert StateOk(c, k);
    if IsPseudoKind(c.states[k].kind) { ChildUnder(c, k, Parent(c, k)); }
  }

  lemma BusyAddsNothing(c: Chart, cfg: set<nat>, hist: set<nat>, exits: set<nat>, e: Entry, i: nat, y: nat)
    requires TablesOk(c) && IsCompound(c, i) && y in e.states && Under(c, y, i)
    ensures Resolve(c, cfg, hist, exits, e, i).states == e.states
  {
    assert TableAt(c, i);
    UnderBounds(c, y, i);
    assert y in e.states * c.states[i].children;
  }

  lemma NotBetween(c: Chart, v: nat, i: nat, y: nat)
    requires ChildOf(c, v, i) && Under(c, y, i)
    ensures !Under(c, v, y)
  {
    UnderBounds(c, y, i);
    if Under(c, i, y) { UnderBounds(c, i, y); }
  }

  lemma RegionEntered(c: Chart, cfg: set<nat>, hist: set<nat>, exits: set<nat>, e: Entry, i: nat, y: nat)
    requires StatesOk(c) && IsParallel(c, i) && ChildOf(c, y, i) && Proper(c, y)
    ensures y in Resolve(c, cfg, hist, exits, e, i).states
  {
    assert StateOk(c, i);
  }

  lemma {:induction false} ComingStays(c: Chart, cfg: set<nat>, hist: set<nat>, exits: set<nat>, e: Entry, i: nat, m: nat, y: nat)
    requires StatesOk(c) && i in e.states && i < Size(c) && Coming(c, e.states, i, m, y) && y != i
    ensures Coming(c, Resolve(c, cfg, hist, exits, e, i).states, i + 1, m, y)
    decreases y
  {
    hide Resolve, StatesOk;
    var e' := Resolve(c, cfg, hist, exits, e, i).states;
    ComingAfter(c, e.states, i, m, y);
    if y in e.states {
      Keeps(c, cfg, hist, exits, e, i, y);
    } else if y !in e' {
      var k := Parent(c, y);
      assert ChildOf(c, y, k);
      if k == i { RegionEntered(c, cfg, hist, exits, e, i, y); }
      ComingStays(c, cfg, hist, exits, e, i, m, k);
    }
  }

  /** A state that has nothing below it stays so until it is resolved itself. */
  lemma StaysLowest(c: Chart, cfg: set<nat>, hist: set<nat>, z: set<nat>, e: Entry, i: nat, m: nat, y: nat)
    requires Setting(c, cfg, hist, z) && PassInv(c, cfg, z, Up(c, e.states), i) && i in e.states && i < Size(c)
    requires forall x | x in e.states :: x < Size(c)
    requires Coming(c, e.states, i, m, y) && y != i && Lowest(c, e.states, y) && NoHistoryUnder(c, e.states, m)
    ensures Lowest(c, Resolve(c, cfg, hist, cfg * z, e, i).states, y)
  {
    hide PassInv, HistoryReady, ZoneOk, Resolve;
    forall v | v in Resolve(c, cfg, hist, cfg * z, e, i).states ensures !Under(c, v, y) {
      if v !in e.states { LowestApart(c, cfg, hist, z, e, i, m, y, v); }
    }
  }

  lemma LowestApart(c: Chart, cfg: set<nat>, hist: set<nat>, z: set<nat>, e: Entry, i: nat, m: nat, y: nat, v: nat)
    requires Setting(c, cfg, hist, z) && PassInv(c, cfg, z, Up(c, e.states), i) && i in e.states && i < Size(c)
    requires forall x | x in e.states :: x < Size(c)
    requires Coming(c, e.states, i, m, y) && y != i && Lowest(c, e.states, y) && NoHistoryUnder(c, e.states, m)
    requires v in Resolve(c, cfg, hist, cfg * z, e, i).states && v !in e.states
    ensures !Under(c, v, y)
  {
    hide PassInv, HistoryReady, ZoneOk, Resolve, Coming;
    var w := Added(c, cfg, hist, cfg * z, e, i, v);
    var b := Base(c, i);
    UnderBase(c, i);
    if Under(c, v, y) {
      AtOrUnderTransitive(c, w, v, y);
      Comparable(c, w, y, b);
      if AtOrUnder(c, b, y) {
        AtOrUnderTransitive(c, i, b, y);
      } else {
        var k := ComingTop(c, e.states, i, m, y);
        assert StateOk(c, i);
        if IsParallel(c, i) {
          NotBetween(c, v, i, y);
        } else {
          TopBelowBase(c, cfg, hist, z, e, i, m, y, k);
          if IsCompound(c, i) { BusyAddsNothing(c, cfg, hist, cfg * z, e, i, k); }
        }
      }
    }
  }

  lemma TopBelowBase(c: Chart, cfg: set<nat>, hist: set<nat>, z: set<nat>, e: Entry, i: nat, m: nat, y: nat, k: nat)
    requires Setting(c, cfg, hist, z) && PassInv(c, cfg, z, Up(c, e.states), i) && i in e.states && i < Size(c)
    requires (forall x | x in e.states :: x < Size(c)) && NoHistoryUnder(c, e.states, m)
    requires k in e.states && i <= k && Under(c, k, m) && AtOrUnder(c, y, k) && (k == y || IsParallel(c, k)) && y != i
    requires Under(c, y, Base(c, i)) && !IsParallel(c, i)
    ensures !IsPseudoKind(c.states[i].kind) && Under(c, k, i)
  {
    hide PassInv, HistoryReady, ZoneOk;
    var b := Base(c, i);
    Comparable(c, y, k, b);
    UnderBase(c, i);
    if Under(c, b, k) { UnderBounds(c, b, k); }
    if i != b { UnderBounds(c, i, b); }
    if IsPseudoKind(c.states[i].kind) {
      assert 0 < i;
      BesidePseudo(c, cfg, hist, z, e.states, i, m, k);
    }
  }

  /** Beside an unresolved pseudo-state nothing below a missing state is there. */
  lemma BesidePseudo(c: Chart, cfg: set<nat>, hist: set<nat>, z: set<nat>, e: set<nat>, i: nat, m: nat, y: nat)
    requires Setting(c, cfg, hist, z) && PassInv(c, cfg, z, Up(c, e), i) && i in e && i < Size(c) && 0 < i
    requires (forall x | x in e :: x < Size(c)) && y in e && Under(c, y, m) && NoHistoryUnder(c, e, m)
    requires IsPseudoKind(c.states[i].kind)
    ensures Under(c, y, Parent(c, i)) ==> y == i
  {
    hide HistoryReady, Filled, EdgesFilled, ApartHistory;
    var q := Parent(c, i);
    var u := Up(c, e);
    UpHolds(c, e);
    assert ChildOf(c, i, q) && StateOk(c, i);
    ChildUnder(c, i, q);
    if c.states[i].kind == Initial {
      InitialAlone(c, cfg, z, u, i, q);
    } else {
      HistoryBeside(c, cfg, z, u, i, q);
      if Under(c, q, m) { UnderTransitive(c, i, q, m); }
    }
  }

  lemma HistoryBeside(c: Chart, cfg: set<nat>, z: set<nat>, u: set<nat>, i: nat, q: nat)
    requires PassInv(c, cfg, z, u, i) && i in u && IsHistory(c, i) && ChildOf(c, i, q)
    ensures forall y: nat | y in u && Under(c, y, q) && y != i :: ChildOf(c, y, q)
  {
    HistoryAlone(c, cfg, z, u, i, q);
  }

  /** A missing state that stays missing keeps what will bring it in. */
  lemma MendedStays(c: Chart, cfg: set<nat>, hist: set<nat>, z: set<nat>, e: Entry, i: nat, m: nat)
    requires Setting(c, cfg, hist, z) && GapInv(c, cfg, z, e.states, i) && i in e.states && i < Size(c)
    requires m in Up(c, e.states) && m !in e.states
    requires Up(c, e.states) - {i} <= Up(c, Resolve(c, cfg, hist, cfg * z, e, i).states)
    requires m !in Resolve(c, cfg, hist, cfg * z, e, i).states
    ensures MendedAt(c, z, Resolve(c, cfg, hist, cfg * z, e, i).states, i + 1, m)
  {
    hide PassInv, HistoryReady, Resolve, Coming, Up;
    var e' := Resolve(c, cfg, hist, cfg * z, e, i).states;
    assert MendedAt(c, z, e.states, i, m);
    NoHistoryStays(c, cfg, hist, z, e, i, m);
    if Coming(c, e.states, i, 0, m) {
      ComingStays(c, cfg, hist, cfg * z, e, i, 0, m);
    } else {
      var y: nat :| Mender(c, e.states, i, m, y);
      if y == i {
        MenderMoves(c, cfg, hist, z, e, i, m);
      } else {
        StaysLowest(c, cfg, hist, z, e, i, m, y);
        ComingStays(c, cfg, hist, cfg * z, e, i, m, y);
        assert Mender(c, e', i + 1, m, y);
      }
      if Proper(c, i) { Keeps(c, cfg, hist, cfg * z, e, i, i); }
      RegionsStay(c, e.states, e', i, m);
    }
  }

  lemma RegionsStay(c: Chart, e: set<nat>, e': set<nat>, i: nat, m: nat)
    requires RegionsAbove(c, e, m) && Up(c, e) - {i} <= Up(c, e') && i < Size(c)
    requires Proper(c, i) ==> i in e'
    ensures RegionsAbove(c, e', m)
  {
    if Proper(c, i) {
      assert AtOrUnder(c, i, i);
      assert Reaches(c, e', i);
    }
  }

  lemma Keeps(c: Chart, cfg: set<nat>, hist: set<nat>, exits: set<nat>, e: Entry, i: nat, y: nat)
    requires StatesOk(c) && i < Size(c) && y in e.states && (y != i || c.states[i].kind != Initial)
    ensures y in Resolve(c, cfg, hist, exits, e, i).states
  {
    assert StateOk(c, i);
    if c.states[i].kind == Initial { InitialResolved(c, e, i); }
  }

  /** An `<initial>` transition brings in its targets with all their ancestors. */
  lemma InitialBrings(c: Chart, e: Entry, i: nat, tx: nat, a: nat)
    requires TablesOk(c) && i < Size(c) && InitialOk(c, i) && c.states[i].kind == Initial
    requires tx in c.transitions[FirstFrom(c, i, 0)].target && Under(c, tx, a)
    ensures a in ResolveInitial(c, e, i, 0).states
  {
    InitialResolved(c, e, i);
    var t := c.transitions[FirstFrom(c, i, 0)].target;
    assert TableAt(c, tx);
    UnderBounds(c, tx, a);
    assert a in c.states[tx].ancestors;
    assert i + 1 <= tx;
    assert a in TargetAncestors(c, t, i + 1);
  }

  lemma MenderMoves(c: Chart, cfg: set<nat>, hist: set<nat>, z: set<nat>, e: Entry, i: nat, m: nat)
    requires Setting(c, cfg, hist, z) && i in e.states && i < Size(c) && m in z
    requires Mender(c, e.states, i, m, i)
    requires m !in Resolve(c, cfg, hist, cfg * z, e, i).states
    ensures HasMender(c, Resolve(c, cfg, hist, cfg * z, e, i).states, i + 1, m)
  {
    hide HistoryReady, ZoneOk;
    assert StateOk(c, i);
    var e' := Resolve(c, cfg, hist, cfg * z, e, i).states;
    if c.states[i].kind == Initial {
      var t := c.transitions[FirstFrom(c, i, 0)].target;
      var tx :| tx in t;
      var q := Parent(c, i);
      if q != m { UnderTransitive(c, tx, q, m); }
      InitialBrings(c, e, i, tx, m);
    } else {
      var w := RepairsNext(c, i);
      CompletionBelow(c, i, w);
      UnderTransitive(c, w, i, m);
      if IsCompound(c, i) {
        UnderInZone(c, cfg, z, i, m);
        ZoneCompletes(c, cfg, z, e.states, i);
        var x := CompletionListed(c, i);
        assert e' == e.states + {w};
        UnderBounds(c, w, i);
      } else {
        assert e' == e.states + ProperChildren(c, i);
      }
      assert Mender(c, e', i + 1, m, w) by { LowestNext(c, e.states, e', i, w); }
    }
  }

  lemma LowestNext(c: Chart, e: set<nat>, e': set<nat>, i: nat, w: nat)
    requires Lowest(c, e, i) && Under(c, w, i)
    requires forall v | v in e' && v !in e :: v == w || (ChildOf(c, v, i) && ChildOf(c, w, i))
    ensures Lowest(c, e', w)
  {
    forall v | v in e' ensures !Under(c, v, w) {
      if Under(c, v, w) {
        UnderTransitive(c, v, w, i);
        UnderBounds(c, v, w);
        SiblingsApart(c, v, w, i);
      }
    }
  }

  lemma NoHistoryStays(c: Chart, cfg: set<nat>, hist: set<nat>, z: set<nat>, e: Entry, i: nat, m: nat)
    requires Setting(c, cfg, hist, z) && PassInv(c, cfg, z, Up(c, e.states), i) && i in e.states && i < Size(c)
    requires forall x | x in e.states :: x < Size(c)
    requires m in Up(c, e.states) && m !in e.states && NoHistoryUnder(c, e.states, m)
    requires m !in Resolve(c, cfg, hist, cfg * z, e, i).states
    ensures NoHistoryUnder(c, Resolve(c, cfg, hist, cfg * z, e, i).states, m)
  {
    hide PassInv, HistoryReady, ZoneOk, Resolve;
    forall h | h in Resolve(c, cfg, hist, cfg * z, e, i).states && IsHistory(c, h) ensures !Under(c, h, m) {
      if Under(c, h, m) && h !in e.states { NewHistoryElsewhere(c, cfg, hist, z, e, i, m, h); }
    }
  }

  lemma NewHistoryElsewhere(c: Chart, cfg: set<nat>, hist: set<nat>, z: set<nat>, e: Entry, i: nat, m: nat, h: nat)
    requires Setting(c, cfg, hist, z) && PassInv(c, cfg, z, Up(c, e.states), i) && i in e.states && i < Size(c)
    requires forall x | x in e.states :: x < Size(c)
    requires m in Up(c, e.states) && m !in e.states
    requires m !in Resolve(c, cfg, hist, cfg * z, e, i).states
    requires h in Resolve(c, cfg, hist, cfg * z, e, i).states && h !in e.states && IsHistory(c, h)
    ensures !Under(c, h, m)
  {
    hide PassInv, HistoryReady, ZoneOk;
    UpHolds(c, e.states);
    if Under(c, h, m) {
      NewHistory(c, cfg, hist, z, Up(c, e.states), e, i, h);
      assert StateOk(c, i);
      NewHistoryTarget(c, e, i, h);
      InitialBrings(c, e, i, h, m);
    }
  }

  lemma NewHistoryTarget(c: Chart, e: Entry, i: nat, h: nat)
    requires TablesOk(c) && i < Size(c) && InitialOk(c, i) && c.states[i].kind == Initial && IsHistory(c, h)
    requires h in ResolveInitial(c, e, i, 0).states && h !in e.states
    ensures h in c.transitions[FirstFrom(c, i, 0)].target
  {
    InitialResolved(c, e, i);
    var t := c.transitions[FirstFrom(c, i, 0)].target;
    if h !in t {
      var w :| w in t && i + 1 <= w < Size(c) && h in c.states[w].ancestors;
      assert TableAt(c, w);
      UnderBounds(c, w, h);
    }
  }

  // ---- One state of the pass ----

  /** Resolving a state other than a compound adds to the entry set what it would add
      to its closure. */
  lemma UpFollows(c: Chart, e: set<nat>, i: nat, b: set<nat>, e': set<nat>, u': set<nat>)
    requires i in e && i < Size(c) && (forall x | x in e :: x < Size(c)) && (forall x | x in b :: x < Size(c)) && ParentsIn(c, u')
    requires Grafts(c, e, i, b, e') && Grafts(c, Up(c, e), i, b, u')
    requires c.states[i].kind == Initial ==> 0 < i && exists w :: w in b && w != i && Under(c, w, Parent(c, i))
    ensures Up(c, e') == u' && (forall m | m in u' && m !in e' :: m in Up(c, e) && m !in e)
  {
    hide ParentsIn, Up, Grafts;
    UpHolds(c, e);
    GraftsInside(c, e, Up(c, e), i, b, e', u');
    UpLeast(c, e', u');
    forall a | a in u' ensures a in Up(c, e') {
      if a in b {
        Itself(c, e', a);
      } else {
        UpKept(c, e, i, b, e', a);
      }
    }
  }

  lemma GraftsInside(c: Chart, e: set<nat>, u: set<nat>, i: nat, b: set<nat>, e': set<nat>, u': set<nat>)
    requires e <= u && i in e && i < Size(c) && Grafts(c, e, i, b, e') && Grafts(c, u, i, b, u')
    ensures e' <= u' && b <= e'
    ensures forall m | m in u' && m !in e' :: m in u && m !in e
    ensures forall a | a in u' && a !in b :: a in u && (c.states[i].kind == Initial ==> a != i)
  {
  }

  lemma Itself(c: Chart, e: set<nat>, a: nat)
    requires a in e && a < Size(c)
    ensures a in Up(c, e)
  {
    assert AtOrUnder(c, a, a);
    assert Reaches(c, e, a);
  }

  lemma UpKept(c: Chart, e: set<nat>, i: nat, b: set<nat>, e': set<nat>, a: nat)
    requires i in e && i < Size(c) && Grafts(c, e, i, b, e') && a in Up(c, e)
    requires c.states[i].kind == Initial ==> 0 < i && a != i && exists w :: w in b && w != i && Under(c, w, Parent(c, i))
    ensures a in Up(c, e')
  {
    var x :| x in e && AtOrUnder(c, x, a);
    if x !in e' {
      UpThroughInitial(c, i, b, a);
    }
    assert Reaches(c, e', a);
  }

  predicate Grafts(c: Chart, e: set<nat>, i: nat, b: set<nat>, e': set<nat>)
    requires i < Size(c)
  {
    e' == (if c.states[i].kind == Initial then e - {i} else e) + b
  }

  lemma UpThroughInitial(c: Chart, i: nat, b: set<nat>, a: nat)
    requires 0 < i < Size(c) && c.states[i].kind == Initial && AtOrUnder(c, i, a) && a != i
    requires exists w :: w in b && w != i && Under(c, w, Parent(c, i))
    ensures exists w :: w in b && w != i && AtOrUnder(c, w, a)
  {
    var w :| w in b && w != i && Under(c, w, Parent(c, i));
    if Parent(c, i) != a { UnderTransitive(c, w, Parent(c, i), a); }
  }

  /** What resolving a state other than a compound adds. */
  function Brings(c: Chart, cfg: set<nat>, hist: set<nat>, i: nat): set<nat>
    requires i < Size(c)
  {
    var s := c.states[i];
    match s.kind
    case Atomic => {}
    case Final => {}
    case Compound => {}
    case Parallel => s.completion
    case Initial =>
      var j := FirstFrom(c, i, 0);
      if j == |c.transitions| then {}
      else c.transitions[j].target + TargetAncestors(c, c.transitions[j].target, i + 1)
    case HistoryDeep => HistoryBrings(c, cfg, hist, i)
    case HistoryShallow => HistoryBrings(c, cfg, hist, i)
  }

  function HistoryBrings(c: Chart, cfg: set<nat>, hist: set<nat>, i: nat): set<nat>
    requires i < Size(c)
  {
    var s := c.states[i];
    var j := FirstFrom(c, i, 0);
    if !(s.completion * hist == {} && s.parent !in cfg) then s.completion * hist
    else if j == |c.transitions| then {}
    else
      c.transitions[j].target
      + if s.kind == HistoryDeep && c.transitions[j].target * s.children == {}
        then FirstTargetAncestors(c, c.transitions[j].target, i + 1) else {}
  }

  lemma ResolveBrings(c: Chart, cfg: set<nat>, hist: set<nat>, exits: set<nat>, e: Entry, i: nat)
    requires StatesOk(c) && i < Size(c) && c.states[i].kind != Compound
    ensures Grafts(c, e.states, i, Brings(c, cfg, hist, i), Resolve(c, cfg, hist, exits, e, i).states)
  {
    assert StateOk(c, i);
    if c.states[i].kind == Initial { InitialResolved(c, e, i); }
  }

  lemma BringsTarget(c: Chart, cfg: set<nat>, hist: set<nat>, i: nat)
    requires StatesOk(c) && i < Size(c) && c.states[i].kind == Initial
    ensures 0 < i && exists w :: w in Brings(c, cfg, hist, i) && w != i && Under(c, w, Parent(c, i))
  {
    assert StateOk(c, i);
    var w :| w in c.transitions[FirstFrom(c, i, 0)].target;
    assert w in Brings(c, cfg, hist, i);
  }

  lemma GapStepOther(c: Chart, cfg: set<nat>, hist: set<nat>, z: set<nat>, e: Entry, i: nat)
    requires Setting(c, cfg, hist, z) && GapInv(c, cfg, z, e.states, i) && i < Size(c) && i in e.states
    requires c.states[i].kind != Compound && !(IsHistory(c, i) && TakesDefault(c, cfg, hist, i))
    requires IsHistory(c, i) && 0 < i && Parent(c, i) !in z ==> Restorable(c, hist, i)
    ensures GapInv(c, cfg, z, Resolve(c, cfg, hist, cfg * z, e, i).states, i + 1)
  {
    hide PassInv, Setting, Resolve, Restorable, MendedAt;
    UpHolds(c, e.states);
    var e' := Resolve(c, cfg, hist, cfg * z, e, i).states;
    ClosureStep(c, cfg, hist, z, e, i);
    forall m | m in Up(c, e') && m !in e' ensures MendedAt(c, z, e', i + 1, m) {
      MendedStays(c, cfg, hist, z, e, i, m);
    }
  }

  lemma ClosureStep(c: Chart, cfg: set<nat>, hist: set<nat>, z: set<nat>, e: Entry, i: nat)
    requires Setting(c, cfg, hist, z) && PassInv(c, cfg, z, Up(c, e.states), i) && i < Size(c) && i in e.states
    requires c.states[i].kind != Compound && !(IsHistory(c, i) && TakesDefault(c, cfg, hist, i))
    requires forall x | x in e.states :: x < Size(c)
    requires IsHistory(c, i) && 0 < i && Parent(c, i) !in z ==> Restorable(c, hist, i)
    ensures
      var e' := Resolve(c, cfg, hist, cfg * z, e, i).states;
      && (forall x | x in e' :: x < Size(c))
      && PassInv(c, cfg, z, Up(c, e'), i + 1)
      && (forall m | m in Up(c, e') && m !in e' :: m in Up(c, e.states) && m !in e.states)
      && Up(c, e.states) - {i} <= Up(c, e')
  {
    hide PassInv, HistoryReady, ZoneOk, Resolve, Brings, Restorable, Up, TakesDefault;
    var u := Up(c, e.states);
    UpHolds(c, e.states);
    var d := Entry(u, e.trans);
    PassStep(c, cfg, hist, z, d, i);
    var u', e' := Resolve(c, cfg, hist, cfg * z, d, i).states, Resolve(c, cfg, hist, cfg * z, e, i).states;
    InvBounds(c, cfg, z, u', i + 1);
    ResolveBrings(c, cfg, hist, cfg * z, d, i);
    ResolveBrings(c, cfg, hist, cfg * z, e, i);
    var b := Brings(c, cfg, hist, i);
    if c.states[i].kind == Initial { BringsTarget(c, cfg, hist, i); }
    UpFollows(c, e.states, i, b, e', u');
  }

  lemma InvBounds(c: Chart, cfg: set<nat>, z: set<nat>, e: set<nat>, i: nat)
    requires PassInv(c, cfg, z, e, i)
    ensures ParentsIn(c, e) && forall x | x in e :: x < Size(c)
  {
  }

  lemma GapStepCompound(c: Chart, cfg: set<nat>, hist: set<nat>, z: set<nat>, e: Entry, i: nat)
    requires Setting(c, cfg, hist, z) && GapInv(c, cfg, z, e.states, i) && i < Size(c) && i in e.states
    requires IsCompound(c, i) && !OpensGapAt(c, cfg, hist, cfg * z, e, i)
    ensures GapInv(c, cfg, z, Resolve(c, cfg, hist, cfg * z, e, i).states, i + 1)
  {
    hide PassInv, HistoryReady, MendedAt, Gaping;
    CompletesOnlyInZone(c, cfg, z, e.states, i);
    if Completes(c, cfg, cfg * z, e.states, i) {
      GapStepCompletes(c, cfg, hist, z, e, i);
    } else {
      UpHolds(c, e.states);
      PassCompoundBusy(c, cfg, z, Up(c, e.states), i) by {
        if i in z { ZoneCompletes(c, cfg, z, e.states, i); }
      }
      forall m | m in Up(c, e.states) && m !in e.states ensures MendedAt(c, z, e.states, i + 1, m) {
        MendedStays(c, cfg, hist, z, e, i, m);
      }
    }
  }

  lemma CompletesOnlyInZone(c: Chart, cfg: set<nat>, z: set<nat>, e: set<nat>, i: nat)
    requires StatesOk(c) && ZoneOk(c, cfg, z) && PassInv(c, cfg, z, Up(c, e), i) && IsCompound(c, i) && i in e
    requires forall x | x in e :: x < Size(c)
    ensures Completes(c, cfg, cfg * z, e, i) ==> i in z && forall y | y in e :: !Under(c, y, i)
  {
    hide Apart, Filled;
    UpHolds(c, e);
    SameTest(c, cfg, cfg * z, e, i);
    if i in z {
      ZoneCompletes(c, cfg, z, e, i);
    } else {
      KeptNotCompleted(c, cfg, z, Up(c, e), i);
    }
  }

  /** The states from just below `i` down to `x`. */
  lemma PathCompletion(c: Chart, i: nat, x: nat)
    requires i < Size(c) && CompletesTo(c, i, x)
    ensures Completion(c, Cover(c, i, {x}), i)
  {
    var b := Cover(c, i, {x});
    CoverClosed(c, i, {x});
    forall y | y in b ensures Under(c, y, i) && !IsHistory(c, y) {
      if y != x { UnderBounds(c, x, y); }
    }
    SingletonCompatible(c, x);
    assert OneChildEach(c, b);
    var w := Toward(c, i, x);
    ChildUnder(c, w, i);
    assert Reaches(c, {x}, w);
    assert w in b;
  }

  lemma UpCompleted(c: Chart, e: set<nat>, i: nat, x: nat)
    requires i in e && Under(c, x, i) && forall y | y in e :: y < Size(c)
    ensures Up(c, e + {x}) == Up(c, e) + Cover(c, i, {x})
  {
    UpHolds(c, e);
    UpGrows(c, e, e + {x});
    UpGrows(c, {x}, e + {x});
    var u' := Up(c, e) + Cover(c, i, {x});
    forall k: nat, y | ChildOf(c, y, k) && y in u' ensures k in u' {
      if y in Cover(c, i, {x}) && k != i {
        CoverClosed(c, i, {x});
      }
    }
    assert AtOrUnder(c, x, x) && Reaches(c, {x}, x);
    UpLeast(c, e + {x}, u');
  }

  lemma GapStepCompletes(c: Chart, cfg: set<nat>, hist: set<nat>, z: set<nat>, e: Entry, i: nat)
    requires Setting(c, cfg, hist, z) && GapInv(c, cfg, z, e.states, i) && i in e.states && i in z && IsCompound(c, i)
    requires Completes(c, cfg, cfg * z, e.states, i) && !Gaping(c, i) && forall y | y in e.states :: !Under(c, y, i)
    ensures GapInv(c, cfg, z, Resolve(c, cfg, hist, cfg * z, e, i).states, i + 1)
  {
    hide PassInv, HistoryReady, MendedAt, Completes, ZoneOk;
    assert StateOk(c, i);
    var x := CompletionListed(c, i);
    var e' := e.states + {x};
    var u := Up(c, e.states);
    UpHolds(c, e.states);
    forall y | y in u ensures !Under(c, y, i) {
      var w :| w in e.states && AtOrUnder(c, w, y);
      if Under(c, y, i) { AtOrUnderTransitive(c, w, y, i); }
    }
    PathCompletion(c, i, x);
    UpCompleted(c, e.states, i, x);
    PassCompletion(c, cfg, z, u, i, Cover(c, i, {x}));
    assert Resolve(c, cfg, hist, cfg * z, e, i).states == e';
    forall m | m in Up(c, e') && m !in e' ensures MendedAt(c, z, e', i + 1, m) {
      if m in u {
        MendedStays(c, cfg, hist, z, e, i, m);
      } else {
        UnderInZone(c, cfg, z, m, i);
        NewMissing(c, z, e.states, i, x, m);
      }
    }
  }

  lemma NewMissing(c: Chart, z: set<nat>, e: set<nat>, i: nat, x: nat, m: nat)
    requires IsCompound(c, i) && CompletesTo(c, i, x) && !GapStays(c, i, x) && (forall y | y in e :: !Under(c, y, i))
    requires m in Cover(c, i, {x}) && m != x && m in z
    ensures MendedAt(c, z, e + {x}, i + 1, m)
  {
    var e' := e + {x};
    assert AtOrUnder(c, x, m);
    UnderBounds(c, x, i);
    if ChildOf(c, x, i) { NotBetween(c, x, i, m); }
    forall v | v in e' ensures !Under(c, v, x) {
      if Under(c, v, x) {
        UnderTransitive(c, v, x, i);
        UnderBounds(c, v, x);
      }
    }
    assert Mender(c, e', i + 1, m, x);
    forall h | h in e' && IsHistory(c, h) ensures !Under(c, h, m) {
      if Under(c, h, m) { UnderTransitive(c, h, m, i); }
    }
    forall w: nat | ChildOf(c, w, m) && Proper(c, w) && IsParallel(c, m) ensures w in Up(c, e') {
      assert !SkippedRegion(c, i, x, m, w);
      assert Reaches(c, e', w);
    }
  }

  // ---- Taking the default of a history state ----

  /** Everything the default names lies on the way to a target, or above the parent. */
  lemma DefaultOnTheWay(c: Chart, h: nat, p: nat, j: nat, x: nat)
    requires StatesOk(c) && ChildOf(c, h, p) && IsHistory(c, h) && j < |c.transitions| && HistoryDefaultOk(c, h, j)
    requires x in HistoryDefault(c, h, j)
    ensures x in Cover(c, p, c.transitions[j].target) || x == p || Under(c, p, x)
  {
    var t := c.transitions[j].target;
    TargetsReached(c, p, t);
    if x !in t {
      var y := FirstTargetUp(c, t, h + 1, x);
      Comparable(c, y, x, p);
      if Under(c, x, p) { AboveTargetCovered(c, p, t, y, x); }
    }
  }

  lemma CoverProper(c: Chart, h: nat, p: nat, t: set<nat>, x: nat)
    requires StatesOk(c) && ChildOf(c, h, p) && IsHistory(c, h) && (forall y | y in t :: Proper(c, y)) && x in Cover(c, p, t)
    ensures Proper(c, x) && h < x && Under(c, x, p)
  {
    var y :| y in t && AtOrUnder(c, y, x);
    if y != x { UnderBounds(c, y, x); }
    PseudoFirst(c, h, p, x);
  }

  lemma CoverGraft(c: Chart, h: nat, p: nat, j: nat)
    requires StatesOk(c) && ChildOf(c, h, p) && IsHistory(c, h) && j < |c.transitions| && HistoryDefaultOk(c, h, j)
    ensures Graft(c, p, Cover(c, p, c.transitions[j].target), h)
  {
    var t := c.transitions[j].target;
    var u := Cover(c, p, t);
    forall x | x in u ensures h < x && Proper(c, x) { CoverProper(c, h, p, t, x); }
    CoverClosed(c, p, t);
    TargetsReached(c, p, t);
    hide Cover, StatesOk, HistoryDefaultOk;
    assert TargetsOk(c, p, t) by { DefaultTargets(c, h, p, j); }
    TargetsGraft(c, p, t, u, h);
  }

  lemma DefaultTargets(c: Chart, h: nat, p: nat, j: nat)
    requires ChildOf(c, h, p) && j < |c.transitions| && HistoryDefaultOk(c, h, j)
    ensures TargetsOk(c, p, c.transitions[j].target)
  {
  }

  /** The closure after the default: what was there, and the way to all targets. */
  lemma UpDefaulted(c: Chart, e: set<nat>, h: nat, p: nat, j: nat)
    requires StatesOk(c) && ChildOf(c, h, p) && IsHistory(c, h) && j < |c.transitions| && HistoryDefaultOk(c, h, j)
    requires h in e && (forall x | x in e :: x < Size(c))
    ensures
      var e' := e + HistoryDefault(c, h, j);
      && Up(c, e') == Up(c, e) + Cover(c, p, c.transitions[j].target)
      && forall x | x in e' :: x < Size(c)
  {
    var t := c.transitions[j].target;
    var e' := e + HistoryDefault(c, h, j);
    var u' := Up(c, e) + Cover(c, p, t);
    UpHolds(c, e);
    UpGrows(c, e, e');
    UpGrows(c, t, e');
    CoverClosed(c, p, t);
    assert p in Up(c, e);
    forall x | x in HistoryDefault(c, h, j) ensures x in u' {
      DefaultOnTheWay(c, h, p, j, x);
      if Under(c, p, x) { AncestorIn(c, Up(c, e), p, x); }
    }
    assert ParentsIn(c, u') by { CoverJoins(c, Up(c, e), p, t); }
    UpLeast(c, e', u');
  }

  lemma CoverJoins(c: Chart, u: set<nat>, p: nat, t: set<nat>)
    requires ParentsIn(c, u) && p in u
    ensures ParentsIn(c, u + Cover(c, p, t))
  {
    CoverClosed(c, p, t);
  }

  /** Beside an unresolved history state only the regions of its parent are there. */
  lemma OnlyRegions(c: Chart, cfg: set<nat>, z: set<nat>, e: set<nat>, h: nat, p: nat)
    requires StatesOk(c) && PassInv(c, cfg, z, Up(c, e), h) && h in e && IsHistory(c, h) && ChildOf(c, h, p)
    requires forall x | x in e :: x < Size(c)
    ensures h in z && OnlyHere(c, p, e, h)
    ensures forall w: nat | p in z && IsParallel(c, p) && ChildOf(c, w, p) && Proper(c, w) :: w in e
  {
    hide StatesOk;
    UpHolds(c, e);
    HistoryAlone(c, cfg, z, Up(c, e), h, p);
    forall w: nat | p in z && IsParallel(c, p) && ChildOf(c, w, p) && Proper(c, w) ensures w in e {
      assert w in Up(c, e);
      if w !in e {
        var x := MissingAbove(c, e, w);
        ChildUnder(c, w, p);
        UnderTransitive(c, x, w, p);
        if ChildOf(c, x, p) { SiblingsApart(c, x, w, p); }
        if x == h { SiblingsApart(c, h, w, p); }
      }
    }
  }

  lemma {:induction false} EarlyComes(c: Chart, e: set<nat>, h: nat, p: nat, b: set<nat>, n: nat, m: nat)
    requires StatesOk(c) && ChildOf(c, h, p) && IsHistory(c, h) && Early(c, b, p, m) && Proper(c, m)
    requires Under(c, m, n) && (n == 0 || (Under(c, n, p) && n !in b && !Early(c, b, p, n)))
    requires forall x | x in b && Under(c, x, p) :: x in e
    requires forall w: nat | IsParallel(c, p) && ChildOf(c, w, p) && Proper(c, w) :: w in e
    ensures Coming(c, e, h + 1, n, m)
    decreases m
  {
    PseudoFirst(c, h, p, m);
    var k := Parent(c, m);
    assert ChildOf(c, m, k);
    if k == p && n != 0 {
      assert Under(c, m, p);
      NotBetween(c, m, p, n);
    }
    if m !in e {
      if k != n { assert Under(c, k, n); }
      if k in b {
        PseudoFirst(c, h, p, k);
        if n == 0 { UnderBounds(c, k, p); UnderRoot(c, k); }
      } else {
        if n == 0 { UnderBounds(c, k, p); UnderRoot(c, k); }
        EarlyComes(c, e, h, p, b, n, k);
      }
    }
  }

  /** Below the parent, the default puts only states on the way to its targets beside
      the history state and the regions. */
  lemma DefaultedBelow(c: Chart, cfg: set<nat>, z: set<nat>, e: set<nat>, h: nat, p: nat, j: nat, v: nat)
    requires StatesOk(c) && PassInv(c, cfg, z, Up(c, e), h) && h in e && IsHistory(c, h) && ChildOf(c, h, p)
    requires (forall x | x in e :: x < Size(c)) && j < |c.transitions| && HistoryDefaultOk(c, h, j)
    requires v in e + HistoryDefault(c, h, j) && Under(c, v, p)
    ensures v == h || (IsParallel(c, p) && ChildOf(c, v, p) && Proper(c, v)) || v in Cover(c, p, c.transitions[j].target)
  {
    UpHolds(c, e);
    OnlyRegions(c, cfg, z, e, h, p);
    if v in e {
      assert v in Up(c, e);
    } else {
      DefaultOnTheWay(c, h, p, j, v);
      UnderBounds(c, v, p);
      if Under(c, p, v) { UnderBounds(c, p, v); }
    }
  }

  lemma DefaultMended(c: Chart, cfg: set<nat>, z: set<nat>, e: set<nat>, h: nat, p: nat, j: nat, m: nat)
    requires StatesOk(c) && ZoneOk(c, cfg, z) && PassInv(c, cfg, z, Up(c, e), h) && h in e && IsHistory(c, h) && ChildOf(c, h, p) && p in z
    requires (forall x | x in e :: x < Size(c)) && j == FirstFrom(c, h, 0) < |c.transitions| && HistoryDefaultOk(c, h, j)
    requires !GapingDefault(c, h)
    requires m in Cover(c, p, c.transitions[j].target) && m !in e + HistoryDefault(c, h, j)
    ensures MendedAt(c, z, e + HistoryDefault(c, h, j), h + 1, m)
  {
    hide PassInv, HistoryDefaultOk, HistoryDefault, Early, ZoneOk, StatesOk, Coming;
    var t := c.transitions[j].target;
    var b := HistoryDefault(c, h, j);
    var e' := e + b;
    DefaultProper(c, h, p, j, m);
    UnderInZone(c, cfg, z, m, p);
    OnlyRegions(c, cfg, z, e, h, p);
    forall k | k in e' && IsHistory(c, k) ensures !Under(c, k, m) {
      if Under(c, k, m) { DefaultNoHistory(c, cfg, z, e, h, p, j, m, k); }
    }
    if Early(c, b, p, m) {
      UnderBounds(c, m, p);
      UnderRoot(c, m);
      EarlyComes(c, e', h, p, b, 0, m);
    } else {
      assert Left(c, p, t, b, m) && !Sticks(c, p, t, b, m);
      var y: nat :| OpenBelow(c, p, t, y) && Under(c, y, m) && Repairs(c, y);
      OpenComes(c, cfg, z, e, h, p, j, m, y);
      OpenLowest(c, cfg, z, e, h, p, j, y);
      assert Mender(c, e', h + 1, m, y);
      forall w: nat | ChildOf(c, w, m) && Proper(c, w) && IsParallel(c, m) ensures w in Up(c, e') {
        assert !MissesRegion(c, p, t, m, w);
        CoverUp(c, h, p, j, e', w);
      }
    }
  }

  lemma CoverUp(c: Chart, h: nat, p: nat, j: nat, e': set<nat>, w: nat)
    requires h < Size(c) && j < |c.transitions| && HistoryDefault(c, h, j) <= e' && w in Cover(c, p, c.transitions[j].target)
    ensures w in Up(c, e')
  {
    var tx :| tx in c.transitions[j].target && AtOrUnder(c, tx, w);
    assert tx in e';
    assert Reaches(c, e', w);
  }

  lemma DefaultProper(c: Chart, h: nat, p: nat, j: nat, m: nat)
    requires StatesOk(c) && ChildOf(c, h, p) && IsHistory(c, h) && j < |c.transitions| && HistoryDefaultOk(c, h, j)
    requires m in Cover(c, p, c.transitions[j].target)
    ensures Proper(c, m) && h < m && Under(c, m, p)
  {
    CoverProper(c, h, p, c.transitions[j].target, m);
  }

  lemma DefaultNoHistory(c: Chart, cfg: set<nat>, z: set<nat>, e: set<nat>, h: nat, p: nat, j: nat, m: nat, k: nat)
    requires StatesOk(c) && PassInv(c, cfg, z, Up(c, e), h) && h in e && IsHistory(c, h) && ChildOf(c, h, p)
    requires (forall x | x in e :: x < Size(c)) && j < |c.transitions| && HistoryDefaultOk(c, h, j)
    requires Under(c, m, p) && k in e + HistoryDefault(c, h, j) && IsHistory(c, k)
    ensures !Under(c, k, m)
  {
    hide PassInv, HistoryDefaultOk, HistoryDefault, StatesOk;
    if Under(c, k, m) {
      UnderTransitive(c, k, m, p);
      DefaultedBelow(c, cfg, z, e, h, p, j, k);
      if k in Cover(c, p, c.transitions[j].target) {
        DefaultProper(c, h, p, j, k);
      } else {
        NotBetween(c, h, p, m);
      }
    }
  }

  lemma OpenLowest(c: Chart, cfg: set<nat>, z: set<nat>, e: set<nat>, h: nat, p: nat, j: nat, y: nat)
    requires StatesOk(c) && PassInv(c, cfg, z, Up(c, e), h) && h in e && IsHistory(c, h) && ChildOf(c, h, p)
    requires (forall x | x in e :: x < Size(c)) && j < |c.transitions| && HistoryDefaultOk(c, h, j)
    requires OpenBelow(c, p, c.transitions[j].target, y)
    ensures Lowest(c, e + HistoryDefault(c, h, j), y)
  {
    hide PassInv, HistoryDefaultOk, HistoryDefault, StatesOk, Cover;
    forall v | v in e + HistoryDefault(c, h, j) ensures !Under(c, v, y) {
      if Under(c, v, y) {
        UnderTransitive(c, v, y, p);
        DefaultedBelow(c, cfg, z, e, h, p, j, v);
        if ChildOf(c, v, p) { NotBetween(c, v, p, y); }
      }
    }
  }

  lemma OpenComes(c: Chart, cfg: set<nat>, z: set<nat>, e: set<nat>, h: nat, p: nat, j: nat, m: nat, y: nat)
    requires StatesOk(c) && PassInv(c, cfg, z, Up(c, e), h) && h in e && IsHistory(c, h) && ChildOf(c, h, p) && p in z
    requires (forall x | x in e :: x < Size(c)) && j == FirstFrom(c, h, 0) < |c.transitions| && HistoryDefaultOk(c, h, j)
    requires !GapingDefault(c, h)
    requires
      var t := c.transitions[j].target;
      Left(c, p, t, HistoryDefault(c, h, j), m) && OpenBelow(c, p, t, y) && Under(c, y, m)
    ensures Coming(c, e + HistoryDefault(c, h, j), h + 1, m, y)
  {
    hide PassInv, HistoryDefaultOk, HistoryDefault, StatesOk, Early, Cover;
    var t := c.transitions[j].target;
    var b := HistoryDefault(c, h, j);
    var e' := e + b;
    OnlyRegions(c, cfg, z, e, h, p);
    PseudoFirst(c, h, p, y);
    DefaultProper(c, h, p, j, m);
    if y in Cover(c, p, t) {
      DefaultTargets(c, h, p, j);
      LeafNamed(c, h, p, j, y);
    } else if y !in e' {
      var k := Parent(c, y);
      assert ChildOf(c, y, k);
      if k == p { NotBetween(c, y, p, m); }
      DefaultProper(c, h, p, j, k);
      assert !Sticks(c, p, t, b, m) && !Sticks(c, p, t, b, k);
      assert k == m ==> MissesRegion(c, p, t, m, y);
      assert Under(c, k, m);
      if k !in b {
        assert !Early(c, b, p, k) ==> MissesRegion(c, p, t, k, y);
        EarlyComes(c, e', h, p, b, m, k);
      }
    }
  }

  lemma LeafNamed(c: Chart, h: nat, p: nat, j: nat, y: nat)
    requires h < Size(c) && j < |c.transitions| && y in Cover(c, p, c.transitions[j].target)
    requires forall v | v in Cover(c, p, c.transitions[j].target) :: !Under(c, v, y)
    requires forall x | x in c.transitions[j].target :: Under(c, x, p)
    ensures y in HistoryDefault(c, h, j)
  {
    var t := c.transitions[j].target;
    TargetsReached(c, p, t);
    var tx :| tx in t && AtOrUnder(c, tx, y);
  }

  lemma GapStepDefault(c: Chart, cfg: set<nat>, hist: set<nat>, z: set<nat>, e: Entry, i: nat)
    requires Setting(c, cfg, hist, z) && GapInv(c, cfg, z, e.states, i) && i < Size(c) && i in e.states
    requires IsHistory(c, i) && TakesDefault(c, cfg, hist, i) && !GapingDefault(c, i)
    ensures GapInv(c, cfg, z, Resolve(c, cfg, hist, cfg * z, e, i).states, i + 1)
  {
    hide PassInv, HistoryReady, Resolve, MendedAt, GapingDefault, ZoneOk, Up, HistoryDefault;
    var p := Parent(c, i);
    var j := FirstFrom(c, i, 0);
    assert StateOk(c, i);
    assert ChildOf(c, i, p);
    ResolvesDefault(c, cfg, hist, cfg * z, e, i);
    DefaultInZone(c, cfg, z, e.states, i, p);
    UpDefaulted(c, e.states, i, p, j);
    CoverGraft(c, i, p, j);
    UpHolds(c, e.states);
    var u' := Up(c, e.states) + Cover(c, p, c.transitions[j].target);
    PassGraft(c, cfg, z, Up(c, e.states), i, p, Cover(c, p, c.transitions[j].target), u');
    forall m | m in u' && m !in e.states + HistoryDefault(c, i, j)
      ensures MendedAt(c, z, e.states + HistoryDefault(c, i, j), i + 1, m)
    {
      if m in Up(c, e.states) {
        MendedStays(c, cfg, hist, z, e, i, m);
      } else {
        DefaultMended(c, cfg, z, e.states, i, p, j, m);
      }
    }
  }

  lemma ResolvesDefault(c: Chart, cfg: set<nat>, hist: set<nat>, exits: set<nat>, e: Entry, i: nat)
    requires StatesOk(c) && IsHistory(c, i) && TakesDefault(c, cfg, hist, i)
    ensures FirstFrom(c, i, 0) < |c.transitions| && HistoryDefaultOk(c, i, FirstFrom(c, i, 0))
    ensures Resolve(c, cfg, hist, exits, e, i).states == e.states + HistoryDefault(c, i, FirstFrom(c, i, 0))
  {
    assert StateOk(c, i);
  }

  lemma ZoneEdge(c: Chart, cfg: set<nat>, z: set<nat>, k: nat, x: nat)
    requires ZoneOk(c, cfg, z) && ChildOf(c, x, k) && x in z && k !in z
    ensures IsCompound(c, k) && k in cfg
  {
  }

  lemma DefaultInZone(c: Chart, cfg: set<nat>, z: set<nat>, e: set<nat>, i: nat, p: nat)
    requires StatesOk(c) && ZoneOk(c, cfg, z) && PassInv(c, cfg, z, Up(c, e), i) && i in e && IsHistory(c, i) && ChildOf(c, i, p)
    requires p !in cfg && forall x | x in e :: x < Size(c)
    ensures p in z && i in z && OnlyHere(c, p, Up(c, e), i)
  {
    UpHolds(c, e);
    HistoryAlone(c, cfg, z, Up(c, e), i, p);
    if p !in z { ZoneEdge(c, cfg, z, p, i); }
  }

  // ---- What cannot be made up for ----

  /** A state outside the subtree of the proper state `a`, and after it, brings in
      nothing below `a`. */
  lemma StaysOut(c: Chart, cfg: set<nat>, hist: set<nat>, exits: set<nat>, e: Entry, k: nat, a: nat, v: nat)
    requires StatesOk(c) && a < k < Size(c) && Proper(c, a) && !Under(c, k, a)
    requires v in Resolve(c, cfg, hist, exits, e, k).states && v !in e.states
    ensures !Under(c, v, a)
  {
    hide Resolve;
    if Under(c, v, a) {
      var w := Added(c, cfg, hist, exits, e, k, v);
      AtOrUnderTransitive(c, w, v, a);
      var b := Base(c, k);
      Comparable(c, w, a, b);
      assert StateOk(c, k);
      UnderBase(c, k);
      if Under(c, b, a) {
        AtOrUnderTransitive(c, k, b, a);
      } else if Under(c, a, b) {
        UnderBounds(c, a, b);
      }
    }
  }


  ghost predicate OnlyDefaults(c: Chart, e: set<nat>, a: nat, x: nat) {
    x in e && forall v | v in e && Under(c, v, a) :: v in Defaults(c, x)
  }

  lemma {:induction false} GapUnrepaired(c: Chart, cfg: set<nat>, hist: set<nat>, exits: set<nat>, e: Entry, k: nat, a: nat, x: nat)
    requires StatesOk(c) && IsCompound(c, a) && CompletesTo(c, a, x) && !Repairs(c, x) && a < k
    requires OnlyDefaults(c, e.states, a, x)
    ensures OnlyDefaults(c, Descend(c, cfg, hist, exits, e, k).states, a, x)
    decreases Size(c) - k
  {
    hide Resolve, OnlyDefaults, StatesOk;
    if k < Size(c) {
      if k in e.states {
        UnrepairedStep(c, cfg, hist, exits, e, k, a, x);
        GapUnrepaired(c, cfg, hist, exits, Resolve(c, cfg, hist, exits, e, k), k + 1, a, x);
      } else {
        GapUnrepaired(c, cfg, hist, exits, e, k + 1, a, x);
      }
    }
  }

  lemma UnrepairedStep(c: Chart, cfg: set<nat>, hist: set<nat>, exits: set<nat>, e: Entry, k: nat, a: nat, x: nat)
    requires StatesOk(c) && IsCompound(c, a) && CompletesTo(c, a, x) && !Repairs(c, x) && a < k < Size(c) && k in e.states
    requires OnlyDefaults(c, e.states, a, x)
    ensures OnlyDefaults(c, Resolve(c, cfg, hist, exits, e, k).states, a, x)
  {
    hide Resolve;
    assert x in Defaults(c, x);
    UnderBounds(c, x, a);
    Keeps(c, cfg, hist, exits, e, k, x);
    forall v | v in Resolve(c, cfg, hist, exits, e, k).states && Under(c, v, a) && v !in e.states
      ensures v in Defaults(c, x)
    {
      if Under(c, k, a) {
        DefaultsInside(c, x, k);
        var w := Added(c, cfg, hist, exits, e, k, v);
        UnderBounds(c, w, Base(c, k));
        DefaultsStep(c, x, k, v);
      } else {
        StaysOut(c, cfg, hist, exits, e, k, a, v);
      }
    }
  }

  /** Below `a` there is only what is comparable to `x`, and what lies above `x` came
      too late to be resolved. */
  ghost predicate OnlyOnTheWay(c: Chart, e: set<nat>, a: nat, x: nat, k: nat) {
    x in e && forall v | v in e && Under(c, v, a) :: AtOrUnder(c, v, x) || (Under(c, x, v) && v < k)
  }

  lemma {:induction false} GapSkipsRegion(c: Chart, cfg: set<nat>, hist: set<nat>, exits: set<nat>, e: Entry, k: nat, a: nat, x: nat)
    requires StatesOk(c) && IsCompound(c, a) && CompletesTo(c, a, x) && Proper(c, x) && a < k
    requires OnlyOnTheWay(c, e.states, a, x, k)
    ensures OnlyOnTheWay(c, Descend(c, cfg, hist, exits, e, k).states, a, x, if k < Size(c) then Size(c) else k)
    decreases Size(c) - k
  {
    hide Resolve, OnlyOnTheWay, StatesOk;
    if k < Size(c) {
      if k in e.states {
        OnTheWayStep(c, cfg, hist, exits, e, k, a, x);
        GapSkipsRegion(c, cfg, hist, exits, Resolve(c, cfg, hist, exits, e, k), k + 1, a, x);
      } else {
        assert OnlyOnTheWay(c, e.states, a, x, k + 1) by { OnTheWaySkips(c, e.states, a, x, k); }
        GapSkipsRegion(c, cfg, hist, exits, e, k + 1, a, x);
      }
    }
  }

  lemma OnTheWaySkips(c: Chart, e: set<nat>, a: nat, x: nat, k: nat)
    requires OnlyOnTheWay(c, e, a, x, k)
    ensures OnlyOnTheWay(c, e, a, x, k + 1)
  {
  }

  lemma OnTheWayStep(c: Chart, cfg: set<nat>, hist: set<nat>, exits: set<nat>, e: Entry, k: nat, a: nat, x: nat)
    requires StatesOk(c) && IsCompound(c, a) && CompletesTo(c, a, x) && Proper(c, x) && a < k < Size(c) && k in e.states
    requires OnlyOnTheWay(c, e.states, a, x, k)
    ensures OnlyOnTheWay(c, Resolve(c, cfg, hist, exits, e, k).states, a, x, k + 1)
  {
    hide Resolve;
    Keeps(c, cfg, hist, exits, e, k, x);
    forall v | v in Resolve(c, cfg, hist, exits, e, k).states && Under(c, v, a) && v !in e.states
      ensures AtOrUnder(c, v, x) || (Under(c, x, v) && v < k + 1)
    {
      if Under(c, k, a) {
        var w := Added(c, cfg, hist, exits, e, k, v);
        assert AtOrUnder(c, k, x);
        BaseInside(c, k, x);
        AtOrUnderTransitive(c, w, Base(c, k), x);
        Comparable(c, w, v, x);
        if Under(c, x, v) { UnderBounds(c, x, v); }
        if k != x { UnderBounds(c, k, x); }
      } else {
        StaysOut(c, cfg, hist, exits, e, k, a, v);
      }
    }
  }

  lemma BaseInside(c: Chart, k: nat, x: nat)
    requires AtOrUnder(c, k, x) && Proper(c, x)
    ensures AtOrUnder(c, Base(c, k), x)
  {
  }

  /** Below the kept parent `p` only the history state `h` is entered. */
  ghost predicate OnlyThere(c: Chart, e: set<nat>, p: nat, h: nat) {
    forall v | v in e && Under(c, v, p) :: v == h
  }

  lemma {:induction false} StrandedStays(c: Chart, cfg: set<nat>, hist: set<nat>, exits: set<nat>, e: Entry, k: nat, p: nat, h: nat)
    requires StatesOk(c) && IsCompound(c, p) && ChildOf(c, h, p) && h < k
    requires OnlyThere(c, e.states, p, h)
    ensures OnlyThere(c, Descend(c, cfg, hist, exits, e, k).states, p, h)
    decreases Size(c) - k
  {
    hide Resolve, StatesOk;
    if k < Size(c) {
      if k in e.states {
        forall v | v in Resolve(c, cfg, hist, exits, e, k).states && Under(c, v, p) ensures v == h {
          if v !in e.states { StaysOut(c, cfg, hist, exits, e, k, p, v); }
        }
        StrandedStays(c, cfg, hist, exits, Resolve(c, cfg, hist, exits, e, k), k + 1, p, h);
      } else {
        StrandedStays(c, cfg, hist, exits, e, k + 1, p, h);
      }
    }
  }

  // ---- What a gaping default leaves out ----

  /** `v` came in by default below the open state `y`. */
  ghost predicate Descends(c: Chart, p: nat, t: set<nat>, v: nat, y: nat) {
    OpenBelow(c, p, t, y) && AtOrUnder(c, v, y) && (Repairs(c, y) || v in Defaults(c, y))
  }

  /** What is below `p` after the default: on the way to the targets, the history
      state, and what descends from open states; what was left came too late. */
  ghost predicate OnlyDefaulted(c: Chart, e: set<nat>, h: nat, p: nat, t: set<nat>, b: set<nat>, k: nat) {
    && t <= e
    && (forall v | v in e && Under(c, v, p) :: v in Cover(c, p, t) || v == h || exists y: nat :: Descends(c, p, t, v, y))
    && (forall n | n in e && Left(c, p, t, b, n) :: n < k)
  }

  /** `m` is left and never repaired, or its region `w` is missed. */
  ghost predicate Missed(c: Chart, p: nat, t: set<nat>, b: set<nat>, m: nat, w: nat) {
    Left(c, p, t, b, m) && ((w == m && !RepairedBelow(c, p, t, m)) || MissesRegion(c, p, t, m, w))
  }

  ghost predicate NoneAt(c: Chart, p: nat, t: set<nat>, e: set<nat>, m: nat, w: nat) {
    if w == m then m !in e else forall v | v in e :: !AtOrUnder(c, v, w)
  }

  lemma LeftAbove(c: Chart, p: nat, t: set<nat>, b: set<nat>, m: nat) returns (x: nat)
    requires Left(c, p, t, b, m) && t <= b && forall x | x in t :: Under(c, x, p)
    ensures x in t && Under(c, x, m) && x in Cover(c, p, t) && Under(c, m, p)
  {
    TargetsReached(c, p, t);
    x :| x in t && AtOrUnder(c, x, m);
  }

  lemma CoverUpward(c: Chart, p: nat, t: set<nat>, v: nat, w: nat)
    requires v in Cover(c, p, t) && AtOrUnder(c, v, w) && Under(c, w, p)
    ensures w in Cover(c, p, t)
  {
    var x :| x in t && AtOrUnder(c, x, v);
    AtOrUnderTransitive(c, x, v, w);
    UnderBounds(c, w, p);
  }

  lemma OpenNotLeft(c: Chart, p: nat, t: set<nat>, b: set<nat>, y: nat)
    requires OpenBelow(c, p, t, y) && t <= b && forall x | x in t :: Under(c, x, p)
    ensures !Left(c, p, t, b, y)
  {
    if Left(c, p, t, b, y) { var x := LeftAbove(c, p, t, b, y); }
  }

  /** A region brought in by a parallel state on the way to the targets. */
  lemma NewRegionDefaulted(c: Chart, e: set<nat>, h: nat, p: nat, t: set<nat>, b: set<nat>, k: nat, m: nat, w: nat, v: nat)
    requires t <= b && (forall x | x in t :: Under(c, x, p)) && OnlyDefaulted(c, e, h, p, t, b, k) && Missed(c, p, t, b, m, w)
    requires k in e && k in Cover(c, p, t) && IsParallel(c, k) && ChildOf(c, v, k) && Proper(c, v)
    ensures v in Cover(c, p, t) || Descends(c, p, t, v, v)
    ensures !Left(c, p, t, b, v) && (if w == m then v != m else !AtOrUnder(c, v, w))
  {
    hide Cover, RepairedBelow;
    assert Under(c, k, p) by { CoverUnder(c, p, t, k); }
    ChildUnder(c, v, k);
    UnderTransitive(c, v, k, p);
    assert !Left(c, p, t, b, k);
    if v !in Cover(c, p, t) {
      forall u | u in Cover(c, p, t) ensures !Under(c, u, v) {
        if Under(c, u, v) { CoverUpward(c, p, t, u, v); }
      }
      assert v in Defaults(c, v);
    }
    if w != m && AtOrUnder(c, v, w) {
      ChildUnder(c, w, m);
      assert Under(c, w, p) by { CoverUnder(c, p, t, m); UnderTransitive(c, w, m, p); }
      if v in Cover(c, p, t) {
        CoverUpward(c, p, t, v, w);
      } else if v != w {
        CoverUpward(c, p, t, k, w);
      }
    }
  }

  lemma CoverUnder(c: Chart, p: nat, t: set<nat>, x: nat)
    requires x in Cover(c, p, t)
    ensures Under(c, x, p)
  {
  }

  /** A state brought in below (or by way of) an open state. */
  lemma NewDescended(c: Chart, cfg: set<nat>, hist: set<nat>, exits: set<nat>, e: Entry, h: nat, p: nat, t: set<nat>, b: set<nat>, k: nat, m: nat, w: nat, y: nat, v: nat)
    requires StatesOk(c) && t <= b && (forall x | x in t :: Under(c, x, p)) && k < Size(c) && k in e.states
    requires Missed(c, p, t, b, m, w) && NoneAt(c, p, t, e.states, m, w) && Descends(c, p, t, k, y)
    requires v in Resolve(c, cfg, hist, exits, e, k).states && v !in e.states && Under(c, v, p)
    ensures v in Cover(c, p, t) || Descends(c, p, t, v, y)
    ensures (Left(c, p, t, b, v) ==> v < k + 1) && (if w == m then v != m else !AtOrUnder(c, v, w))
  {
    hide Resolve, Cover, StatesOk;
    var x := Added(c, cfg, hist, exits, e, k, v);
    BaseInside(c, k, y);
    AtOrUnderTransitive(c, x, Base(c, k), y);
    Comparable(c, x, v, y);
    OpenNotLeft(c, p, t, b, y);
    DescendsPlain(c, p, t, k, y);
    if !Repairs(c, y) {
      AtOrUnderTransitive(c, v, k, y);
      UnderBounds(c, v, y);
    }
    if Under(c, y, v) {
      UnderBounds(c, y, v);
      if k != y { UnderBounds(c, k, y); }
      AboveOpen(c, p, t, y, v);
      if w != m && AtOrUnder(c, v, w) {
        assert Under(c, w, p) by { RegionUnder(c, p, t, m, w); }
        CoverUpward(c, p, t, v, w);
      }
    } else {
      if !Repairs(c, y) {
        UnderBounds(c, v, k);
        DefaultsStep(c, y, k, v);
      }
      if w != m && AtOrUnder(c, v, w) { OpenBesideMissed(c, e.states, p, t, b, k, m, w, y, v); }
    }
  }

  lemma RegionUnder(c: Chart, p: nat, t: set<nat>, m: nat, w: nat)
    requires m in Cover(c, p, t) && ChildOf(c, w, m)
    ensures Under(c, w, p)
  {
    ChildUnder(c, w, m);
    UnderTransitive(c, w, m, p);
  }

  /** Without a repair below `y`, what came in below it is no pseudo-state. */
  lemma DescendsPlain(c: Chart, p: nat, t: set<nat>, k: nat, y: nat)
    requires StatesOk(c) && Descends(c, p, t, k, y) && k < Size(c)
    ensures !Repairs(c, y) ==> k in Defaults(c, y) && !IsPseudoKind(c.states[k].kind)
  {
    if !Repairs(c, y) { DefaultsInside(c, y, k); }
  }

  lemma AboveOpen(c: Chart, p: nat, t: set<nat>, y: nat, v: nat)
    requires OpenBelow(c, p, t, y) && Under(c, y, v) && Under(c, v, p)
    ensures v in Cover(c, p, t)
  {
    if y in Cover(c, p, t) {
      CoverUpward(c, p, t, y, v);
    } else {
      var q := Parent(c, y);
      assert ChildOf(c, y, q);
      if q == p { NotBetween(c, y, p, v); }
      CoverUpward(c, p, t, q, v);
    }
  }

  /** Nothing that descends from an open state is at or below a missed region. */
  lemma OpenBesideMissed(c: Chart, e: set<nat>, p: nat, t: set<nat>, b: set<nat>, k: nat, m: nat, w: nat, y: nat, v: nat)
    requires t <= b && (forall x | x in t :: Under(c, x, p)) && Missed(c, p, t, b, m, w) && w != m
    requires k in e && NoneAt(c, p, t, e, m, w) && OpenBelow(c, p, t, y) && AtOrUnder(c, k, y)
    ensures !(AtOrUnder(c, v, w) && AtOrUnder(c, v, y))
  {
    hide Cover;
    var x := LeftAbove(c, p, t, b, m);
    if AtOrUnder(c, v, w) && AtOrUnder(c, v, y) {
      Comparable(c, v, w, y);
      if !Under(c, w, y) { AtOrUnderTransitive(c, k, y, w); }
    }
  }

  lemma NewDefaulted(c: Chart, cfg: set<nat>, hist: set<nat>, exits: set<nat>, e: Entry, h: nat, p: nat, t: set<nat>, b: set<nat>, k: nat, m: nat, w: nat, v: nat)
    requires StatesOk(c) && t <= b && (forall x | x in t :: Under(c, x, p)) && ChildOf(c, h, p) && IsHistory(c, h)
    requires h < k < Size(c) && k in e.states && (forall x | x in t :: Proper(c, x))
    requires OnlyDefaulted(c, e.states, h, p, t, b, k) && Missed(c, p, t, b, m, w) && NoneAt(c, p, t, e.states, m, w)
    requires v in Resolve(c, cfg, hist, exits, e, k).states && v !in e.states
    ensures Under(c, v, p) ==> v in Cover(c, p, t) || exists y: nat :: Descends(c, p, t, v, y)
    ensures (Left(c, p, t, b, v) ==> v < k + 1) && (if w == m then v != m else !AtOrUnder(c, v, w))
  {
    hide Resolve, Cover, StatesOk, Descends;
    if w != m { RegionUnder(c, p, t, m, w); }
    CoverUnder(c, p, t, m);
    if Left(c, p, t, b, v) { CoverUnder(c, p, t, v); }
    if !Under(c, k, p) {
      StaysOut(c, cfg, hist, exits, e, k, p, v);
      if AtOrUnder(c, v, w) && w != m { AtOrUnderTransitive(c, v, w, p); }
    } else if !Under(c, v, p) {
      if AtOrUnder(c, v, w) && w != m { AtOrUnderTransitive(c, v, w, p); }
    } else if y: nat :| Descends(c, p, t, k, y) {
      NewDescended(c, cfg, hist, exits, e, h, p, t, b, k, m, w, y, v);
    } else {
      NewOnTheWay(c, cfg, hist, exits, e, h, p, t, b, k, m, w, v);
    }
  }

  lemma NewOnTheWay(c: Chart, cfg: set<nat>, hist: set<nat>, exits: set<nat>, e: Entry, h: nat, p: nat, t: set<nat>, b: set<nat>, k: nat, m: nat, w: nat, v: nat)
    requires StatesOk(c) && t <= b && (forall x | x in t :: Under(c, x, p)) && ChildOf(c, h, p) && IsHistory(c, h)
    requires h < k < Size(c) && k in e.states && (forall x | x in t :: Proper(c, x))
    requires OnlyDefaulted(c, e.states, h, p, t, b, k) && Missed(c, p, t, b, m, w)
    requires v in Resolve(c, cfg, hist, exits, e, k).states && v !in e.states
    requires k in Cover(c, p, t) && !Descends(c, p, t, k, k)
    ensures v in Cover(c, p, t) || exists y: nat :: Descends(c, p, t, v, y)
    ensures !Left(c, p, t, b, v) && (if w == m then v != m else !AtOrUnder(c, v, w))
  {
    hide Resolve, Cover;
    CoverProper(c, h, p, t, k);
    var x := Added(c, cfg, hist, exits, e, k, v);
    assert StateOk(c, k) && k in Defaults(c, k);
    if IsCompound(c, k) {
      var u :| u in Cover(c, p, t) && Under(c, u, k);
      var tx := CoverTarget(c, p, t, u);
      AtOrUnderTransitive(c, tx, u, k);
      BusyAddsNothing(c, cfg, hist, exits, e, k, tx);
    } else {
      assert ChildOf(c, v, k) && Proper(c, v);
      NewRegionDefaulted(c, e.states, h, p, t, b, k, m, w, v);
    }
  }

  lemma CoverTarget(c: Chart, p: nat, t: set<nat>, u: nat) returns (x: nat)
    requires u in Cover(c, p, t)
    ensures x in t && AtOrUnder(c, x, u)
  {
    x :| x in t && AtOrUnder(c, x, u);
  }

  lemma DefaultedStep(c: Chart, cfg: set<nat>, hist: set<nat>, exits: set<nat>, e: Entry, h: nat, p: nat, t: set<nat>, b: set<nat>, k: nat, m: nat, w: nat)
    requires StatesOk(c) && t <= b && (forall x | x in t :: Under(c, x, p)) && ChildOf(c, h, p) && IsHistory(c, h)
    requires h < k < Size(c) && k in e.states && (forall x | x in t :: Proper(c, x))
    requires OnlyDefaulted(c, e.states, h, p, t, b, k) && Missed(c, p, t, b, m, w) && NoneAt(c, p, t, e.states, m, w)
    ensures
      var e' := Resolve(c, cfg, hist, exits, e, k).states;
      OnlyDefaulted(c, e', h, p, t, b, k + 1) && NoneAt(c, p, t, e', m, w)
  {
    hide Resolve, StatesOk, Descends, Missed, Left, Cover;
    var e' := Resolve(c, cfg, hist, exits, e, k).states;
    forall x | x in t ensures x in e' { Keeps(c, cfg, hist, exits, e, k, x); }
    forall v | v in e' && v !in e.states
      ensures Under(c, v, p) ==> v in Cover(c, p, t) || exists y: nat :: Descends(c, p, t, v, y)
      ensures (Left(c, p, t, b, v) ==> v < k + 1) && (if w == m then v != m else !AtOrUnder(c, v, w))
    {
      NewDefaulted(c, cfg, hist, exits, e, h, p, t, b, k, m, w, v);
    }
  }

  lemma {:induction false} DefaultStays(c: Chart, cfg: set<nat>, hist: set<nat>, exits: set<nat>, e: Entry, h: nat, p: nat, t: set<nat>, b: set<nat>, k: nat, m: nat, w: nat)
    requires StatesOk(c) && t <= b && (forall x | x in t :: Under(c, x, p)) && ChildOf(c, h, p) && IsHistory(c, h)
    requires h < k && (forall x | x in t :: Proper(c, x))
    requires OnlyDefaulted(c, e.states, h, p, t, b, k) && Missed(c, p, t, b, m, w) && NoneAt(c, p, t, e.states, m, w)
    ensures
      var d := Descend(c, cfg, hist, exits, e, k).states;
      t <= d && NoneAt(c, p, t, d, m, w)
    decreases Size(c) - k
  {
    hide Resolve, StatesOk, Missed, NoneAt;
    if k < Size(c) {
      if k in e.states {
        hide OnlyDefaulted;
        DefaultedStep(c, cfg, hist, exits, e, h, p, t, b, k, m, w);
        DefaultStays(c, cfg, hist, exits, Resolve(c, cfg, hist, exits, e, k), h, p, t, b, k + 1, m, w);
      } else {
        assert OnlyDefaulted(c, e.states, h, p, t, b, k + 1);
        DefaultStays(c, cfg, hist, exits, e, h, p, t, b, k + 1, m, w);
      }
    }
  }

  /** Just after the default only what it names is there. */
  lemma DefaultStarts(c: Chart, cfg: set<nat>, z: set<nat>, e: set<nat>, h: nat, p: nat, j: nat, m: nat, w: nat)
    requires StatesOk(c) && PassInv(c, cfg, z, Up(c, e), h) && h in e && IsHistory(c, h) && ChildOf(c, h, p)
    requires (forall x | x in e :: x < Size(c)) && j < |c.transitions| && HistoryDefaultOk(c, h, j)
    requires Missed(c, p, c.transitions[j].target, HistoryDefault(c, h, j), m, w)
    ensures
      var t, b := c.transitions[j].target, HistoryDefault(c, h, j);
      OnlyDefaulted(c, e + b, h, p, t, b, h + 1) && NoneAt(c, p, t, e + b, m, w)
  {
    hide PassInv, HistoryDefaultOk, StatesOk, Cover, RepairedBelow, HistoryDefault;
    var t, b := c.transitions[j].target, HistoryDefault(c, h, j);
    assert t <= b by { DefaultNames(c, h, j); }
    forall v | v in e + b && Under(c, v, p)
      ensures v in Cover(c, p, t) || v == h || Descends(c, p, t, v, v)
      ensures !Left(c, p, t, b, v) && (w != m ==> !AtOrUnder(c, v, w)) && (w == m ==> v != m)
    {
      StartsBelow(c, cfg, z, e, h, p, j, m, w, v);
    }
    CoverUnder(c, p, t, m);
    if w != m { RegionUnder(c, p, t, m, w); }
    forall v | v in e + b && Left(c, p, t, b, v) ensures v < h + 1 { CoverUnder(c, p, t, v); }
    forall v | v in e + b && w != m ensures !AtOrUnder(c, v, w) {
      if AtOrUnder(c, v, w) { AtOrUnderTransitive(c, v, w, p); }
    }
  }

  lemma DefaultNames(c: Chart, h: nat, j: nat)
    requires h < Size(c) && j < |c.transitions|
    ensures c.transitions[j].target <= HistoryDefault(c, h, j)
  {
  }

  lemma StartsBelow(c: Chart, cfg: set<nat>, z: set<nat>, e: set<nat>, h: nat, p: nat, j: nat, m: nat, w: nat, v: nat)
    requires StatesOk(c) && PassInv(c, cfg, z, Up(c, e), h) && h in e && IsHistory(c, h) && ChildOf(c, h, p)
    requires (forall x | x in e :: x < Size(c)) && j < |c.transitions| && HistoryDefaultOk(c, h, j)
    requires v in e + HistoryDefault(c, h, j) && Under(c, v, p)
    requires
      var t, b := c.transitions[j].target, HistoryDefault(c, h, j);
      t <= b && Missed(c, p, t, b, m, w)
    ensures
      var t, b := c.transitions[j].target, HistoryDefault(c, h, j);
      && (v in Cover(c, p, t) || v == h || Descends(c, p, t, v, v))
      && !Left(c, p, t, b, v) && (w != m ==> !AtOrUnder(c, v, w)) && (w == m ==> v != m)
  {
    hide PassInv, HistoryDefaultOk, StatesOk, Cover, RepairedBelow, HistoryDefault;
    var t, b := c.transitions[j].target, HistoryDefault(c, h, j);
    DefaultedBelow(c, cfg, z, e, h, p, j, v);
    CoverUnder(c, p, t, m);
    if w != m { RegionUnder(c, p, t, m, w); }
    if IsParallel(c, p) && ChildOf(c, v, p) && Proper(c, v) && v !in Cover(c, p, t) {
      forall u | u in Cover(c, p, t) ensures !Under(c, u, v) {
        if Under(c, u, v) { CoverUpward(c, p, t, u, v); }
      }
      assert v in Defaults(c, v);
      assert OpenBelow(c, p, t, v);
    }
    if w != m && AtOrUnder(c, v, w) {
      if v in Cover(c, p, t) {
        CoverUpward(c, p, t, v, w);
      } else {
        ChildUnder(c, w, m);
        NotBetween(c, v, p, w);
        NotBetween(c, v, p, m);
      }
    }
    if v !in b && v in Cover(c, p, t) {
      NamedOrRegion(c, cfg, z, e, h, p, j, v);
    }
  }

  /** Of the way to the targets, only regions of the parent were there before. */
  lemma NamedOrRegion(c: Chart, cfg: set<nat>, z: set<nat>, e: set<nat>, h: nat, p: nat, j: nat, v: nat)
    requires StatesOk(c) && PassInv(c, cfg, z, Up(c, e), h) && h in e && IsHistory(c, h) && ChildOf(c, h, p)
    requires (forall x | x in e :: x < Size(c)) && j < |c.transitions| && HistoryDefaultOk(c, h, j)
    requires v in e && v in Cover(c, p, c.transitions[j].target)
    ensures Early(c, HistoryDefault(c, h, j), p, v)
  {
    hide PassInv, HistoryDefault;
    UpHolds(c, e);
    OnlyRegions(c, cfg, z, e, h, p);
    assert v in Up(c, e);
    DefaultProper(c, h, p, j, v);
  }

  // ---- Illegal in the end ----

  lemma UnrepairedIllegal(c: Chart, cfg: set<nat>, z: set<nat>, e: set<nat>, a: nat, x: nat)
    requires StatesOk(c) && ZoneOk(c, cfg, z) && IsCompound(c, a) && a in z
    requires CompletesTo(c, a, x) && !ChildOf(c, x, a) && OnlyDefaults(c, e, a, x)
    ensures !Legal(c, NextConfiguration(c, cfg, cfg * z, e))
  {
    var n := NextConfiguration(c, cfg, cfg * z, e);
    var p := Parent(c, x);
    assert ChildOf(c, x, p) && Under(c, p, a);
    UnderInZone(c, cfg, z, p, a);
    if p in n {
      DefaultsInside(c, x, p);
      if p != x { UnderBounds(c, p, x); }
    }
    assert x in n && p !in n;
  }

  lemma SkippedIllegal(c: Chart, cfg: set<nat>, z: set<nat>, e: set<nat>, a: nat, x: nat, k: nat, m: nat, w: nat)
    requires StatesOk(c) && ZoneOk(c, cfg, z) && IsCompound(c, a) && a in z
    requires CompletesTo(c, a, x) && Proper(c, x) && OnlyOnTheWay(c, e, a, x, k) && SkippedRegion(c, a, x, m, w)
    ensures !Legal(c, NextConfiguration(c, cfg, cfg * z, e))
  {
    var n := NextConfiguration(c, cfg, cfg * z, e);
    assert x in n;
    ChildUnder(c, w, m);
    UnderTransitive(c, w, m, a);
    UnderInZone(c, cfg, z, w, a);
    UnderBounds(c, x, m);
    if w in e && Under(c, w, x) { UnderBounds(c, m, x); }
    assert w !in n;
    if Legal(c, n) { AncestorIn(c, n, x, m); }
  }

  lemma StrandedIllegal(c: Chart, cfg: set<nat>, z: set<nat>, e: set<nat>, p: nat, h: nat)
    requires StatesOk(c) && ZoneOk(c, cfg, z) && ChildOf(c, h, p) && IsHistory(c, h) && h in z && p !in z
    requires OnlyThere(c, e, p, h)
    ensures !Legal(c, NextConfiguration(c, cfg, cfg * z, e))
  {
    var n := NextConfiguration(c, cfg, cfg * z, e);
    assert p in cfg && p in n && IsCompound(c, p);
    if HasChildIn(c, p, n) {
      var y: nat :| ChildOf(c, y, p) && Proper(c, y) && y in n;
      ChildUnder(c, y, p);
    }
    assert !HasChildIn(c, p, n);
  }

  /** With a target in and a state above it left out, or a region missed, the next
      configuration is not legal. */
  lemma MissedIllegal(c: Chart, cfg: set<nat>, z: set<nat>, e: set<nat>, p: nat, t: set<nat>, b: set<nat>, m: nat, w: nat)
    requires StatesOk(c) && ZoneOk(c, cfg, z) && p in z && t <= b && (forall x | x in t :: Under(c, x, p) && Proper(c, x))
    requires Missed(c, p, t, b, m, w) && t <= e && NoneAt(c, p, t, e, m, w)
    ensures !Legal(c, NextConfiguration(c, cfg, cfg * z, e))
  {
    hide StatesOk, RepairedBelow;
    var n := NextConfiguration(c, cfg, cfg * z, e);
    var x := LeftAbove(c, p, t, b, m);
    assert x in n;
    UnderInZone(c, cfg, z, m, p);
    if Legal(c, n) {
      AncestorIn(c, n, x, m);
      if w != m {
        RegionUnder(c, p, t, m, w);
        UnderInZone(c, cfg, z, w, p);
      }
    }
  }

  lemma DefaultFatal(c: Chart, cfg: set<nat>, hist: set<nat>, z: set<nat>, e: Entry, i: nat)
    requires Setting(c, cfg, hist, z) && GapInv(c, cfg, z, e.states, i) && i in e.states
    requires IsHistory(c, i) && TakesDefault(c, cfg, hist, i) && GapingDefault(c, i)
    ensures !Legal(c, NextConfiguration(c, cfg, cfg * z, Descend(c, cfg, hist, cfg * z, e, i).states))
  {
    hide PassInv, HistoryReady, Legal, NextConfiguration, Mended, ZoneOk, Resolve, HistoryDefault, Up, Sticks;
    var p := Parent(c, i);
    var j := FirstFrom(c, i, 0);
    assert StateOk(c, i) && ChildOf(c, i, p);
    var t, b := c.transitions[j].target, HistoryDefault(c, i, j);
    var m: nat :| Sticks(c, p, t, b, m);
    var w := MissedBy(c, p, t, b, m);
    ResolvesDefault(c, cfg, hist, cfg * z, e, i);
    DefaultInZone(c, cfg, z, e.states, i, p);
    DefaultNames(c, i, j);
    DefaultStarts(c, cfg, z, e.states, i, p, j, m, w);
    var e' := Resolve(c, cfg, hist, cfg * z, e, i);
    DefaultStays(c, cfg, hist, cfg * z, e', i, p, t, b, i + 1, m, w);
    MissedIllegal(c, cfg, z, Descend(c, cfg, hist, cfg * z, e', i + 1).states, p, t, b, m, w);
  }

  lemma MissedBy(c: Chart, p: nat, t: set<nat>, b: set<nat>, m: nat) returns (w: nat)
    requires Sticks(c, p, t, b, m)
    ensures Missed(c, p, t, b, m, w)
  {
    if w0 :| MissesRegion(c, p, t, m, w0) {
      w := w0;
    } else {
      w := m;
    }
  }

  // ---- The whole pass, exactly ----

  lemma NoGapLeft(c: Chart, cfg: set<nat>, z: set<nat>, e: set<nat>)
    requires GapInv(c, cfg, z, e, Size(c))
    ensures e == Up(c, e)
  {
    hide PassInv, MendedAt, Up;
    UpHolds(c, e);
    forall m | m in Up(c, e) ensures m in e {
      NotMendedLate(c, z, e, m);
    }
  }

  lemma NotMendedLate(c: Chart, z: set<nat>, e: set<nat>, m: nat)
    ensures !MendedAt(c, z, e, Size(c), m)
  {
    forall y: nat, k: nat ensures !Coming(c, e, Size(c), k, y) {
      if Coming(c, e, Size(c), k, y) {
        ComingAfter(c, e, Size(c), k, y);
        UnderBounds(c, y, k);
      }
    }
  }

  lemma GapFatal(c: Chart, cfg: set<nat>, hist: set<nat>, z: set<nat>, e: Entry, i: nat)
    requires Setting(c, cfg, hist, z) && GapInv(c, cfg, z, e.states, i) && i < Size(c) && OpensGapAt(c, cfg, hist, cfg * z, e, i)
    ensures !Legal(c, NextConfiguration(c, cfg, cfg * z, Descend(c, cfg, hist, cfg * z, e, i).states))
  {
    hide PassInv, HistoryReady, Legal, NextConfiguration, Mended, GapStays, ZoneOk, CompletesTo, GapingDefault, Gaping;
    if IsCompound(c, i) {
      CompletionFatal(c, cfg, hist, z, e, i);
    } else {
      DefaultFatal(c, cfg, hist, z, e, i);
    }
  }

  lemma CompletionFatal(c: Chart, cfg: set<nat>, hist: set<nat>, z: set<nat>, e: Entry, i: nat)
    requires Setting(c, cfg, hist, z) && GapInv(c, cfg, z, e.states, i) && i in e.states && IsCompound(c, i)
    requires Completes(c, cfg, cfg * z, e.states, i) && Gaping(c, i)
    ensures !Legal(c, NextConfiguration(c, cfg, cfg * z, Descend(c, cfg, hist, cfg * z, e, i).states))
  {
    hide PassInv, HistoryReady, Legal, NextConfiguration, Mended, GapStays, ZoneOk, CompletesTo;
    CompletesOnlyInZone(c, cfg, z, e.states, i);
    assert StateOk(c, i);
    var x := CompletionListed(c, i);
    OneCompletion(c, i, x);
    var f := Entry(e.states + {x}, e.trans);
    assert Resolve(c, cfg, hist, cfg * z, e, i) == f by { CompletesOnly(c, i, x); }
    GapStaysFatal(c, cfg, hist, z, e.states, f, i, x);
  }

  lemma CompletesOnly(c: Chart, i: nat, x: nat)
    requires i < Size(c) && CompletesTo(c, i, x)
    ensures c.states[i].completion == {x}
  {
  }

  lemma OneCompletion(c: Chart, i: nat, x: nat)
    requires Gaping(c, i) && CompletesTo(c, i, x)
    ensures GapStays(c, i, x)
  {
    var y: nat :| CompletesTo(c, i, y) && GapStays(c, i, y);
    assert y in c.states[i].completion;
  }

  lemma GapStaysFatal(c: Chart, cfg: set<nat>, hist: set<nat>, z: set<nat>, e: set<nat>, f: Entry, i: nat, x: nat)
    requires StatesOk(c) && ZoneOk(c, cfg, z) && IsCompound(c, i) && i in z && CompletesTo(c, i, x) && GapStays(c, i, x)
    requires f.states == e + {x} && forall y | y in e :: !Under(c, y, i)
    ensures !Legal(c, NextConfiguration(c, cfg, cfg * z, Descend(c, cfg, hist, cfg * z, f, i + 1).states))
  {
    hide Legal, NextConfiguration, StatesOk, ZoneOk;
    var d := Descend(c, cfg, hist, cfg * z, f, i + 1).states;
    if !Repairs(c, x) {
      assert x in Defaults(c, x);
      GapUnrepaired(c, cfg, hist, cfg * z, f, i + 1, i, x);
      UnrepairedIllegal(c, cfg, z, d, i, x);
    } else {
      var m, w :| SkippedRegion(c, i, x, m, w);
      GapSkipsRegion(c, cfg, hist, cfg * z, f, i + 1, i, x);
      SkippedIllegal(c, cfg, z, d, i, x, if i + 1 < Size(c) then Size(c) else i + 1, m, w);
    }
  }

  lemma StrandedFatal(c: Chart, cfg: set<nat>, hist: set<nat>, z: set<nat>, e: Entry, i: nat)
    requires Setting(c, cfg, hist, z) && GapInv(c, cfg, z, e.states, i) && StrandedAt(c, hist, z, e.states, i)
    ensures !Legal(c, NextConfiguration(c, cfg, cfg * z, Descend(c, cfg, hist, cfg * z, e, i).states))
  {
    hide PassInv, HistoryReady, Legal, NextConfiguration, Mended, Resolve, ZoneOk;
    var p := Parent(c, i);
    assert ChildOf(c, i, p);
    StrandedAlone(c, cfg, z, e.states, i, p);
    StrandedNothing(c, cfg, hist, z, e, i, p);
    StrandedStays(c, cfg, hist, cfg * z, Resolve(c, cfg, hist, cfg * z, e, i), i + 1, p, i);
    StrandedIllegal(c, cfg, z, Descend(c, cfg, hist, cfg * z, e, i).states, p, i);
  }

  lemma StrandedAlone(c: Chart, cfg: set<nat>, z: set<nat>, e: set<nat>, i: nat, p: nat)
    requires ZoneOk(c, cfg, z) && PassInv(c, cfg, z, Up(c, e), i) && i in e && IsHistory(c, i) && ChildOf(c, i, p)
    requires p !in z && forall x | x in e :: x < Size(c)
    ensures IsCompound(c, p) && p in cfg && i in z && OnlyThere(c, e, p, i)
  {
    hide PassInv, Up;
    UpHolds(c, e);
    HistoryAlone(c, cfg, z, Up(c, e), i, p);
    ZoneEdge(c, cfg, z, p, i);
  }

  lemma StrandedNothing(c: Chart, cfg: set<nat>, hist: set<nat>, z: set<nat>, e: Entry, i: nat, p: nat)
    requires StatesOk(c) && IsHistory(c, i) && ChildOf(c, i, p) && p in cfg && HistoryMask(c, i) * hist == {}
    ensures Resolve(c, cfg, hist, cfg * z, e, i).states == e.states
  {
    assert StateOk(c, i);
  }

  /** Entering history states only below what is being entered leaves the question
      of records where it was. */
  lemma StrandedSame(c: Chart, cfg: set<nat>, hist: set<nat>, z: set<nat>, e: Entry, i: nat)
    requires Setting(c, cfg, hist, z) && GapInv(c, cfg, z, e.states, i) && i < Size(c) && i in e.states
    requires Usable(c, hist, z, e.states) && !StrandedAt(c, hist, z, e.states, i)
    ensures
      var e' := Resolve(c, cfg, hist, cfg * z, e, i).states;
      Usable(c, hist, z, e') && Stranded(c, hist, z, e', i + 1) == Stranded(c, hist, z, e.states, i)
  {
    hide PassInv, Setting, Restorable, Resolve, Mended, HistoryMask, Up;
    var e' := Resolve(c, cfg, hist, cfg * z, e, i).states;
    UpHolds(c, e.states);
    forall h: nat | 0 < h && IsHistory(c, h) && Parent(c, h) !in z ensures h in e.states <==> h in e' {
      HistorySame(c, cfg, hist, z, e, i, h);
    }
    assert forall h: nat :: StrandedAt(c, hist, z, e', h) == StrandedAt(c, hist, z, e.states, h);
  }

  lemma HistorySame(c: Chart, cfg: set<nat>, hist: set<nat>, z: set<nat>, e: Entry, i: nat, h: nat)
    requires Setting(c, cfg, hist, z) && PassInv(c, cfg, z, Up(c, e.states), i) && i < Size(c) && i in e.states
    requires (forall x | x in e.states :: x < Size(c)) && 0 < h && IsHistory(c, h) && Parent(c, h) !in z
    ensures h in e.states <==> h in Resolve(c, cfg, hist, cfg * z, e, i).states
  {
    hide PassInv, Setting, Resolve, Up;
    UpHolds(c, e.states);
    if h in e.states {
      SettingStates(c, cfg, hist, z);
      Keeps(c, cfg, hist, cfg * z, e, i, h);
    } else if h in Resolve(c, cfg, hist, cfg * z, e, i).states {
      NewHistory(c, cfg, hist, z, Up(c, e.states), e, i, h);
    }
  }

  lemma SettingStates(c: Chart, cfg: set<nat>, hist: set<nat>, z: set<nat>)
    requires Setting(c, cfg, hist, z)
    ensures StatesOk(c)
  {
  }

  /** A pass ends in a legal configuration exactly if it completes no gaping compound
      state and enters no history state below a kept state without a record. */
  lemma {:induction false} PassExact(c: Chart, cfg: set<nat>, hist: set<nat>, z: set<nat>, e: Entry, i: nat)
    requires Setting(c, cfg, hist, z) && GapInv(c, cfg, z, e.states, i) && Usable(c, hist, z, e.states) && i <= Size(c)
    ensures
      Legal(c, NextConfiguration(c, cfg, cfg * z, Descend(c, cfg, hist, cfg * z, e, i).states))
      <==> !OpensGap(c, cfg, hist, cfg * z, e, i) && !Stranded(c, hist, z, e.states, i)
    decreases Size(c) - i
  {
    hide GapInv, Setting, Resolve, Usable, Legal, OpensGapAt, NextConfiguration;
    if i == Size(c) {
      PassEnds(c, cfg, hist, z, e);
      assert !Stranded(c, hist, z, e.states, i);
    } else if i !in e.states {
      GapSkips(c, cfg, hist, z, e.states, i);
      PassExact(c, cfg, hist, z, e, i + 1);
      assert !OpensGapAt(c, cfg, hist, cfg * z, e, i) by { NotThere(c, cfg, hist, cfg * z, e, i); }
      assert forall h: nat | StrandedAt(c, hist, z, e.states, h) && i <= h :: i + 1 <= h;
    } else if OpensGapAt(c, cfg, hist, cfg * z, e, i) {
      GapFatal(c, cfg, hist, z, e, i);
    } else if StrandedAt(c, hist, z, e.states, i) {
      StrandedFatal(c, cfg, hist, z, e, i);
    } else {
      GapStep(c, cfg, hist, z, e, i);
      StrandedSame(c, cfg, hist, z, e, i);
      PassExact(c, cfg, hist, z, Resolve(c, cfg, hist, cfg * z, e, i), i + 1);
    }
  }

  lemma NotThere(c: Chart, cfg: set<nat>, hist: set<nat>, exits: set<nat>, e: Entry, i: nat)
    requires i < Size(c) && i !in e.states
    ensures !OpensGapAt(c, cfg, hist, exits, e, i)
  {
  }

  lemma PassEnds(c: Chart, cfg: set<nat>, hist: set<nat>, z: set<nat>, e: Entry)
    requires Setting(c, cfg, hist, z) && GapInv(c, cfg, z, e.states, Size(c))
    ensures Legal(c, NextConfiguration(c, cfg, cfg * z, e.states))
  {
    hide PassInv, Legal, Mended;
    NoGapLeft(c, cfg, z, e.states);
    PassLegal(c, cfg, z, e.states);
  }

  lemma NotGapingDefault(c: Chart, cfg: set<nat>, hist: set<nat>, exits: set<nat>, e: Entry, i: nat)
    requires i < Size(c) && i in e.states && !OpensGapAt(c, cfg, hist, exits, e, i)
    ensures IsHistory(c, i) && TakesDefault(c, cfg, hist, i) ==> !GapingDefault(c, i)
  {
  }

  lemma GapStep(c: Chart, cfg: set<nat>, hist: set<nat>, z: set<nat>, e: Entry, i: nat)
    requires Setting(c, cfg, hist, z) && GapInv(c, cfg, z, e.states, i) && i < Size(c) && i in e.states
    requires !OpensGapAt(c, cfg, hist, cfg * z, e, i)
    requires Usable(c, hist, z, e.states) && !StrandedAt(c, hist, z, e.states, i)
    ensures GapInv(c, cfg, z, Resolve(c, cfg, hist, cfg * z, e, i).states, i + 1)
  {
    hide GapInv, Setting, Resolve, OpensGapAt;
    if IsCompound(c, i) {
      GapStepCompound(c, cfg, hist, z, e, i);
    } else if IsHistory(c, i) && TakesDefault(c, cfg, hist, i) {
      NotGapingDefault(c, cfg, hist, cfg * z, e, i);
      GapStepDefault(c, cfg, hist, z, e, i);
    } else {
      GapStepOther(c, cfg, hist, z, e, i);
    }
  }
}
