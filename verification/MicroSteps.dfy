/** One microstep on configurations, and the proof that it keeps them legal. */
module MicroSteps {
  import opened Charts
  import opened EntrySets
  import opened Transitions

  // ---- The zone of a selection ----

  /** The selected transition `j` leaves and re-enters what lies below `d`. */
  predicate Drives(c: Chart, s: set<nat>, j: nat, d: nat) {
    && j in s && j < |c.transitions| && 0 < c.transitions[j].source < Size(c)
    && c.transitions[j].target != {} && Domain(c, c.transitions[j]) == d
  }

  ghost predicate InZone(c: Chart, s: set<nat>, k: nat) {
    exists j: nat, d: nat :: Drives(c, s, j, d) && Under(c, k, d)
  }

  ghost function Zone(c: Chart, s: set<nat>): set<nat> {
    set k | 0 <= k < Size(c) && InZone(c, s, k)
  }

  /** What the proofs use of a selection in an active configuration. */
  ghost predicate Consistent(c: Chart, cfg: set<nat>, s: set<nat>) {
    && (forall j | j in s :: j < |c.transitions| && c.transitions[j].kind == Normal
          && c.transitions[j].source in cfg && TransitionTableAt(c, j))
    && (forall j: nat, k: nat | j in s && k in s && j != k :: !ConflictAt(c, j, k))
  }

  lemma SelectedConsistent(c: Chart, cfg: set<nat>, m: Stimulus)
    requires TransitionsOk(c)
    ensures Consistent(c, cfg, Select(c, cfg, m).trans)
  {
    SelectSpec(c, cfg, m);
    SelectMaximal(c, cfg, m);
    var s := Select(c, cfg, m).trans;
    forall j | j in s ensures TransitionTableAt(c, j) { }
  }

  lemma DriverDomain(c: Chart, cfg: set<nat>, s: set<nat>, j: nat, d: nat)
    requires Legal(c, cfg) && Consistent(c, cfg, s) && Drives(c, s, j, d)
    ensures IsCompound(c, d) && d in cfg
    ensures forall x | x in c.transitions[j].target :: Under(c, x, d)
    ensures c.transitions[j].exitSet == ProperBelow(c, d) != {}
  {
    var t := c.transitions[j];
    assert TransitionTableAt(c, j);
    DomainSpec(c, t);
    if t.source != d { AncestorIn(c, cfg, t.source, d); }
    var w: nat :| ChildOf(c, w, d) && Proper(c, w) && w in cfg;
    ChildUnder(c, w, d);
    assert w in ProperBelow(c, d);
  }

  /** Domains of different selected transitions lie in disjoint subtrees. */
  lemma DriversApart(c: Chart, cfg: set<nat>, s: set<nat>, j: nat, d: nat, k: nat, f: nat, x: nat)
    requires Legal(c, cfg) && Consistent(c, cfg, s) && Drives(c, s, j, d) && Drives(c, s, k, f)
    requires Under(c, x, d) && Under(c, x, f)
    ensures j == k
  {
    if j != k {
      DriverDomain(c, cfg, s, j, d);
      DriverDomain(c, cfg, s, k, f);
      Comparable(c, x, d, f);
      if AtOrUnder(c, d, f) {
        NestedExits(c, j, d, k, f);
      } else {
        NestedExits(c, k, f, j, d);
        ConflictSymmetric(c, j, k);
      }
    }
  }

  lemma NestedExits(c: Chart, j: nat, d: nat, k: nat, f: nat)
    requires j < |c.transitions| && k < |c.transitions| && j != k
    requires 0 < c.transitions[j].source < Size(c) && 0 < c.transitions[k].source < Size(c)
    requires ExitSetOf(c, c.transitions[j]) == ProperBelow(c, d) != {}
    requires ExitSetOf(c, c.transitions[k]) == ProperBelow(c, f)
    requires AtOrUnder(c, d, f)
    ensures ConflictAt(c, j, k)
  {
    var y :| y in ProperBelow(c, d);
    AtOrUnderTransitive(c, y, d, f);
    assert y in ExitSetOf(c, c.transitions[j]) * ExitSetOf(c, c.transitions[k]);
  }

  lemma ZoneIsOk(c: Chart, cfg: set<nat>, s: set<nat>)
    requires Legal(c, cfg) && Consistent(c, cfg, s)
    ensures ZoneOk(c, cfg, Zone(c, s))
  {
    var z := Zone(c, s);
    forall k, x: nat | ChildOf(c, x, k) && k in z ensures x in z {
      var j: nat, d: nat :| Drives(c, s, j, d) && Under(c, k, d);
      ChildUnder(c, x, k);
      UnderTransitive(c, x, k, d);
    }
    forall k: nat, x, y: nat | ChildOf(c, x, k) && ChildOf(c, y, k) && x in z ensures y in z {
      var j: nat, d: nat :| Drives(c, s, j, d) && Under(c, x, d);
      UnderSibling(c, y, x, k, d);
    }
    forall k: nat, x | ChildOf(c, x, k) && x in z && k !in z ensures IsCompound(c, k) && k in cfg {
      var j: nat, d: nat :| Drives(c, s, j, d) && Under(c, x, d);
      DriverDomain(c, cfg, s, j, d);
      assert k == d;
    }
  }

  /** The table's exit sets describe the zone. */
  lemma ExitsAreZone(c: Chart, cfg: set<nat>, s: set<nat>, exits: set<nat>)
    requires Legal(c, cfg) && Consistent(c, cfg, s)
    requires exits == set k, x | k in s && x in c.transitions[k].exitSet :: x
    ensures exits * cfg == cfg * Zone(c, s)
  {
    forall x | x in cfg ensures x in exits <==> x in Zone(c, s) {
      if x in exits {
        var k :| k in s && x in c.transitions[k].exitSet;
        ExitInZone(c, cfg, s, k, x);
      } else if x in Zone(c, s) {
        ZoneInExits(c, cfg, s, x);
      }
    }
  }

  lemma ExitInZone(c: Chart, cfg: set<nat>, s: set<nat>, k: nat, x: nat)
    requires Consistent(c, cfg, s) && k in s && x in c.transitions[k].exitSet
    ensures x in Zone(c, s)
  {
    assert TransitionTableAt(c, k);
    assert Drives(c, s, k, Domain(c, c.transitions[k]));
  }

  lemma ZoneInExits(c: Chart, cfg: set<nat>, s: set<nat>, x: nat)
    requires Legal(c, cfg) && Consistent(c, cfg, s) && x in Zone(c, s) && x in cfg
    ensures exists k :: k in s && x in c.transitions[k].exitSet
  {
    var j: nat, d: nat :| Drives(c, s, j, d) && Under(c, x, d);
    DriverDomain(c, cfg, s, j, d);
    assert x in c.transitions[j].exitSet;
  }

  // ---- The entry set before the pass ----

  ghost predicate TargetOf(c: Chart, s: set<nat>, j: nat, x: nat) {
    j in s && j < |c.transitions| && x in c.transitions[j].target
  }

  /** `x` is entered on the way to target `y` of transition `j`. */
  ghost predicate OnTheWay(c: Chart, s: set<nat>, x: nat, j: nat, y: nat) {
    TargetOf(c, s, j, y) && AtOrUnder(c, y, x)
  }

  ghost predicate Seeds(c: Chart, s: set<nat>, e: set<nat>) {
    forall x: nat :: x in e <==> exists j, y :: OnTheWay(c, s, x, j, y)
  }

  lemma SeedsFromTargets(c: Chart, cfg: set<nat>, s: set<nat>, t: set<nat>)
    requires StatesOk(c) && Consistent(c, cfg, s)
    requires t == set k, x | k in s && x in c.transitions[k].target :: x
    ensures Seeds(c, s, WithAncestors(c, t))
  {
    var e := WithAncestors(c, t);
    forall x: nat ensures x in e <==> exists j, y :: OnTheWay(c, s, x, j, y) {
      if x in e {
        SeedTarget(c, cfg, s, t, x);
      } else if j, y :| OnTheWay(c, s, x, j, y) {
        TargetSeed(c, s, t, x, j, y);
      }
    }
  }

  lemma SeedTarget(c: Chart, cfg: set<nat>, s: set<nat>, t: set<nat>, x: nat)
    requires TablesOk(c) && Consistent(c, cfg, s) && x in WithAncestors(c, t)
    requires t == set k, x | k in s && x in c.transitions[k].target :: x
    ensures exists j, y :: OnTheWay(c, s, x, j, y)
  {
    if x in t {
      var j :| j in s && x in c.transitions[j].target;
      assert TransitionTableAt(c, j);
      assert OnTheWay(c, s, x, j, x);
    } else {
      var y :| y in t && y < Size(c) && x in c.states[y].ancestors;
      assert TableAt(c, y);
      var j :| j in s && y in c.transitions[j].target;
      assert OnTheWay(c, s, x, j, y);
    }
  }

  lemma TargetSeed(c: Chart, s: set<nat>, t: set<nat>, x: nat, j: nat, y: nat)
    requires TablesOk(c) && OnTheWay(c, s, x, j, y) && y in t
    ensures x in WithAncestors(c, t)
  {
    assert TableAt(c, y);
    if x != y {
      UnderBounds(c, y, x);
      assert x in c.states[y].ancestors;
    }
  }

  lemma SeedsShape(c: Chart, cfg: set<nat>, s: set<nat>, e: set<nat>)
    requires Legal(c, cfg) && Consistent(c, cfg, s) && Seeds(c, s, e)
    ensures Shape(c, cfg, Zone(c, s), e, 0)
  {
    var z := Zone(c, s);
    forall x | x in e ensures x < Size(c) && (x in z || (x in cfg && Proper(c, x))) {
      var j, y :| OnTheWay(c, s, x, j, y);
      SeedPlace(c, cfg, s, x, j, y);
    }
    forall k: nat, x | ChildOf(c, x, k) && x in e ensures k in e {
      var j, y :| OnTheWay(c, s, x, j, y);
      ChildUnder(c, x, k);
      AtOrUnderTransitive(c, y, x, k);
      assert OnTheWay(c, s, k, j, y);
    }
    forall x | x in e && IsHistory(c, x) ensures x in z {
      var j, y :| OnTheWay(c, s, x, j, y);
      SeedHistory(c, cfg, s, x, j, y);
    }
    forall x | x in e ensures c.states[x].kind != Initial {
      var j, y :| OnTheWay(c, s, x, j, y);
      assert TransitionTableAt(c, j);
      if x != y { UnderBounds(c, y, x); }
    }
    forall k: nat, x | ChildOf(c, x, k) && x in z && k !in z ensures HasLiveChild(c, e, k, 0) {
      var j: nat, d: nat :| Drives(c, s, j, d) && Under(c, x, d);
      assert k == d;
      SeedChild(c, cfg, s, e, j, d);
    }
  }

  lemma SeedPlace(c: Chart, cfg: set<nat>, s: set<nat>, x: nat, j: nat, y: nat)
    requires Legal(c, cfg) && Consistent(c, cfg, s) && OnTheWay(c, s, x, j, y)
    ensures x < Size(c) && (x in Zone(c, s) || x in cfg)
  {
    var d := Domain(c, c.transitions[j]);
    assert Drives(c, s, j, d);
    DriverDomain(c, cfg, s, j, d);
    if x != y { UnderBounds(c, y, x); }
    Comparable(c, y, x, d);
    if Under(c, d, x) { AncestorIn(c, cfg, d, x); }
  }

  /** A history state on the way is itself the target. */
  lemma SeedHistory(c: Chart, cfg: set<nat>, s: set<nat>, x: nat, j: nat, y: nat)
    requires Legal(c, cfg) && Consistent(c, cfg, s) && OnTheWay(c, s, x, j, y) && IsHistory(c, x)
    ensures x == y && Drives(c, s, j, Domain(c, c.transitions[j]))
    ensures Under(c, x, Domain(c, c.transitions[j])) && x in Zone(c, s)
  {
    var d := Domain(c, c.transitions[j]);
    assert Drives(c, s, j, d);
    DriverDomain(c, cfg, s, j, d);
    if x != y { UnderBounds(c, y, x); }
  }

  /** A history state is entered below a kept parent exactly by the transitions
      that lead to it from inside. */
  lemma InsideSeed(c: Chart, cfg: set<nat>, s: set<nat>, h: nat, j: nat, y: nat)
    requires Legal(c, cfg) && Consistent(c, cfg, s) && OnTheWay(c, s, h, j, y) && IsHistory(c, h) && 0 < h
    ensures h in c.transitions[j].target
    ensures Parent(c, h) !in Zone(c, s) <==> FromInside(c, c.transitions[j], h)
  {
    SeedHistory(c, cfg, s, h, j, y);
    var d := Domain(c, c.transitions[j]);
    var p := Parent(c, h);
    assert ChildOf(c, h, p);
    if p == d {
      if p in Zone(c, s) {
        var k: nat, f: nat :| Drives(c, s, k, f) && Under(c, p, f);
        UnderTransitive(c, h, d, f);
        DriversApart(c, cfg, s, j, d, k, f, h);
        UnderBounds(c, p, f);
      }
    } else {
      assert Under(c, p, d);
    }
  }

  lemma SeedChild(c: Chart, cfg: set<nat>, s: set<nat>, e: set<nat>, j: nat, d: nat)
    requires Legal(c, cfg) && Consistent(c, cfg, s) && Seeds(c, s, e) && Drives(c, s, j, d)
    ensures HasLiveChild(c, e, d, 0)
  {
    DriverDomain(c, cfg, s, j, d);
    var y :| y in c.transitions[j].target;
    var w := Toward(c, d, y);
    assert OnTheWay(c, s, w, j, y);
    assert Live(c, e, w, 0);
  }

  lemma SeedsApart(c: Chart, cfg: set<nat>, s: set<nat>, e: set<nat>)
    requires Legal(c, cfg) && Consistent(c, cfg, s) && Seeds(c, s, e)
    ensures Apart(c, e, 0)
  {
    forall k: nat, x: nat, y: nat |
      ChildOf(c, x, k) && ChildOf(c, y, k) && x != y && Live(c, e, x, 0) && Live(c, e, y, 0)
      ensures IsParallel(c, k)
    {
      var j, tx :| OnTheWay(c, s, x, j, tx);
      var l, ty :| OnTheWay(c, s, y, l, ty);
      SeedSiblings(c, cfg, s, k, x, j, tx, y, l, ty);
    }
    forall k: nat, h, y | ChildOf(c, h, k) && h in e && IsHistory(c, h) && y in e && Under(c, y, k)
      ensures y == h
    {
      var j, th :| OnTheWay(c, s, h, j, th);
      var l, ty :| OnTheWay(c, s, y, l, ty);
      SeedBesideHistory(c, cfg, s, k, h, j, th, y, l, ty);
    }
  }

  lemma SeedSiblings(c: Chart, cfg: set<nat>, s: set<nat>, k: nat, x: nat, j: nat, tx: nat, y: nat, l: nat, ty: nat)
    requires Legal(c, cfg) && Consistent(c, cfg, s)
    requires ChildOf(c, x, k) && ChildOf(c, y, k) && x != y && OnTheWay(c, s, x, j, tx) && OnTheWay(c, s, y, l, ty)
    ensures IsParallel(c, k)
  {
    assert TransitionTableAt(c, j);
    if j == l {
      assert Reaches(c, c.transitions[j].target, x) && Reaches(c, c.transitions[j].target, y);
    } else {
      SeedActive(c, cfg, s, k, x, j, tx, y, l, ty);
      SeedActive(c, cfg, s, k, y, l, ty, x, j, tx);
    }
  }

  /** Where two transitions' targets part ways, both ways are active already. */
  lemma SeedActive(c: Chart, cfg: set<nat>, s: set<nat>, k: nat, x: nat, j: nat, tx: nat, y: nat, l: nat, ty: nat)
    requires Legal(c, cfg) && Consistent(c, cfg, s) && j != l
    requires ChildOf(c, x, k) && ChildOf(c, y, k) && x != y && OnTheWay(c, s, x, j, tx) && OnTheWay(c, s, y, l, ty)
    ensures x in cfg
  {
    var d, f := Domain(c, c.transitions[j]), Domain(c, c.transitions[l]);
    assert Drives(c, s, j, d) && Drives(c, s, l, f);
    DriverDomain(c, cfg, s, j, d);
    DriverDomain(c, cfg, s, l, f);
    Comparable(c, tx, x, d);
    if Under(c, x, d) {
      UnderSibling(c, y, x, k, d);
      AtOrUnderTransitive(c, ty, y, d);
      DriversApart(c, cfg, s, j, d, l, f, ty);
    } else if x != d {
      AncestorIn(c, cfg, d, x);
    }
  }

  lemma SeedBesideHistory(c: Chart, cfg: set<nat>, s: set<nat>, k: nat, h: nat, j: nat, th: nat, y: nat, l: nat, ty: nat)
    requires Legal(c, cfg) && Consistent(c, cfg, s)
    requires ChildOf(c, h, k) && IsHistory(c, h) && Under(c, y, k)
    requires OnTheWay(c, s, h, j, th) && OnTheWay(c, s, y, l, ty)
    ensures y == h
  {
    SeedHistory(c, cfg, s, h, j, th);
    assert TransitionTableAt(c, j);
    if j == l {
      var t := c.transitions[j].target;
      assert Reaches(c, t, h) && Reaches(c, t, y);
      TargetAlone(c, t, k, h, y);
    } else {
      var d, f := Domain(c, c.transitions[j]), Domain(c, c.transitions[l]);
      assert Drives(c, s, j, d) && Drives(c, s, l, f);
      DriverDomain(c, cfg, s, l, f);
      AtOrUnderTransitive(c, ty, y, k);
      if k != d { UnderTransitive(c, ty, k, d); }
      DriversApart(c, cfg, s, j, d, l, f, ty);
    }
  }

  lemma SeedsInv(c: Chart, cfg: set<nat>, s: set<nat>, t: set<nat>)
    requires StatesOk(c) && Legal(c, cfg) && Consistent(c, cfg, s)
    requires t == set k, x | k in s && x in c.transitions[k].target :: x
    ensures PassInv(c, cfg, Zone(c, s), WithAncestors(c, t), 0)
  {
    SeedsFromTargets(c, cfg, s, t);
    SeedsShape(c, cfg, s, WithAncestors(c, t));
    SeedsApart(c, cfg, s, WithAncestors(c, t));
  }

  // ---- Remembering history ----

  function Remember(c: Chart, cfg: set<nat>, exits: set<nat>, hist: set<nat>, i: nat): set<nat>
    decreases Size(c) - i
  {
    if i >= Size(c) then hist
    else
      var s := c.states[i];
      Remember(c, cfg, exits,
               if IsHistoryKind(s.kind) && s.parent in exits then hist - s.completion + s.completion * cfg else hist, i + 1)
  }

  /** A history state whose parent is left holds what was active under its mask. */
  lemma {:induction false} RememberRecords(c: Chart, cfg: set<nat>, exits: set<nat>, hist: set<nat>, i: nat, h: nat)
    requires StatesOk(c) && h < Size(c) && IsHistory(c, h) && c.states[h].parent in exits
    requires i <= h || HistoryMask(c, h) * hist == HistoryMask(c, h) * cfg
    ensures HistoryMask(c, h) * Remember(c, cfg, exits, hist, i) == HistoryMask(c, h) * cfg
    decreases Size(c) - i
  {
    if i < Size(c) {
      var s := c.states[i];
      var hist' := if IsHistoryKind(s.kind) && s.parent in exits then hist - s.completion + s.completion * cfg else hist;
      if i == h { assert StateOk(c, h); }
      RememberRecords(c, cfg, exits, hist', i + 1, h);
    }
  }

  lemma UpdateKeeps(m: set<nat>, g: set<nat>, hist: set<nat>, cfg: set<nat>)
    requires m * cfg == {} && (g * m == {} || m <= g)
    ensures m * (hist - g + g * cfg) == m * hist || m * (hist - g + g * cfg) == {}
  {
    assert forall x | x in m :: x !in m * cfg;
    if g * m == {} {
      assert forall x | x in m :: x !in g * m;
      assert m * (hist - g + g * cfg) == m * hist;
    } else {
      assert m * (hist - g + g * cfg) == {};
    }
  }

  /** While a history state's parent is inactive its record stays as it is, or is
      dropped as a whole. */
  lemma {:induction false} RememberKeeps(c: Chart, cfg: set<nat>, exits: set<nat>, hist: set<nat>, i: nat, h: nat)
    requires StatesOk(c) && Legal(c, cfg) && exits <= cfg
    requires h < Size(c) && IsHistory(c, h) && c.states[h].parent !in cfg
    ensures
      var m := HistoryMask(c, h);
      var hist' := Remember(c, cfg, exits, hist, i);
      m * hist' == m * hist || m * hist' == {}
    decreases Size(c) - i
  {
    hide Legal, HistoryMask;
    if i < Size(c) {
      var s := c.states[i];
      if IsHistoryKind(s.kind) && s.parent in exits {
        assert StateOk(c, i) && StateOk(c, h);
        MasksNest(c, cfg, i, h);
        UpdateKeeps(HistoryMask(c, h), s.completion, hist, cfg);
        RememberKeeps(c, cfg, exits, hist - s.completion + s.completion * cfg, i + 1, h);
      } else {
        RememberKeeps(c, cfg, exits, hist, i + 1, h);
      }
    }
  }

  /** The mask of a history state with an active parent contains or avoids that of
      one with an inactive parent. */
  lemma MasksNest(c: Chart, cfg: set<nat>, g: nat, h: nat)
    requires Legal(c, cfg) && 0 < g < Size(c) && 0 < h < Size(c) && IsHistory(c, g) && IsHistory(c, h)
    requires c.states[g].parent in cfg && c.states[h].parent !in cfg
    ensures HistoryMask(c, g) * HistoryMask(c, h) == {} || HistoryMask(c, h) <= HistoryMask(c, g)
    ensures HistoryMask(c, h) * cfg == {}
  {
    var p, q := c.states[g].parent, c.states[h].parent;
    assert p == Parent(c, g) && q == Parent(c, h);
    assert forall x: nat | ChildOf(c, x, p) :: Under(c, x, p);
    assert forall x: nat | ChildOf(c, x, q) :: Under(c, x, q);
    forall x | x in HistoryMask(c, h) ensures x !in cfg {
      if x in cfg { AncestorIn(c, cfg, x, q); }
    }
    if x :| x in HistoryMask(c, g) && x in HistoryMask(c, h) {
      MaskAbove(c, cfg, g, h, p, q, x);
      forall y | y in HistoryMask(c, h) ensures y in HistoryMask(c, g) {
        UnderTransitive(c, y, q, p);
      }
    }
  }

  lemma MaskAbove(c: Chart, cfg: set<nat>, g: nat, h: nat, p: nat, q: nat, x: nat)
    requires Legal(c, cfg) && ChildOf(c, g, p) && ChildOf(c, h, q) && p in cfg && q !in cfg
    requires x in HistoryMask(c, g) && x in HistoryMask(c, h)
    requires Under(c, x, p) && Under(c, x, q)
    ensures Under(c, q, p) && c.states[g].kind == HistoryDeep
  {
    Comparable(c, x, p, q);
    if Under(c, p, q) { AncestorIn(c, cfg, p, q); }
  }

  /** The part of a legal configuration below one of its states. */
  lemma ActiveBelow(c: Chart, cfg: set<nat>, h: nat, p: nat)
    requires Legal(c, cfg) && p in cfg && ChildOf(c, h, p) && IsHistory(c, h)
    ensures LegalBelow(c, p, HistoryMask(c, h) * cfg, c.states[h].kind == HistoryDeep)
  {
    var deep := c.states[h].kind == HistoryDeep;
    var r := HistoryMask(c, h) * cfg;
    forall x: nat | ChildOf(c, x, p) && x in cfg ensures x in r { ChildUnder(c, x, p); }
    if IsCompound(c, p) {
      var x: nat :| ChildOf(c, x, p) && Proper(c, x) && x in cfg;
      assert x in r;
    }
    if deep {
      ActiveBelowDeep(c, cfg, h, p);
    }
  }

  lemma ActiveBelowDeep(c: Chart, cfg: set<nat>, h: nat, p: nat)
    requires Legal(c, cfg) && p in cfg && ChildOf(c, h, p) && c.states[h].kind == HistoryDeep
    ensures CompoundsFilled(c, HistoryMask(c, h) * cfg) && AllRegionsIn(c, HistoryMask(c, h) * cfg)
  {
    var r := HistoryMask(c, h) * cfg;
    forall k, x: nat | ChildOf(c, x, k) && k in r && x in cfg ensures x in r {
      ChildUnder(c, x, k);
      UnderTransitive(c, x, k, p);
    }
    forall k | k in r && IsCompound(c, k) ensures HasChildIn(c, k, r) {
      var x: nat :| ChildOf(c, x, k) && Proper(c, x) && x in cfg;
      assert x in r;
    }
  }

  /** After remembering, every history state whose parent is or becomes inactive
      would restore something legal, or nothing. */
  lemma RememberLegal(c: Chart, cfg: set<nat>, hist: set<nat>, exits: set<nat>)
    requires StatesOk(c) && Legal(c, cfg) && HistoryLegal(c, cfg, hist) && exits <= cfg
    ensures forall h: nat, p: nat | ChildOf(c, h, p) && IsHistory(c, h) && (p in exits || p !in cfg) ::
      var r := HistoryMask(c, h) * Remember(c, cfg, exits, hist, 0);
      (r == {} && p !in exits) || LegalBelow(c, p, r, c.states[h].kind == HistoryDeep)
  {
    forall h: nat, p: nat | ChildOf(c, h, p) && IsHistory(c, h) && (p in exits || p !in cfg)
      ensures
        var r := HistoryMask(c, h) * Remember(c, cfg, exits, hist, 0);
        (r == {} && p !in exits) || LegalBelow(c, p, r, c.states[h].kind == HistoryDeep)
    {
      if p in exits {
        RememberRecords(c, cfg, exits, hist, 0, h);
        ActiveBelow(c, cfg, h, p);
      } else {
        RememberKeeps(c, cfg, exits, hist, 0, h);
      }
    }
  }

  /** History states of different parents cover different states. */
  ghost predicate MasksApart(c: Chart) {
    forall g: nat, h: nat | g < Size(c) && h < Size(c) && IsHistory(c, g) && IsHistory(c, h) && c.states[g].parent != c.states[h].parent ::
      HistoryMask(c, g) * HistoryMask(c, h) == {}
  }

  lemma UpdateMisses(m: set<nat>, g: set<nat>, hist: set<nat>, cfg: set<nat>)
    requires g * m == {}
    ensures m * (hist - g + g * cfg) == m * hist
  {
    assert forall x | x in m :: x !in g * m;
  }

  /** With masks apart a record changes only when its own parent is left. */
  lemma {:induction false} RememberOwn(c: Chart, cfg: set<nat>, exits: set<nat>, hist: set<nat>, i: nat, h: nat)
    requires StatesOk(c) && MasksApart(c) && h < Size(c) && IsHistory(c, h) && c.states[h].parent !in exits
    ensures HistoryMask(c, h) * Remember(c, cfg, exits, hist, i) == HistoryMask(c, h) * hist
    decreases Size(c) - i
  {
    if i < Size(c) {
      var s := c.states[i];
      assert StateOk(c, i);
      var hist' := if IsHistoryKind(s.kind) && s.parent in exits then hist - s.completion + s.completion * cfg else hist;
      assert HistoryMask(c, h) * hist' == HistoryMask(c, h) * hist by {
        if IsHistoryKind(s.kind) && s.parent in exits {
          assert IsHistory(c, i) && HistoryOk(c, i);
          assert HistoryMask(c, i) * HistoryMask(c, h) == {};
          UpdateMisses(HistoryMask(c, h), s.completion, hist, cfg);
        }
      }
      RememberOwn(c, cfg, exits, hist', i + 1, h);
    }
  }

  /** What every history state would bring back, should it be entered. */
  ghost predicate RecordsUsable(c: Chart, hist: set<nat>) {
    forall h: nat | 0 < h && IsHistory(c, h) :: HistoryMask(c, h) * hist == {} || Restorable(c, hist, h)
  }

  lemma RememberUsable(c: Chart, cfg: set<nat>, exits: set<nat>, hist: set<nat>)
    requires StatesOk(c) && MasksApart(c) && Legal(c, cfg) && exits <= cfg && RecordsUsable(c, hist)
    ensures RecordsUsable(c, Remember(c, cfg, exits, hist, 0))
  {
    hide Legal, HistoryMask, LegalBelow, StatesOk;
    forall h: nat | 0 < h && IsHistory(c, h)
      ensures HistoryMask(c, h) * Remember(c, cfg, exits, hist, 0) == {} || Restorable(c, Remember(c, cfg, exits, hist, 0), h)
    {
      assert ChildOf(c, h, Parent(c, h));
      if Parent(c, h) in exits {
        RememberRecords(c, cfg, exits, hist, 0, h);
        ActiveBelow(c, cfg, h, Parent(c, h));
      } else {
        RememberOwn(c, cfg, exits, hist, 0, h);
      }
    }
  }
}
