/** Which parallel states a final state completes. */
module DoneEvents {
  import opened Charts
  import opened EntrySets
  import opened Transitions
  import opened MicroSteps
  import opened Stepping

  // ---- isInFinalState of Appendix D, and what the tables can see of it ----

  ghost predicate FinalChildIn(c: Chart, cfg: set<nat>, s: nat) {
    exists f: nat :: ChildOf(c, f, s) && f in cfg && c.states[f].kind == Final
  }

  /** isInFinalState of Appendix D of the SCXML Recommendation. */
  ghost predicate InFinal(c: Chart, cfg: set<nat>, s: nat)
    requires s < Size(c)
    decreases Size(c) - s
  {
    match c.states[s].kind
    case Compound => FinalChildIn(c, cfg, s)
    case Parallel => forall x: nat | ChildOf(c, x, s) && Proper(c, x) :: InFinal(c, cfg, x)
    case _ => false
  }

  ghost predicate HasChild(c: Chart, s: nat) {
    exists x: nat :: ChildOf(c, x, s)
  }

  /** Parallel states reached from `s` through parallel states only have children,
      and none of them is a history state. */
  ghost predicate Plain(c: Chart, s: nat)
    requires s < Size(c)
    decreases Size(c) - s
  {
    IsParallel(c, s) ==> HasChild(c, s) && forall x: nat | ChildOf(c, x, s) :: Proper(c, x) && Plain(c, x)
  }

  /** The same with every child of a parallel state counted, pseudo-states too. */
  ghost predicate Detects(c: Chart, cfg: set<nat>, s: nat)
    requires s < Size(c)
    decreases Size(c) - s
  {
    match c.states[s].kind
    case Compound => FinalChildIn(c, cfg, s)
    case Parallel => HasChild(c, s) && forall x: nat | ChildOf(c, x, s) :: Detects(c, cfg, x)
    case _ => false
  }

  lemma {:induction false} DetectsExactly(c: Chart, cfg: set<nat>, s: nat)
    requires s < Size(c)
    ensures Detects(c, cfg, s) <==> InFinal(c, cfg, s) && Plain(c, s)
    decreases Size(c) - s
  {
    if IsParallel(c, s) {
      forall x: nat | ChildOf(c, x, s)
        ensures Detects(c, cfg, x) <==> InFinal(c, cfg, x) && Plain(c, x)
      {
        DetectsExactly(c, cfg, x);
      }
    }
  }

  // ---- Configurations on the way in ----

  ghost predicate FinalsOk(c: Chart) {
    forall k: nat, x: nat | ChildOf(c, x, k) && c.states[x].kind == Final :: IsCompound(c, k)
  }

  /** Part of a legal configuration, closed upward. */
  ghost predicate Growing(c: Chart, cfg: set<nat>) {
    (forall x | x in cfg :: x < Size(c)) && ParentsIn(c, cfg) && OneChildEach(c, cfg)
  }

  function Upto(cfg: set<nat>, k: nat): set<nat> {
    set x | x in cfg && x < k
  }

  lemma {:induction false} DetectsMonotone(c: Chart, a: set<nat>, b: set<nat>, s: nat)
    requires s < Size(c) && a <= b && Detects(c, a, s)
    ensures Detects(c, b, s)
    decreases Size(c) - s
  {
    if IsParallel(c, s) {
      forall x: nat | ChildOf(c, x, s) ensures Detects(c, b, x) { DetectsMonotone(c, a, b, x); }
    } else {
      var f: nat :| ChildOf(c, f, s) && f in a && c.states[f].kind == Final;
      assert f in b;
    }
  }

  /** An active non-final state below a finished one is itself finished. */
  lemma {:induction false} DetectsDown(c: Chart, cfg: set<nat>, a: set<nat>, s: nat, x: nat)
    requires Growing(c, cfg) && a <= cfg && s < Size(c) && Detects(c, a, s)
    requires AtOrUnder(c, x, s) && x in cfg && c.states[x].kind in {Compound, Parallel}
    ensures Detects(c, a, x)
    decreases x
  {
    if x != s {
      var m := Parent(c, x);
      assert ChildOf(c, x, m);
      DetectsDown(c, cfg, a, s, m);
      if IsCompound(c, m) {
        var f: nat :| ChildOf(c, f, m) && f in a && c.states[f].kind == Final;
      }
    }
  }

  /** A finished state has an active final state below it. */
  lemma {:induction false} DetectsWitness(c: Chart, a: set<nat>, s: nat) returns (f: nat)
    requires s < Size(c) && Detects(c, a, s)
    ensures f in a && f < Size(c) && c.states[f].kind == Final && Under(c, f, s)
    decreases Size(c) - s
  {
    if IsParallel(c, s) {
      var x: nat :| ChildOf(c, x, s);
      f := DetectsWitness(c, a, x);
      ChildUnder(c, x, s);
      UnderTransitive(c, f, x, s);
    } else {
      f :| ChildOf(c, f, s) && f in a && c.states[f].kind == Final;
      ChildUnder(c, f, s);
    }
  }

  /** One more final state finishes only states above it. */
  lemma {:induction false} NewlyAbove(c: Chart, a: set<nat>, k: nat, s: nat)
    requires s < Size(c) && k < Size(c) && Detects(c, a + {k}, s) && !Detects(c, a, s)
    ensures 0 < k && c.states[k].kind == Final
    ensures s == Parent(c, k) || (IsParallel(c, s) && Under(c, Parent(c, k), s))
    ensures Under(c, k, s)
    decreases Size(c) - s
  {
    if IsParallel(c, s) {
      var x: nat :| ChildOf(c, x, s) && !Detects(c, a, x);
      NewlyAbove(c, a, k, x);
      ChildUnder(c, x, s);
      UnderTransitive(c, k, x, s);
      AtOrUnderTransitive(c, Parent(c, k), x, s);
    } else {
      var f: nat :| ChildOf(c, f, s) && f in a + {k} && c.states[f].kind == Final;
      assert f !in a;
    }
  }

  // ---- What the table computation leaves ----

  ghost predicate Covered(c: Chart, a: set<nat>, q: nat, x: nat) {
    exists s: nat :: Under(c, s, q) && AtOrUnder(c, x, s) && Detects(c, a, s)
  }

  /** The states below `q` outside the finished parts, and outside `r`'s subtree. */
  ghost function Rest(c: Chart, a: set<nat>, q: nat, r: nat): set<nat> {
    set x | 0 <= x < Size(c) && Under(c, x, q) && !Covered(c, a, q, x) && !AtOrUnder(c, x, r)
  }

  ghost function Uncovered(c: Chart, a: set<nat>, q: nat): set<nat> {
    set x | 0 <= x < Size(c) && Under(c, x, q) && !Covered(c, a, q, x)
  }

  /** The final state `k` is being counted below the parallel state `q`. */
  ghost predicate Counting(c: Chart, cfg: set<nat>, q: nat, k: nat) {
    && TablesOk(c) && FinalsOk(c) && Growing(c, cfg)
    && IsParallel(c, q)
    && k in cfg && 0 < k < Size(c) && c.states[k].kind == Final && Under(c, k, q)
  }

  lemma ParentOfFinal(c: Chart, cfg: set<nat>, q: nat, k: nat)
    requires Counting(c, cfg, q, k)
    ensures IsCompound(c, Parent(c, k)) && Under(c, Parent(c, k), q) && Parent(c, k) in cfg
  {
    assert ChildOf(c, k, Parent(c, k));
  }

  /** Nothing at or below the parent of a newly counted final state was covered. */
  lemma Intact(c: Chart, cfg: set<nat>, q: nat, k: nat, x: nat)
    requires Counting(c, cfg, q, k) && AtOrUnder(c, x, Parent(c, k))
    ensures !Covered(c, Upto(cfg, k), q, x)
  {
    var p := Parent(c, k);
    var a := Upto(cfg, k);
    ParentOfFinal(c, cfg, q, k);
    assert ChildOf(c, k, p);
    if Covered(c, a, q, x) {
      var s: nat :| Under(c, s, q) && AtOrUnder(c, x, s) && Detects(c, a, s);
      Comparable(c, x, s, p);
      if AtOrUnder(c, p, s) {
        DetectsDown(c, cfg, a, s, p);
      } else {
        var f := DetectsWitness(c, a, s);
        UnderTransitive(c, f, s, p);
        var w := TowardIn(c, cfg, f, p);
        assert w == k;
        if f != k { UnderBounds(c, f, k); }
      }
    }
  }

  lemma Flipped(c: Chart, cfg: set<nat>, q: nat, k: nat)
    requires Counting(c, cfg, q, k)
    ensures
      var p := Parent(c, k);
      Xor(Uncovered(c, Upto(cfg, k), q), c.states[p].children) - {p} == Rest(c, Upto(cfg, k), q, p)
  {
    var p := Parent(c, k);
    ParentOfFinal(c, cfg, q, k);
    assert TableAt(c, p);
    forall x | x in c.states[p].children ensures x in Uncovered(c, Upto(cfg, k), q) {
      Intact(c, cfg, q, k, x);
      UnderTransitive(c, x, p, q);
    }
  }

  /** Clearing upward from a finished state `s` reaches what is uncovered now. */
  lemma {:induction false} ClearUpExact(c: Chart, cfg: set<nat>, q: nat, k: nat, s: nat)
    requires Counting(c, cfg, q, k)
    requires Under(c, s, q) && s in cfg && c.states[s].kind in {Compound, Parallel} && AtOrUnder(c, Parent(c, k), s)
    requires Detects(c, Upto(cfg, k) + {k}, s)
    ensures ClearUp(c, q, Rest(c, Upto(cfg, k), q, s), s) == Uncovered(c, Upto(cfg, k) + {k}, q)
    decreases s
  {
    var a := Upto(cfg, k);
    var b := a + {k};
    var n := Parent(c, s);
    var tmp := Rest(c, a, q, s);
    assert ChildOf(c, s, n);
    assert AtOrUnder(c, n, q);
    assert TableAt(c, n);
    ChildUnder(c, s, n);
    RestCovers(c, a, b, q, s);
    if IsParallel(c, n) && tmp * c.states[n].children == {} {
      RegionsDone(c, cfg, q, k, s, n);
      if n == q {
        AllCovered(c, b, q);
        assert tmp - {n} == {};
      } else {
        RestShrinks(c, a, q, s, n);
        RestCovers(c, a, b, q, n);
        if tmp - {n} != {} {
          AtOrUnderTransitive(c, Parent(c, k), s, n);
          ClearUpExact(c, cfg, q, k, n);
        }
      }
    } else {
      forall x | x in tmp ensures !Covered(c, b, q, x) {
        StillOpen(c, cfg, q, k, s, n, x);
      }
    }
  }

  lemma RestCovers(c: Chart, a: set<nat>, b: set<nat>, q: nat, s: nat)
    requires a <= b && Under(c, s, q) && s < Size(c) && Detects(c, b, s)
    ensures Uncovered(c, b, q) <= Rest(c, a, q, s)
  {
    forall x | x in Uncovered(c, b, q) ensures x in Rest(c, a, q, s) {
      if Covered(c, a, q, x) {
        var t: nat :| Under(c, t, q) && AtOrUnder(c, x, t) && Detects(c, a, t);
        DetectsMonotone(c, a, b, t);
      }
    }
  }

  lemma RestShrinks(c: Chart, a: set<nat>, q: nat, s: nat, n: nat)
    requires ChildOf(c, s, n) && Rest(c, a, q, s) * Descendants(c, n) == {}
    ensures Rest(c, a, q, s) - {n} == Rest(c, a, q, n)
  {
    forall x | x in Rest(c, a, q, s) - {n} ensures x in Rest(c, a, q, n) {
      assert Under(c, x, n) ==> x in Rest(c, a, q, s) * Descendants(c, n);
    }
    forall x | x in Rest(c, a, q, n) ensures x in Rest(c, a, q, s) {
      if AtOrUnder(c, x, s) {
        ChildUnder(c, s, n);
        AtOrUnderTransitive(c, x, s, n);
      }
    }
  }

  lemma AllCovered(c: Chart, b: set<nat>, q: nat)
    requires q < Size(c) && IsParallel(c, q) && Detects(c, b, q)
    ensures Uncovered(c, b, q) == {}
  {
    forall x: nat | Under(c, x, q) ensures Covered(c, b, q, x) {
      var w := Toward(c, q, x);
      ChildUnder(c, w, q);
    }
  }

  /** When nothing is left below the parallel state `n`, all its regions are done. */
  lemma RegionsDone(c: Chart, cfg: set<nat>, q: nat, k: nat, s: nat, n: nat)
    requires Counting(c, cfg, q, k) && ChildOf(c, s, n) && IsParallel(c, n) && AtOrUnder(c, n, q)
    requires s in cfg && Detects(c, Upto(cfg, k) + {k}, s)
    requires Rest(c, Upto(cfg, k), q, s) * Descendants(c, n) == {}
    ensures Detects(c, Upto(cfg, k) + {k}, n)
  {
    var a := Upto(cfg, k);
    var b := a + {k};
    forall y: nat | ChildOf(c, y, n) ensures Detects(c, b, y) {
      if y != s {
        ChildUnder(c, y, n);
        AtOrUnderTransitive(c, y, n, q);
        NotBelowSibling(c, y, s, n);
        assert y !in Rest(c, a, q, s) * Descendants(c, n);
        var t: nat :| Under(c, t, q) && AtOrUnder(c, y, t) && Detects(c, a, t);
        if t != y {
          assert AtOrUnder(c, n, t);
          DetectsDown(c, cfg, a, t, n);
        }
        DetectsMonotone(c, a, b, y);
      }
    }
  }

  lemma NotBelowSibling(c: Chart, y: nat, s: nat, n: nat)
    requires ChildOf(c, y, n) && ChildOf(c, s, n) && y != s
    ensures !AtOrUnder(c, y, s)
  {
    if Under(c, y, s) {
      assert AtOrUnder(c, n, s);
      if Under(c, n, s) { UnderBounds(c, n, s); }
    }
  }

  /** Where clearing stops, nothing above has been finished. */
  lemma StillOpen(c: Chart, cfg: set<nat>, q: nat, k: nat, s: nat, n: nat, x: nat)
    requires Counting(c, cfg, q, k) && ChildOf(c, s, n) && Under(c, s, q) && AtOrUnder(c, Parent(c, k), s)
    requires s in cfg && c.states[s].kind in {Compound, Parallel}
    requires !(IsParallel(c, n) && Rest(c, Upto(cfg, k), q, s) * Descendants(c, n) == {})
    requires x in Rest(c, Upto(cfg, k), q, s)
    ensures !Covered(c, Upto(cfg, k) + {k}, q, x)
  {
    var a := Upto(cfg, k);
    var b := a + {k};
    if Covered(c, b, q, x) {
      var t: nat :| Under(c, t, q) && AtOrUnder(c, x, t) && Detects(c, b, t);
      assert !Detects(c, a, t);
      NewlyAbove(c, a, k, t);
      assert AtOrUnder(c, k, s) by { AtOrUnderTransitive(c, k, Parent(c, k), s); }
      Comparable(c, k, t, s);
      if AtOrUnder(c, t, s) {
        AtOrUnderTransitive(c, x, t, s);
      } else {
        assert AtOrUnder(c, n, t);
        assert b <= cfg;
        DetectsDown(c, cfg, b, t, n);
        NotFinished(c, cfg, q, k, s, n);
      }
    }
  }

  lemma NotFinished(c: Chart, cfg: set<nat>, q: nat, k: nat, s: nat, n: nat)
    requires Counting(c, cfg, q, k) && ChildOf(c, s, n) && Under(c, s, q) && AtOrUnder(c, Parent(c, k), s)
    requires s in cfg && c.states[s].kind in {Compound, Parallel}
    requires !(IsParallel(c, n) && Rest(c, Upto(cfg, k), q, s) * Descendants(c, n) == {})
    ensures !Detects(c, Upto(cfg, k) + {k}, n)
  {
    var a := Upto(cfg, k);
    var b := a + {k};
    if Detects(c, b, n) {
      if IsParallel(c, n) {
        var y :| y in Rest(c, a, q, s) * Descendants(c, n);
        var w := Toward(c, n, y);
        if !Detects(c, a, w) {
          NewlyAbove(c, a, k, w);
          AtOrUnderTransitive(c, k, Parent(c, k), s);
          Comparable(c, k, w, s);
          if w != s {
            NotBelowSibling(c, w, s, n);
            NotBelowSibling(c, s, w, n);
          }
        } else {
          assert AtOrUnder(c, n, q);
          ChildUnder(c, w, n);
          AtOrUnderTransitive(c, w, n, q);
        }
      }
    }
  }

  /** Counting the active final states from `k` on. */
  lemma {:induction false} RemainExact(c: Chart, cfg: set<nat>, q: nat, k: nat)
    requires TablesOk(c) && FinalsOk(c) && Growing(c, cfg) && IsParallel(c, q) && k <= Size(c)
    ensures RemainFrom(c, cfg, q, Uncovered(c, Upto(cfg, k), q), k) == Uncovered(c, cfg, q)
    decreases Size(c) - k
  {
    var a := Upto(cfg, k);
    if k == Size(c) {
      assert a == cfg;
    } else {
      assert TableAt(c, k);
      RemainExact(c, cfg, q, k + 1);
      if k in cfg && q in c.states[k].ancestors && c.states[k].kind == Final && 0 < k {
        assert Upto(cfg, k + 1) == a + {k};
        var p := Parent(c, k);
        ParentOfFinal(c, cfg, q, k);
        assert ChildOf(c, k, p);
        Flipped(c, cfg, q, k);
        ClearUpExact(c, cfg, q, k, p);
      } else {
        SameUncovered(c, cfg, q, k);
      }
    }
  }

  lemma SameUncovered(c: Chart, cfg: set<nat>, q: nat, k: nat)
    requires k < Size(c)
    requires !(k in cfg && Under(c, k, q) && c.states[k].kind == Final && 0 < k)
    ensures Uncovered(c, Upto(cfg, k + 1), q) == Uncovered(c, Upto(cfg, k), q)
  {
    var a := Upto(cfg, k);
    forall s: nat | Under(c, s, q) && s < Size(c)
      ensures Detects(c, Upto(cfg, k + 1), s) <==> Detects(c, a, s)
    {
      if k in cfg {
        assert Upto(cfg, k + 1) == a + {k};
        if Detects(c, a, s) { DetectsMonotone(c, a, a + {k}, s); }
        if Detects(c, a + {k}, s) && !Detects(c, a, s) {
          NewlyAbove(c, a, k, s);
          UnderTransitive(c, k, s, q);
        }
      } else {
        assert Upto(cfg, k + 1) == a;
      }
    }
  }

  // ---- Which done events are raised ----

  lemma StartUncovered(c: Chart, q: nat)
    requires TablesOk(c) && q < Size(c)
    ensures Uncovered(c, {}, q) == c.states[q].children
  {
    assert TableAt(c, q);
    forall x | Covered(c, {}, q, x) ensures false {
      var s: nat :| Under(c, s, q) && AtOrUnder(c, x, s) && Detects(c, {}, s);
      var f := DetectsWitness(c, {}, s);
    }
  }

  /** The table computation comes out empty exactly when the tables see the
      parallel state finished. */
  lemma RemainDetects(c: Chart, cfg: set<nat>, q: nat)
    requires TablesOk(c) && FinalsOk(c) && Growing(c, cfg) && IsParallel(c, q) && HasChild(c, q)
    ensures RemainFrom(c, cfg, q, c.states[q].children, 0) == {} <==> Detects(c, cfg, q)
  {
    assert Upto(cfg, 0) == {};
    StartUncovered(c, q);
    RemainExact(c, cfg, q, 0);
    if Detects(c, cfg, q) {
      AllCovered(c, cfg, q);
    }
    if Uncovered(c, cfg, q) == {} {
      forall x: nat | ChildOf(c, x, q) ensures Detects(c, cfg, x) {
        ChildUnder(c, x, q);
        assert x !in Uncovered(c, cfg, q);
        var s: nat :| Under(c, s, q) && AtOrUnder(c, x, s) && Detects(c, cfg, s);
        if s != x {
          assert AtOrUnder(c, q, s);
          AtOrUnderTransitive(c, q, s, q);
          UnderBounds(c, q, q);
        }
      }
    }
  }

  /** `q` is reached from `s` by climbing through parallel states only. */
  ghost predicate Chain(c: Chart, s: nat, q: nat)
    requires s < Size(c)
    decreases s
  {
    0 < s && IsParallel(c, Parent(c, s)) && (Parent(c, s) == q || Chain(c, Parent(c, s), q))
  }

  lemma {:induction false} DoneAboveExact(c: Chart, cfg: set<nat>, s: nat, q: nat)
    requires TablesOk(c) && FinalsOk(c) && Growing(c, cfg) && s < Size(c)
    ensures DoneEvent(q) in DoneAbove(c, cfg, s) <==> Chain(c, s, q) && q < Size(c) && Detects(c, cfg, q)
    ensures Chain(c, s, q) ==> IsParallel(c, q) && Under(c, s, q)
    decreases s
  {
    if 0 < s && IsParallel(c, Parent(c, s)) {
      var p := Parent(c, s);
      assert ChildOf(c, s, p);
      RemainDetects(c, cfg, p);
      DoneAboveExact(c, cfg, p, q);
      if Chain(c, p, q) { UnderBounds(c, p, q); }
    }
  }

  /** A state finished by one more final state is on the chain of parallels above it. */
  lemma {:induction false} NewlyChained(c: Chart, a: set<nat>, k: nat, s: nat)
    requires s < Size(c) && k < Size(c) && Detects(c, a + {k}, s) && !Detects(c, a, s)
    ensures 0 < k && (s == Parent(c, k) || Chain(c, Parent(c, k), s))
    decreases Size(c) - s
  {
    NewlyAbove(c, a, k, s);
    if IsParallel(c, s) {
      var x: nat :| ChildOf(c, x, s) && !Detects(c, a, x);
      NewlyChained(c, a, k, x);
      if x != Parent(c, k) { ChainStep(c, Parent(c, k), x, s); }
    }
  }

  lemma {:induction false} ChainStep(c: Chart, p: nat, x: nat, s: nat)
    requires p < Size(c) && Chain(c, p, x) && ChildOf(c, x, s) && IsParallel(c, s)
    ensures Chain(c, p, s)
    decreases p
  {
    if Parent(c, p) != x { ChainStep(c, Parent(c, p), x, s); }
  }

  /** Before `k` was entered nothing on its chain was finished. */
  lemma {:induction false} ChainWasOpen(c: Chart, cfg: set<nat>, k: nat, s: nat)
    requires FinalsOk(c) && Growing(c, cfg + {k}) && k !in cfg && 0 < k < Size(c) && c.states[k].kind == Final
    requires s == Parent(c, k) || Chain(c, Parent(c, k), s)
    ensures s < Size(c) && !Detects(c, cfg, s)
  {
    var p := Parent(c, k);
    assert ChildOf(c, k, p);
    if s != p { ChainUnder(c, p, s); }
    if Detects(c, cfg, s) {
      DetectsDown(c, cfg + {k}, cfg, s, p);
    }
  }

  lemma {:induction false} ChainUnder(c: Chart, p: nat, s: nat)
    requires p < Size(c) && Chain(c, p, s)
    ensures Under(c, p, s) && IsParallel(c, s) && s < p
    decreases p
  {
    if Parent(c, p) != s { ChainUnder(c, Parent(c, p), s); }
  }

  /** On entering the final state `k`, the done event of a parallel state is raised
      exactly if this entry makes it finished in the sense of Appendix D and no
      parallel state down to its regions has a history child or no child at all. */
  lemma DoneEventsExact(c: Chart, cfg: set<nat>, k: nat, q: nat)
    requires TablesOk(c) && FinalsOk(c) && Growing(c, cfg + {k}) && k !in cfg
    requires 0 < k < Size(c) && c.states[k].kind == Final && IsParallel(c, q)
    ensures DoneEvent(q) in DoneActions(c, cfg + {k}, k) <==>
            InFinal(c, cfg + {k}, q) && !InFinal(c, cfg, q) && Plain(c, q)
  {
    var p := Parent(c, k);
    var b := cfg + {k};
    assert ChildOf(c, k, p);
    DetectsExactly(c, b, q);
    DetectsExactly(c, cfg, q);
    DoneAboveExact(c, b, p, q);
    if Detects(c, b, q) && !Detects(c, cfg, q) { NewlyChained(c, cfg, k, q); }
    if Chain(c, p, q) {
      ChainWasOpen(c, cfg, k, q);
      ChainUnder(c, p, q);
      if TopLevelFinal(c, k) {
        assert TableAt(c, k);
        UnderBounds(c, p, q);
        assert p in c.states[k].ancestors;
      }
    }
  }

  // ---- In every microstep ----

  /** The configuration when the entering loop comes to state `i`. */
  function Before(c: Chart, kept: set<nat>, e: set<nat>, i: nat): set<nat> {
    kept + set x | x in e && x < i && Proper(c, x)
  }

  lemma {:induction false} EnteringReaches(c: Chart, e: Entry, s: Entering, kept: set<nat>, i: nat, k: nat) returns (t: Entering)
    requires s.configuration == Before(c, kept, e.states, i)
    requires i <= k <= Size(c)
    ensures EnterFrom(c, e, s, i) == EnterFrom(c, e, t, k)
    ensures t.configuration == Before(c, kept, e.states, k)
    decreases k - i
  {
    if i == k {
      t := s;
    } else {
      var s' := if i in e.states && i !in s.configuration && Proper(c, i) then EnterOne(c, e.trans, s, i) else s;
      assert s'.configuration == Before(c, kept, e.states, i + 1);
      t := EnteringReaches(c, e, s', kept, i + 1, k);
    }
  }

  /** Every configuration passed while entering is part of the legal one reached. */
  lemma BeforeGrows(c: Chart, cfg: set<nat>, z: set<nat>, e: set<nat>, k: nat)
    requires StatesOk(c) && ZoneOk(c, cfg, z) && PassInv(c, cfg, z, e, Size(c))
    ensures Growing(c, Before(c, cfg - cfg * z, e, k))
  {
    var b := Before(c, cfg - cfg * z, e, k);
    PassLegal(c, cfg, z, e);
    assert b <= NextConfiguration(c, cfg, cfg * z, e);
  }
}
