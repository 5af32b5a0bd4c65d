/** Enumerating all configurations of a chart, by sums over the children of a
    compound state and products over the regions of a parallel one. */
module Configurations {
  import opened Charts
  import opened EntrySets

  function Subtree(c: Chart, r: nat): set<nat> {
    set x | 0 <= x < Size(c) && AtOrUnder(c, x, r)
  }

  /** Legal when `r` is taken for the root. */
  ghost predicate LegalAt(c: Chart, r: nat, s: set<nat>) {
    && r in s
    && (forall x | x in s :: Proper(c, x) && AtOrUnder(c, x, r))
    && (forall k: nat, x | ChildOf(c, x, k) && x in s && x != r :: k in s)
    && CompoundsFilled(c, s)
    && OneChildEach(c, s)
    && AllRegionsIn(c, s)
  }

  lemma LegalAtRoot(c: Chart, s: set<nat>)
    ensures LegalAt(c, 0, s) <==> Legal(c, s)
  {
    forall x: nat | x < Size(c) ensures AtOrUnder(c, x, 0) {
      if x != 0 { UnderRoot(c, x); }
    }
  }

  // ---- How configurations decompose ----

  lemma {:induction false} ClimbIn(c: Chart, r: nat, s: set<nat>, x: nat) returns (y: nat)
    requires forall k: nat, z | ChildOf(c, z, k) && z in s && z != r :: k in s
    requires x in s && Under(c, x, r)
    ensures ChildOf(c, y, r) && y in s && AtOrUnder(c, x, y)
    decreases x
  {
    y := x;
    if !ChildOf(c, x, r) {
      assert ChildOf(c, x, Parent(c, x));
      UnderBounds(c, x, r);
      y := ClimbIn(c, r, s, Parent(c, x));
      ChildUnder(c, x, Parent(c, x));
      AtOrUnderTransitive(c, x, Parent(c, x), y);
    }
  }

  /** The part of a configuration in the subtree of one of its states is one itself. */
  lemma LegalPart(c: Chart, r: nat, s: set<nat>, y: nat)
    requires LegalAt(c, r, s) && y in s
    ensures LegalAt(c, y, s * Subtree(c, y))
  {
    var t := s * Subtree(c, y);
    assert forall k: nat, x: nat | ChildOf(c, x, k) && AtOrUnder(c, k, y) :: AtOrUnder(c, x, y) by {
      forall k: nat, x: nat | ChildOf(c, x, k) && AtOrUnder(c, k, y) ensures AtOrUnder(c, x, y) {
        ChildUnder(c, x, k);
        AtOrUnderTransitive(c, x, k, y);
      }
    }
    forall k: nat, x | ChildOf(c, x, k) && x in t && x != y ensures k in t {
      assert AtOrUnder(c, k, y);
      if k == y {
      } else if x == r {
        assert AtOrUnder(c, y, r);
        AtOrUnderTransitive(c, r, y, r);
        UnderBounds(c, r, r);
      }
    }
    forall k | k in t && IsCompound(c, k) ensures HasChildIn(c, k, t) {
      var x: nat :| ChildOf(c, x, k) && Proper(c, x) && x in s;
      assert x in t;
    }
  }

  /** Below a compound root there is exactly one configuration of one child. */
  lemma SplitCompound(c: Chart, r: nat, s: set<nat>) returns (y: nat)
    requires IsCompound(c, r) && LegalAt(c, r, s)
    ensures ChildOf(c, y, r) && Proper(c, y) && LegalAt(c, y, s - {r})
  {
    y :| ChildOf(c, y, r) && Proper(c, y) && y in s;
    forall x | x in s ensures x in s - {r} <==> x in s * Subtree(c, y) {
      if x != r {
        var w := ClimbIn(c, r, s, x);
      } else if AtOrUnder(c, r, y) {
        UnderBounds(c, r, y);
      }
    }
    assert s - {r} == s * Subtree(c, y);
    LegalPart(c, r, s, y);
  }

  ghost predicate PartLegal(c: Chart, s: set<nat>, y: nat) {
    LegalAt(c, y, s * Subtree(c, y))
  }

  ghost predicate InPart(c: Chart, ys: set<nat>, x: nat) {
    exists y :: y in ys && AtOrUnder(c, x, y)
  }

  /** `s` is `r` with configurations of the children `ys` of `r`. */
  ghost predicate Parts(c: Chart, r: nat, ys: set<nat>, s: set<nat>) {
    && r in s
    && (forall y | y in ys :: ChildOf(c, y, r) && PartLegal(c, s, y))
    && (forall x | x in s && x != r :: InPart(c, ys, x))
  }

  lemma PartMember(c: Chart, s: set<nat>, y: nat, x: nat)
    requires PartLegal(c, s, y) && x in s && AtOrUnder(c, x, y)
    ensures Proper(c, x) && y in s
    ensures IsCompound(c, x) ==> HasChildIn(c, x, s)
  {
    assert x in s * Subtree(c, y) && y in s * Subtree(c, y);
    if IsCompound(c, x) {
      var w: nat :| ChildOf(c, w, x) && Proper(c, w) && w in s * Subtree(c, y);
      assert w in s;
    }
  }

  lemma PartEdge(c: Chart, s: set<nat>, y: nat, k: nat, x: nat)
    requires PartLegal(c, s, y) && ChildOf(c, x, k)
    ensures x in s && AtOrUnder(c, x, y) && x != y ==> k in s && AtOrUnder(c, k, y)
    ensures k in s && AtOrUnder(c, k, y) && IsParallel(c, k) && Proper(c, x) ==> x in s
  {
    if k in s && AtOrUnder(c, k, y) { assert k in s * Subtree(c, y); }
    if x in s && AtOrUnder(c, x, y) { assert x in s * Subtree(c, y); }
  }

  lemma PartSiblings(c: Chart, s: set<nat>, y: nat, k: nat, x: nat, z: nat)
    requires PartLegal(c, s, y) && ChildOf(c, x, k) && ChildOf(c, z, k) && x != z
    requires x in s && AtOrUnder(c, x, y) && z in s && AtOrUnder(c, z, y)
    ensures IsParallel(c, k)
  {
    assert x in s * Subtree(c, y) && z in s * Subtree(c, y);
  }

  lemma JoinParts(c: Chart, r: nat, ys: set<nat>, s: set<nat>)
    requires Parts(c, r, ys, s) && Proper(c, r)
    requires IsCompound(c, r) ==> exists y :: ys == {y}
    requires IsParallel(c, r) ==> ys == ProperChildren(c, r)
    ensures LegalAt(c, r, s)
  {
    hide PartLegal, InPart, ProperChildren, Parts;
    forall x | x in s ensures Proper(c, x) && AtOrUnder(c, x, r) {
      JoinedMember(c, r, ys, s, x);
    }
    forall k: nat, x | ChildOf(c, x, k) && x in s && x != r ensures k in s {
      var y := PartOf(c, r, ys, s, k, x);
      RootIn(c, r, ys, s);
    }
    forall k: nat, x, z | ChildOf(c, x, k) && ChildOf(c, z, k) && x in s && z in s && x != z
      ensures IsParallel(c, k)
    {
      JoinedSiblings(c, r, ys, s, k, x, z);
    }
    forall k | k in s && IsCompound(c, k) ensures HasChildIn(c, k, s) {
      JoinedFilled(c, r, ys, s, k);
    }
    forall k, x: nat | ChildOf(c, x, k) && k in s && IsParallel(c, k) && Proper(c, x) ensures x in s {
      JoinedRegion(c, r, ys, s, k, x);
    }
    RootIn(c, r, ys, s);
  }

  lemma RootIn(c: Chart, r: nat, ys: set<nat>, s: set<nat>)
    requires Parts(c, r, ys, s)
    ensures r in s
  {
  }

  lemma JoinedMember(c: Chart, r: nat, ys: set<nat>, s: set<nat>, x: nat)
    requires Parts(c, r, ys, s) && Proper(c, r) && x in s
    ensures Proper(c, x) && AtOrUnder(c, x, r)
  {
    hide PartLegal;
    if x != r {
      var y :| y in ys && AtOrUnder(c, x, y);
      ChildUnder(c, y, r);
      AtOrUnderTransitive(c, x, y, r);
      PartMember(c, s, y, x);
    }
  }

  /** A state below `r` belongs to one part, and so does its parent unless that is `r`. */
  lemma PartOf(c: Chart, r: nat, ys: set<nat>, s: set<nat>, k: nat, x: nat) returns (y: nat)
    requires Parts(c, r, ys, s) && ChildOf(c, x, k) && x in s && x != r
    ensures y in ys && AtOrUnder(c, x, y) && ChildOf(c, y, r) && PartLegal(c, s, y)
    ensures if k == r then x == y else x != y && k in s && AtOrUnder(c, k, y)
    ensures r <= k
  {
    hide PartLegal;
    y :| y in ys && AtOrUnder(c, x, y);
    PartEdge(c, s, y, k, x);
    if k == r && x != y { UnderBounds(c, x, y); }
    if AtOrUnder(c, k, y) && k != y { UnderBounds(c, k, y); }
  }

  lemma JoinedSiblings(c: Chart, r: nat, ys: set<nat>, s: set<nat>, k: nat, x: nat, z: nat)
    requires Parts(c, r, ys, s) && Proper(c, r)
    requires IsCompound(c, r) ==> exists y :: ys == {y}
    requires ChildOf(c, x, k) && ChildOf(c, z, k) && x in s && z in s && x != z
    ensures IsParallel(c, k)
  {
    hide PartLegal, Parts;
    if x == r {
      var w := PartOf(c, r, ys, s, k, z);
    } else if z == r {
      var w := PartOf(c, r, ys, s, k, x);
    } else {
      var y := PartOf(c, r, ys, s, k, x);
      var w := PartOf(c, r, ys, s, k, z);
      if k != r {
        SameBranch(c, r, k, y, w);
        PartSiblings(c, s, y, k, x, z);
      }
    }
  }

  lemma SameBranch(c: Chart, r: nat, k: nat, y: nat, w: nat)
    requires ChildOf(c, y, r) && ChildOf(c, w, r) && AtOrUnder(c, k, y) && AtOrUnder(c, k, w)
    ensures y == w
  {
    Comparable(c, k, y, w);
    if Under(c, y, w) {
      assert AtOrUnder(c, r, w);
      if r != w { UnderBounds(c, r, w); }
    }
    if Under(c, w, y) {
      assert AtOrUnder(c, r, y);
      if r != y { UnderBounds(c, r, y); }
    }
  }

  lemma JoinedFilled(c: Chart, r: nat, ys: set<nat>, s: set<nat>, k: nat)
    requires Parts(c, r, ys, s) && (IsCompound(c, r) ==> exists y :: ys == {y})
    requires k in s && IsCompound(c, k)
    ensures HasChildIn(c, k, s)
  {
    hide PartLegal;
    if k == r {
      var y :| ys == {y};
      assert y in ys;
      PartRoot(c, s, y);
    } else {
      var y :| y in ys && AtOrUnder(c, k, y);
      PartMember(c, s, y, k);
    }
  }

  lemma PartRoot(c: Chart, s: set<nat>, y: nat)
    requires PartLegal(c, s, y)
    ensures y in s && Proper(c, y)
  {
    assert y in s * Subtree(c, y);
  }

  lemma JoinedRegion(c: Chart, r: nat, ys: set<nat>, s: set<nat>, k: nat, x: nat)
    requires Parts(c, r, ys, s) && (IsParallel(c, r) ==> ys == ProperChildren(c, r))
    requires ChildOf(c, x, k) && k in s && IsParallel(c, k) && Proper(c, x)
    ensures x in s
  {
    hide PartLegal;
    if k == r {
      assert x in ys;
      PartRoot(c, s, x);
    } else {
      var y :| y in ys && AtOrUnder(c, k, y);
      PartEdge(c, s, y, k, x);
    }
  }

  lemma SplitParallel(c: Chart, r: nat, s: set<nat>)
    requires IsParallel(c, r) && LegalAt(c, r, s)
    ensures Parts(c, r, ProperChildren(c, r), s)
  {
    forall y | y in ProperChildren(c, r) ensures PartLegal(c, s, y) {
      LegalPart(c, r, s, y);
    }
    forall x | x in s && x != r ensures InPart(c, ProperChildren(c, r), x) {
      var y := ClimbIn(c, r, s, x);
      assert y in ProperChildren(c, r);
    }
  }

  lemma LeafConfiguration(c: Chart, r: nat, s: set<nat>)
    requires Proper(c, r) && !IsCompound(c, r) && !IsParallel(c, r)
    ensures LegalAt(c, r, s) <==> s == {r}
  {
    if LegalAt(c, r, s) {
      forall x | x in s ensures x == r { if x != r { UnderBounds(c, x, r); } }
    }
  }

  // ---- Enumerating ----

  ghost predicate Distinct<T>(l: seq<T>) {
    forall i, j | 0 <= i < j < |l| :: l[i] != l[j]
  }

  /** The children of `r` before index `k` that are proper states. */
  function ChildrenUpto(c: Chart, r: nat, k: nat): set<nat> {
    set y | 0 <= y < k && ChildOf(c, y, r) && Proper(c, y)
  }

  /** `t` is the root, unless that is the document element, with a configuration of
      a child before `k`. */
  ghost predicate SumHolds(c: Chart, r: nat, k: nat, t: set<nat>) {
    && (r in t <==> r != 0)
    && exists y: nat :: y < k && ChildOf(c, y, r) && Proper(c, y) && LegalAt(c, y, t - {r})
  }

  /** The sets listed, with the document element put back. */
  ghost predicate Lists(c: Chart, r: nat, all: seq<set<nat>>, s: set<nat>) {
    if r == 0 then r in s && s - {r} in all else s in all
  }

  lemma JoinDistinct(a: seq<set<nat>>, b: seq<set<nat>>)
    requires Distinct(a) && Distinct(b) && forall x | x in a :: x !in b
    ensures Distinct(a + b)
  {
    forall i, j | 0 <= i < j < |a + b| ensures (a + b)[i] != (a + b)[j] {
      if i < |a| <= j { assert a[i] in a && b[j - |a|] in b; }
    }
  }

  /** Every pairing of a set of `left` with a set of `right`. */
  method Product(left: seq<set<nat>>, right: seq<set<nat>>, ghost u: set<nat>, ghost v: set<nat>)
    returns (combined: seq<set<nat>>)
    requires Distinct(left) && Distinct(right) && u !! v
    requires (forall a | a in left :: a <= u) && (forall b | b in right :: b <= v)
    ensures Distinct(combined)
    ensures forall s :: s in combined <==> s * u in left && s * v in right && s <= u + v
    ensures |combined| == |left| * |right|
  {
    combined := [];
    var i := 0;
    while i < |left|
      invariant i <= |left| && Distinct(combined)
      invariant forall s :: s in combined <==> s * u in left[..i] && s * v in right && s <= u + v
      invariant |combined| == i * |right|
    {
      var a := left[i];
      assert a in left;
      var row: seq<set<nat>> := [];
      var j := 0;
      while j < |right|
        invariant j <= |right| && Distinct(row) && |row| == j
        invariant forall k | 0 <= k < j :: row[k] == a + right[k]
      {
        assert right[j] in right;
        forall k | 0 <= k < j ensures row[k] != a + right[j] {
          assert right[k] in right;
          assert (a + right[k]) * v == right[k] && (a + right[j]) * v == right[j];
        }
        row := row + [a + right[j]];
        j := j + 1;
      }
      RowSpec(a, right, row, u, v);
      assert left[..i + 1] == left[..i] + [a];
      forall x | x in combined ensures x !in row {
        var k :| 0 <= k < i && left[..i][k] == x * u;
        assert x in row ==> x * u == a;
      }
      JoinDistinct(combined, row);
      combined := combined + row;
      i := i + 1;
    }
    assert left[..i] == left;
  }

  lemma RowSpec(a: set<nat>, right: seq<set<nat>>, row: seq<set<nat>>, u: set<nat>, v: set<nat>)
    requires u !! v && a <= u && (forall b | b in right :: b <= v)
    requires |row| == |right| && forall k | 0 <= k < |right| :: row[k] == a + right[k]
    ensures forall s :: s in row <==> s * u == a && s * v in right && s <= u + v
  {
    forall s ensures s in row <==> s * u == a && s * v in right && s <= u + v {
      if s in row {
        var k :| 0 <= k < |row| && row[k] == s;
        assert right[k] in right;
        assert s * u == a && s * v == right[k];
      }
      if s * u == a && s * v in right && s <= u + v {
        var k :| 0 <= k < |right| && right[k] == s * v;
        assert s == a + right[k];
        assert row[k] in row;
      }
    }
  }

  /** The number of configurations, by sums and products. */
  function CountUpto(c: Chart, r: nat, k: nat): nat
    requires r < k <= Size(c)
    decreases Size(c) - r, k
  {
    if k == r + 1 then if IsParallel(c, r) then 1 else 0
    else
      var before := CountUpto(c, r, k - 1);
      if !(ChildOf(c, k - 1, r) && Proper(c, k - 1)) then before
      else if IsParallel(c, r) then before * Count(c, k - 1)
      else before + Count(c, k - 1)
  }

  function Count(c: Chart, r: nat): nat
    requires r < Size(c)
    decreases Size(c) - r, Size(c) + 1
  {
    if c.states[r].kind in {Compound, Parallel} then CountUpto(c, r, Size(c)) else 1
  }

  /** Every compound state has a proper child. */
  ghost predicate Inhabited(c: Chart) {
    forall k: nat | IsCompound(c, k) :: HasProperChild(c, k)
  }

  ghost predicate HasProperChild(c: Chart, k: nat) {
    exists x: nat :: ChildOf(c, x, k) && Proper(c, x)
  }

  lemma ChildrenGrow(c: Chart, r: nat, k: nat)
    ensures ChildrenUpto(c, r, k + 1) == ChildrenUpto(c, r, k) + if ChildOf(c, k, r) && Proper(c, k) then {k} else {}
  {
  }

  /** The first region of a parallel state. */
  lemma FirstRegion(c: Chart, r: nat, x: nat, t: set<nat>)
    requires ChildOf(c, x, r)
    ensures Parts(c, r, {x}, t) <==> r in t && LegalAt(c, x, t - {r})
  {
    if Parts(c, r, {x}, t) {
      assert x in {x};
      forall z | z in t - {r} ensures z in Subtree(c, x) { assert InPart(c, {x}, z); }
      NotUnderChild(c, r, x);
      assert t - {r} == t * Subtree(c, x);
    }
    if r in t && LegalAt(c, x, t - {r}) {
      NotUnderChild(c, r, x);
      assert t - {r} == t * Subtree(c, x);
      forall z | z in t && z != r ensures InPart(c, {x}, z) { assert x in {x} && AtOrUnder(c, z, x); }
    }
  }

  lemma NotUnderChild(c: Chart, r: nat, x: nat)
    requires ChildOf(c, x, r)
    ensures r !in Subtree(c, x)
  {
    if r in Subtree(c, x) && r != x { UnderBounds(c, r, x); }
  }

  /** The states that regions before the next one may use. */
  ghost function Used(c: Chart, r: nat, ys: set<nat>): set<nat> {
    {r} + set z | 0 <= z < Size(c) && InPart(c, ys, z)
  }

  lemma UsedApart(c: Chart, r: nat, ys: set<nat>, x: nat)
    requires ChildOf(c, x, r) && x !in ys && forall y | y in ys :: ChildOf(c, y, r)
    ensures Used(c, r, ys) !! Subtree(c, x)
  {
    NotUnderChild(c, r, x);
    forall z | z in Used(c, r, ys) && z in Subtree(c, x) ensures false {
      var y :| y in ys && AtOrUnder(c, z, y);
      SameBranch(c, r, z, x, y);
    }
  }

  /** Adding a region to what has been combined so far. */
  lemma NextRegion(c: Chart, r: nat, ys: set<nat>, x: nat, s: set<nat>)
    requires ChildOf(c, x, r) && x !in ys && forall y | y in ys :: ChildOf(c, y, r)
    ensures
      var u, v := Used(c, r, ys), Subtree(c, x);
      Parts(c, r, ys + {x}, s) <==> Parts(c, r, ys, s * u) && LegalAt(c, x, s * v) && s <= u + v
  {
    var u, v := Used(c, r, ys), Subtree(c, x);
    forall y | y in ys ensures s * u * Subtree(c, y) == s * Subtree(c, y) {
      assert forall z | z in Subtree(c, y) :: InPart(c, ys, z);
    }
    hide LegalAt, Subtree;
    if Parts(c, r, ys + {x}, s) {
      RegionOut(c, r, ys, x, s);
    }
    if Parts(c, r, ys, s * u) && LegalAt(c, x, s * v) && s <= u + v {
      RegionIn(c, r, ys, x, s);
    }
  }

  lemma RegionOut(c: Chart, r: nat, ys: set<nat>, x: nat, s: set<nat>)
    requires ChildOf(c, x, r) && x !in ys && Parts(c, r, ys + {x}, s)
    requires forall y | y in ys :: s * Used(c, r, ys) * Subtree(c, y) == s * Subtree(c, y)
    ensures Parts(c, r, ys, s * Used(c, r, ys)) && LegalAt(c, x, s * Subtree(c, x))
    ensures s <= Used(c, r, ys) + Subtree(c, x)
  {
    hide LegalAt;
    assert x in ys + {x};
    forall y | y in ys ensures ChildOf(c, y, r) && PartLegal(c, s * Used(c, r, ys), y) {
      assert y in ys + {x};
    }
    forall z | z in s && z != r ensures z in Used(c, r, ys) + Subtree(c, x) {
      var y :| y in ys + {x} && AtOrUnder(c, z, y);
      if y in ys { assert InPart(c, ys, z); }
    }
    forall z | z in s * Used(c, r, ys) && z != r ensures InPart(c, ys, z) { }
  }

  lemma RegionIn(c: Chart, r: nat, ys: set<nat>, x: nat, s: set<nat>)
    requires ChildOf(c, x, r) && x !in ys && Parts(c, r, ys, s * Used(c, r, ys))
    requires LegalAt(c, x, s * Subtree(c, x)) && s <= Used(c, r, ys) + Subtree(c, x)
    requires forall y | y in ys :: s * Used(c, r, ys) * Subtree(c, y) == s * Subtree(c, y)
    ensures Parts(c, r, ys + {x}, s)
  {
    hide LegalAt;
    forall y | y in ys + {x} ensures ChildOf(c, y, r) && PartLegal(c, s, y) {
      if y in ys { assert PartLegal(c, s * Used(c, r, ys), y); }
    }
    forall z | z in s && z != r ensures InPart(c, ys + {x}, z) {
      if z in Used(c, r, ys) {
        assert InPart(c, ys, z);
        var y :| y in ys && AtOrUnder(c, z, y);
        assert y in ys + {x};
      } else {
        assert x in ys + {x} && AtOrUnder(c, z, x);
      }
    }
  }

  /** Each configuration of a child with the root added to it. */
  method AddRoot(nested: seq<set<nat>>, root: nat) returns (added: seq<set<nat>>)
    requires Distinct(nested) && forall t | t in nested :: root !in t
    ensures |added| == |nested| && Distinct(added)
    ensures forall t :: t in added <==> t - {root} in nested && (root in t <==> root != 0)
  {
    added := [];
    var i := 0;
    while i < |nested|
      invariant i <= |nested| && |added| == i
      invariant forall k | 0 <= k < i :: added[k] == if root != 0 then nested[k] + {root} else nested[k]
      invariant Distinct(added)
    {
      var newConfig := nested[i];
      assert forall k | 0 <= k <= i :: nested[k] in nested;
      if root != 0 {
        newConfig := newConfig + {root};
        assert forall k | 0 <= k <= i :: (nested[k] + {root}) - {root} == nested[k];
      }
      added := added + [newConfig];
      i := i + 1;
    }
    forall t ensures t in added <==> t - {root} in nested && (root in t <==> root != 0) {
      if t in added {
        var k :| 0 <= k < |added| && added[k] == t;
        assert nested[k] in nested && t - {root} == nested[k];
      }
      if t - {root} in nested && (root in t <==> root != 0) {
        var k :| 0 <= k < |nested| && nested[k] == t - {root};
        assert added[k] == t;
      }
    }
  }

  /** What the list holds when the children before `k` have been combined. */
  ghost predicate Combined(c: Chart, r: nat, k: nat, all: seq<set<nat>>)
    requires r < k <= Size(c)
  {
    && Distinct(all)
    && if !IsParallel(c, r) then
         |all| == CountUpto(c, r, k) && (ChildrenUpto(c, r, k) != {} ==> 0 < |all|)
         && forall t :: t in all <==> SumHolds(c, r, k, t)
       else if ChildrenUpto(c, r, k) == {} then
         all == [] && CountUpto(c, r, k) == 1
       else
         |all| == CountUpto(c, r, k) > 0 && forall t :: t in all <==> Parts(c, r, ChildrenUpto(c, r, k), t)
  }

  lemma CombinedSkips(c: Chart, r: nat, k: nat, all: seq<set<nat>>)
    requires r < k < Size(c) && Combined(c, r, k, all) && !(ChildOf(c, k, r) && Proper(c, k))
    ensures Combined(c, r, k + 1, all)
  {
    hide LegalAt, Parts;
    ChildrenGrow(c, r, k);
    assert ChildrenUpto(c, r, k + 1) == ChildrenUpto(c, r, k);
    assert forall t :: SumHolds(c, r, k + 1, t) <==> SumHolds(c, r, k, t);
  }

  /** The configurations of child `x`, as its own enumeration lists them. */
  ghost predicate Enumerates(c: Chart, x: nat, nested: seq<set<nat>>)
    requires x < Size(c)
  {
    Distinct(nested) && 0 < |nested| == Count(c, x) && forall s :: LegalAt(c, x, s) <==> s in nested
  }

  lemma CombinedSums(c: Chart, r: nat, x: nat, all: seq<set<nat>>, nested: seq<set<nat>>, added: seq<set<nat>>)
    requires r < x < Size(c) && Combined(c, r, x, all) && ChildOf(c, x, r) && Proper(c, x) && !IsParallel(c, r)
    requires Enumerates(c, x, nested) && |added| == |nested| && Distinct(added)
    requires forall t :: t in added <==> t - {r} in nested && (r in t <==> r != 0)
    ensures Combined(c, r, x + 1, all + added)
  {
    forall t ensures t in all + added <==> SumHolds(c, r, x + 1, t) {
      if SumHolds(c, r, x + 1, t) {
        var y: nat :| y < x + 1 && ChildOf(c, y, r) && Proper(c, y) && LegalAt(c, y, t - {r});
        if y < x { assert SumHolds(c, r, x, t); }
      }
    }
    forall t | t in all ensures t !in added {
      var y: nat :| y < x && ChildOf(c, y, r) && Proper(c, y) && LegalAt(c, y, t - {r});
      if t - {r} in nested { OneRoot(c, r, x, y, t - {r}); }
    }
    JoinDistinct(all, added);
    ChildrenGrow(c, r, x);
  }

  /** A configuration has one root. */
  lemma OneRoot(c: Chart, r: nat, x: nat, y: nat, t: set<nat>)
    requires ChildOf(c, x, r) && ChildOf(c, y, r) && LegalAt(c, x, t) && LegalAt(c, y, t)
    ensures x == y
  {
    SameBranch(c, r, x, x, y);
  }

  lemma CombinedStarts(c: Chart, r: nat, x: nat, nested: seq<set<nat>>, added: seq<set<nat>>)
    requires r < x < Size(c) && Combined(c, r, x, []) && ChildOf(c, x, r) && Proper(c, x) && IsParallel(c, r)
    requires Enumerates(c, x, nested) && |added| == |nested| && Distinct(added)
    requires forall t :: t in added <==> t - {r} in nested && (r in t <==> r != 0)
    ensures Combined(c, r, x + 1, added)
  {
    ChildrenGrow(c, r, x);
    assert ChildrenUpto(c, r, x) == {};
    assert ChildrenUpto(c, r, x + 1) == {x};
    assert r != 0;
    forall t ensures t in added <==> Parts(c, r, {x}, t) { FirstRegion(c, r, x, t); }
  }

  lemma CombinedMultiplies(c: Chart, r: nat, x: nat, all: seq<set<nat>>, nested: seq<set<nat>>, combined: seq<set<nat>>)
    requires r < x < Size(c) && Combined(c, r, x, all) && all != [] && ChildOf(c, x, r) && Proper(c, x) && IsParallel(c, r)
    requires Enumerates(c, x, nested) && Distinct(combined) && |combined| == |all| * |nested|
    requires
      var u, v := Used(c, r, ChildrenUpto(c, r, x)), Subtree(c, x);
      forall s :: s in combined <==> s * u in all && s * v in nested && s <= u + v
    ensures Combined(c, r, x + 1, combined)
  {
    var ys := ChildrenUpto(c, r, x);
    ChildrenGrow(c, r, x);
    assert ys != {} && ChildrenUpto(c, r, x + 1) == ys + {x};
    forall s ensures s in combined <==> Parts(c, r, ys + {x}, s) { NextRegion(c, r, ys, x, s); }
    assert |combined| > 0 by { MulPositive(|all|, |nested|); }
  }

  lemma MulPositive(a: nat, b: nat)
    requires 0 < a && 0 < b
    ensures 0 < a * b
  {
  }

  lemma PartsInside(c: Chart, r: nat, ys: set<nat>, s: set<nat>)
    requires Parts(c, r, ys, s) && forall y | y in ys :: y < Size(c)
    ensures s <= Used(c, r, ys)
  {
    hide PartLegal;
    forall z | z in s ensures z in Used(c, r, ys) {
      if z != r { assert InPart(c, ys, z); var y :| y in ys && AtOrUnder(c, z, y); }
    }
  }

  /** Without the document element where that is the root. */
  ghost predicate AllListed(c: Chart, r: nat, all: seq<set<nat>>) {
    && (forall t | t in all :: r == 0 ==> 0 !in t)
    && forall s :: LegalAt(c, r, s) <==> Lists(c, r, all, s)
  }

  lemma CombinedIsAll(c: Chart, r: nat, all: seq<set<nat>>)
    requires r < Size(c) && Proper(c, r) && Combined(c, r, Size(c), all) && all != []
    requires IsCompound(c, r) || (IsParallel(c, r) && r != 0)
    ensures AllListed(c, r, all) && |all| == Count(c, r)
  {
    var n := Size(c);
    forall s ensures LegalAt(c, r, s) <==> Lists(c, r, all, s) {
      if IsCompound(c, r) {
        var t := if r == 0 then s - {0} else s;
        assert t - {r} == s - {r};
        if LegalAt(c, r, s) {
          var y := SplitCompound(c, r, s);
          assert SumHolds(c, r, n, t);
        }
        if r in s && SumHolds(c, r, n, t) {
          var y: nat :| y < n && ChildOf(c, y, r) && Proper(c, y) && LegalAt(c, y, t - {r});
          FirstRegion(c, r, y, s);
          JoinParts(c, r, {y}, s);
        }
      } else {
        assert ChildrenUpto(c, r, n) == ProperChildren(c, r);
        if LegalAt(c, r, s) { SplitParallel(c, r, s); }
        if Parts(c, r, ProperChildren(c, r), s) { JoinParts(c, r, ProperChildren(c, r), s); }
      }
    }
  }

  /** No children at all: the state on its own. */
  lemma SoleIsAll(c: Chart, r: nat)
    requires r < Size(c) && Proper(c, r) && r != 0 && ChildrenUpto(c, r, Size(c)) == {} && !IsCompound(c, r)
    ensures AllListed(c, r, [{r}])
    ensures IsParallel(c, r) && Combined(c, r, Size(c), []) ==> Count(c, r) == 1
  {
    forall s ensures LegalAt(c, r, s) <==> s == {r} {
      if IsParallel(c, r) {
        assert ProperChildren(c, r) == {};
        if LegalAt(c, r, s) {
          SplitParallel(c, r, s);
          forall x | x in s ensures x == r { assert x != r ==> InPart(c, {}, x); }
        }
        if s == {r} {
          assert Parts(c, r, {}, s);
          JoinParts(c, r, {}, s);
        }
      } else {
        LeafConfiguration(c, r, s);
      }
    }
  }

  /** All configurations of the subtree of `root`, each once.  The document element
      itself is left out of the sets when it is the root. */
  method GetAllConfigurations(c: Chart, root: nat) returns (all: seq<set<nat>>)
    requires Inhabited(c) && Proper(c, root) && (IsParallel(c, root) ==> root != 0)
    ensures Distinct(all) && 0 < |all| == Count(c, root)
    ensures AllListed(c, root, all)
    decreases Size(c) - root
  {
    hide LegalAt, Parts, SumHolds, AllListed;
    all := [];
    var isAtomic := true;
    var x := root + 1;
    if IsCompound(c, root) || IsParallel(c, root) {
      StartCombined(c, root);
      while x < Size(c)
        invariant root < x <= Size(c)
        invariant Combined(c, root, x, all)
        invariant isAtomic <==> ChildrenUpto(c, root, x) == {}
      {
        ChildrenGrow(c, root, x);
        if ChildOf(c, x, root) && Proper(c, x) {
          var nested := GetAllConfigurations(c, x);
          ListedDirectly(c, x, nested);
          isAtomic := false;
          if c.states[root].kind == Parallel && |all| > 0 {
            ghost var ys := ChildrenUpto(c, root, x);
            UsedApart(c, root, ys, x);
            PairingBounds(c, root, x, all, nested);
            var combined := Product(all, nested, Used(c, root, ys), Subtree(c, x));
            CombinedMultiplies(c, root, x, all, nested, combined);
            all := combined;
          } else {
            RootNotIn(c, root, x, nested);
            var added := AddRoot(nested, root);
            if IsParallel(c, root) {
              CombinedStarts(c, root, x, nested, added);
              assert all + added == added;
            } else {
              CombinedSums(c, root, x, all, nested, added);
            }
            all := all + added;
          }
        } else {
          CombinedSkips(c, root, x, all);
        }
        x := x + 1;
      }
    } else {
      NoChildren(c, root);
    }
    if isAtomic {
      if IsCompound(c, root) { CompoundHasChildren(c, root); }
      SoleIsAll(c, root);
      all := all + [{root}];
      assert all == [{root}];
    } else {
      CombinedIsAll(c, root, all);
    }
  }

  lemma StartCombined(c: Chart, r: nat)
    requires r < Size(c) && c.states[r].kind in {Compound, Parallel}
    ensures Combined(c, r, r + 1, []) && ChildrenUpto(c, r, r + 1) == {}
  {
    var k := r + 1;
    forall t ensures !SumHolds(c, r, k, t) { }
  }

  lemma NoChildren(c: Chart, r: nat)
    requires r < Size(c) && c.states[r].kind !in {Compound, Parallel}
    ensures ChildrenUpto(c, r, Size(c)) == {}
  {
  }

  lemma CompoundHasChildren(c: Chart, r: nat)
    requires Inhabited(c) && IsCompound(c, r)
    ensures ChildrenUpto(c, r, Size(c)) != {}
  {
    assert HasProperChild(c, r);
    var x: nat :| ChildOf(c, x, r) && Proper(c, x);
    assert x in ChildrenUpto(c, r, Size(c));
  }

  lemma ListedDirectly(c: Chart, x: nat, nested: seq<set<nat>>)
    requires 0 < x < Size(c) && Distinct(nested) && 0 < |nested| == Count(c, x) && AllListed(c, x, nested)
    ensures Enumerates(c, x, nested)
  {
  }

  lemma RootNotIn(c: Chart, r: nat, x: nat, nested: seq<set<nat>>)
    requires ChildOf(c, x, r) && Enumerates(c, x, nested)
    ensures forall t | t in nested :: r !in t
  {
    NotUnderChild(c, r, x);
    forall t | t in nested ensures r !in t { assert LegalAt(c, x, t); }
  }

  lemma PairingBounds(c: Chart, r: nat, x: nat, all: seq<set<nat>>, nested: seq<set<nat>>)
    requires r < x < Size(c) && IsParallel(c, r) && Combined(c, r, x, all) && all != []
    requires ChildOf(c, x, r) && Enumerates(c, x, nested)
    ensures forall a | a in all :: a <= Used(c, r, ChildrenUpto(c, r, x))
    ensures forall b | b in nested :: b <= Subtree(c, x)
  {
    forall a | a in all ensures a <= Used(c, r, ChildrenUpto(c, r, x)) {
      PartsInside(c, r, ChildrenUpto(c, r, x), a);
    }
    forall b | b in nested ensures b <= Subtree(c, x) { assert LegalAt(c, x, b); }
  }
}
