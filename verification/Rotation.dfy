/** Exchanging two adjacent blocks of an argument vector in place, by as many
    cycles as their lengths have in common. */
module Rotation {

  // ---- Arithmetic ----

  lemma MulAtLeast(k: int, n: int)
    requires 1 <= k && 0 < n
    ensures n <= k * n
  {
    assert k * n == (k - 1) * n + n;
    assert 0 <= (k - 1) * n;
  }

  lemma MulNonPositive(k: int, n: int)
    requires k <= 0 && 0 < n
    ensures k * n <= 0
  {
    assert (-k) * n == -(k * n);
    assert 0 <= (-k) * n;
  }

  lemma PositiveFactor(k: int, n: int)
    requires 0 < n && 0 < k * n
    ensures 0 < k
  {
    if k <= 0 { MulNonPositive(k, n); }
  }

  lemma MulAssociative(a: int, b: int, c: int)
    ensures (a * b) * c == a * (b * c)
  {
  }

  lemma MulDistributes(a: int, b: int, c: int)
    ensures a * (b + c) == a * b + a * c && (b + c) * a == b * a + c * a
  {
  }

  lemma ModUnique(x: int, q: int, r: int, n: int)
    requires 0 < n && x == q * n + r && 0 <= r < n
    ensures x % n == r && x / n == q
  {
    var d := x / n - q;
    assert x == (x / n) * n + x % n;
    assert d * n == r - x % n by { assert d * n == (x / n) * n - q * n; }
    if d >= 1 { MulAtLeast(d, n); }
    if d <= -1 {
      assert (-d) * n == -(d * n);
      MulAtLeast(-d, n);
    }
    assert d == 0;
  }

  lemma ModShift(a: int, k: int, n: int)
    requires 0 < n
    ensures (a + k * n) % n == a % n
  {
    assert a + k * n == (a / n + k) * n + a % n;
    ModUnique(a + k * n, a / n + k, a % n, n);
  }

  /** Equal remainders differ by a multiple. */
  lemma ModDifference(a: int, b: int, n: int) returns (k: int)
    requires 0 < n && a % n == b % n
    ensures a - b == k * n
  {
    k := a / n - b / n;
    assert a == (a / n) * n + a % n && b == (b / n) * n + b % n;
    assert k * n == (a / n) * n - (b / n) * n;
  }

  lemma ModAdd(a: int, b: int, n: int)
    requires 0 < n
    ensures (a % n + b) % n == (a + b) % n
  {
    assert a + b == a % n + b + (a / n) * n;
    ModShift(a % n + b, a / n, n);
  }

  // ---- The greatest common divisor ----

  ghost predicate Divides(d: int, a: int) {
    exists k: int :: a == k * d
  }

  lemma DividesSum(d: int, a: int, b: int, q: int)
    requires Divides(d, a) && Divides(d, b)
    ensures Divides(d, a + q * b)
  {
    var k: int :| a == k * d;
    var l: int :| b == l * d;
    assert a + q * b == (k + q * l) * d;
  }

  /** Euclid's loop; the coefficients show the result is a combination of the inputs. */
  method Gcd(a0: int, b0: int) returns (b: int, ghost x: int, ghost y: int)
    requires 0 < a0 && 0 < b0
    ensures 0 < b && Divides(b, a0) && Divides(b, b0)
    ensures b == x * a0 + y * b0
  {
    var a := a0;
    b := b0;
    ghost var u, v := 1, 0;
    x, y := 0, 1;
    var c := a % b;
    ghost var w, z := u - (a / b) * x, v - (a / b) * y;
    CombineStep(a0, b0, a, b, u, v, x, y);
    while c != 0
      invariant 0 < b && 0 < a && 0 <= c < b && c == a % b
      invariant a == u * a0 + v * b0 && b == x * a0 + y * b0 && c == w * a0 + z * b0
      invariant forall d :: Divides(d, a) && Divides(d, b) ==> Divides(d, a0) && Divides(d, b0)
      decreases c
    {
      DivisorsPass(a, b, c);
      a := b;
      b := c;
      u, v, x, y := x, y, w, z;
      c := a % b;
      w, z := u - (a / b) * x, v - (a / b) * y;
      CombineStep(a0, b0, a, b, u, v, x, y);
    }
    assert a == (a / b) * b;
    assert b == 1 * b;
  }

  lemma CombineStep(a0: int, b0: int, a: int, b: int, u: int, v: int, x: int, y: int)
    requires 0 < b && a == u * a0 + v * b0 && b == x * a0 + y * b0
    ensures a % b == (u - (a / b) * x) * a0 + (v - (a / b) * y) * b0
  {
    var q := a / b;
    assert a % b == a - q * b;
    assert q * b == q * (x * a0) + q * (y * b0);
    assert (u - q * x) * a0 == u * a0 - q * (x * a0);
    assert (v - q * y) * b0 == v * b0 - q * (y * b0);
  }

  lemma DivisorsPass(a: int, b: int, c: int)
    requires 0 < b && c == a % b
    ensures forall d :: Divides(d, b) && Divides(d, c) ==> Divides(d, a)
  {
    forall d | Divides(d, b) && Divides(d, c) ensures Divides(d, a) {
      DividesSum(d, c, b, a / b);
      assert a == c + (a / b) * b;
    }
  }

  // ---- Positions along one cycle ----

  /** Blocks of `n` and `m` positions; their lengths share the divisor `g`. */
  ghost predicate Blocks(n: int, m: int, g: int, x: int, y: int) {
    0 < n && 0 < m && 0 < g && Divides(g, n) && Divides(g, m) && g == x * n + y * m
  }

  /** Where the element at position `p` belongs after the exchange. */
  function Moved(n: int, m: int, p: int): int {
    if p >= n then p - n else p + m
  }

  /** The `j`-th position visited from `c`. */
  function At(n: int, m: int, c: int, j: int): int
    requires 0 < n + m
  {
    (c + j * m) % (n + m)
  }

  lemma AtNext(n: int, m: int, c: int, j: int)
    requires 0 < n && 0 < m
    ensures At(n, m, c, j + 1) == Moved(n, m, At(n, m, c, j))
  {
    var p := At(n, m, c, j);
    assert c + (j + 1) * m == c + j * m + m;
    ModAdd(c + j * m, m, n + m);
    if p >= n {
      ModUnique(p + m, 1, p - n, n + m);
    } else {
      ModUnique(p + m, 0, p + m, n + m);
    }
  }

  lemma CycleLength(n: int, m: int, g: int, x: int, y: int) returns (l: int, k: int)
    requires Blocks(n, m, g, x, y)
    ensures l == (n + m) / g && 0 < l && n + m == l * g && m == k * g && l * m == k * (n + m)
    ensures g <= n && g <= m
  {
    var a: int :| n == a * g;
    k :| m == k * g;
    l := a + k;
    assert (a + k) * g == a * g + k * g;
    ModUnique(n + m, l, 0, g);
    PositiveFactor(l, g);
    assert l * m == l * (k * g) == k * (l * g);
    PositiveFactor(a, g);
    PositiveFactor(k, g);
    MulAtLeast(a, g);
    MulAtLeast(k, g);
  }

  /** After a full cycle the walk is back where it began. */
  lemma CycleCloses(n: int, m: int, g: int, x: int, y: int, c: int)
    requires Blocks(n, m, g, x, y) && 0 <= c < n + m
    ensures At(n, m, c, (n + m) / g) == c
  {
    var l, k := CycleLength(n, m, g, x, y);
    ModShift(c, k, n + m);
    ModUnique(c, 0, c, n + m);
  }

  /** ... and not before. */
  lemma CycleIsSimple(n: int, m: int, g: int, x: int, y: int, c: int, t: int)
    requires Blocks(n, m, g, x, y) && 0 <= c < n + m && 0 < t < (n + m) / g
    ensures At(n, m, c, t) != c
  {
    var l, k := CycleLength(n, m, g, x, y);
    var s := n + m;
    if At(n, m, c, t) == c {
      ModUnique(c, 0, c, s);
      var d := ModDifference(c + t * m, c, s);
      var e := Combination(n, m, g, x, y, t, d);
      MulAssociative(e, l, g);
      CancelFactor(t, e * l, g);
      PositiveFactor(e, l);
      MulAtLeast(e, l);
    }
  }

  /** If `t` steps are a whole number of rounds, so is `t` times the common divisor. */
  lemma Combination(n: int, m: int, g: int, x: int, y: int, t: int, d: int) returns (e: int)
    requires g == x * n + y * m && t * m == d * (n + m)
    ensures t * g == e * (n + m)
  {
    var s := n + m;
    e := x * (t - d) + y * d;
    assert t * n == (t - d) * s by {
      MulDistributes(t, n, m);
      MulDistributes(s, t - d, d);
    }
    MulDistributes(t, x * n, y * m);
    assert t * (x * n) == x * (t * n) && t * (y * m) == y * (t * m);
    MulAssociative(x, t - d, s);
    MulAssociative(y, d, s);
    MulDistributes(s, x * (t - d), y * d);
  }

  lemma CancelFactor(a: int, b: int, g: int)
    requires 0 < g && a * g == b * g
    ensures a == b
  {
    assert (a - b) * g == 0;
    if a > b { MulAtLeast(a - b, g); }
    if a < b {
      assert (b - a) * g == -((a - b) * g);
      MulAtLeast(b - a, g);
    }
  }

  /** Two visits to the same position would close the cycle early. */
  lemma VisitsDiffer(n: int, m: int, g: int, x: int, y: int, c: int, t: int, j: int)
    requires Blocks(n, m, g, x, y) && 0 <= c < n + m && 0 <= t < j < (n + m) / g
    ensures At(n, m, c, t) != At(n, m, c, j)
  {
    if At(n, m, c, t) == At(n, m, c, j) {
      var d := ModDifference(c + j * m, c + t * m, n + m);
      assert c + (j - t) * m == c + d * (n + m);
      ModShift(c, d, n + m);
      ModUnique(c, 0, c, n + m);
      CycleIsSimple(n, m, g, x, y, c, j - t);
    }
  }

  /** Every position that leaves the same remainder is visited. */
  lemma CycleCovers(n: int, m: int, g: int, x: int, y: int, c: int, q: int) returns (t: int)
    requires Blocks(n, m, g, x, y) && 0 <= c < n + m && 0 <= q < n + m && q % g == c % g
    ensures 0 < t <= (n + m) / g && At(n, m, c, t) == q
  {
    var l, k := CycleLength(n, m, g, x, y);
    var s := n + m;
    var d := ModDifference(q, c, g);
    var j := d * (y - x);
    DistanceInSteps(n, m, g, x, y, d);
    ModShift(c + j * m, d * x, s);
    ModUnique(q, 0, q, s);
    StepsReduce(c, j, l, k, m, s);
    if j % l == 0 {
      t := l;
      CycleCloses(n, m, g, x, y, c);
      ModUnique(c, 0, c, s);
    } else {
      t := j % l;
    }
  }

  /** A distance of `d` common divisors is walked in `d * (y - x)` steps, up to rounds. */
  lemma DistanceInSteps(n: int, m: int, g: int, x: int, y: int, d: int)
    requires g == x * n + y * m
    ensures d * g == (d * (y - x)) * m + (d * x) * (n + m)
  {
    MulDistributes(d, x * n, y * m);
    MulAssociative(d, x, n);
    MulAssociative(d, x, m);
    MulAssociative(d, y, m);
    MulDistributes(d * x, n, m);
    assert d * (y - x) == d * y - d * x;
    assert (d * y - d * x) * m == (d * y) * m - (d * x) * m;
  }

  /** Only the number of steps modulo the cycle length matters. */
  lemma StepsReduce(c: int, j: int, l: int, k: int, m: int, s: int)
    requires 0 < l && 0 < s && l * m == k * s
    ensures (c + j * m) % s == (c + (j % l) * m) % s
  {
    var u, r := j / l, j % l;
    assert j == u * l + r;
    MulDistributes(m, u * l, r);
    MulAssociative(u, l, m);
    MulAssociative(u, k, s);
    assert c + j * m == c + r * m + (u * k) * s;
    ModShift(c + r * m, u * k, s);
  }

  lemma FactorOut(c: int, t: int, k: int, d: int, l: int, g: int)
    ensures c + t * (k * g) - d * (l * g) == c + (t * k - d * l) * g
  {
    MulAssociative(t, k, g);
    MulAssociative(d, l, g);
    assert (t * k - d * l) * g == (t * k) * g - (d * l) * g;
  }

  lemma VisitsSameClass(n: int, m: int, g: int, x: int, y: int, c: int, t: int)
    requires Blocks(n, m, g, x, y)
    ensures At(n, m, c, t) % g == c % g
  {
    var l, k := CycleLength(n, m, g, x, y);
    var s := n + m;
    var p := At(n, m, c, t);
    var d := (c + t * m) / s;
    assert c + t * m == d * s + p;
    assert p == c + t * (k * g) - d * (l * g);
    FactorOut(c, t, k, d, l, g);
    ModShift(c, t * k - d * l, g);
  }

  lemma AtInRange(n: int, m: int, c: int, j: int)
    requires 0 < n && 0 < m
    ensures 0 <= At(n, m, c, j) < n + m
  {
  }

  lemma MovedSameClass(n: int, m: int, g: int, x: int, y: int, p: int)
    requires Blocks(n, m, g, x, y) && 0 <= p < n + m
    ensures Moved(n, m, p) % g == p % g && 0 <= Moved(n, m, p) < n + m
  {
    ModUnique(p, 0, p, n + m);
    AtNext(n, m, p, 0);
    VisitsSameClass(n, m, g, x, y, p, 1);
  }

  // ---- The exchange ----

  ghost predicate Unvisited(n: int, m: int, c: int, j: int, q: int)
    requires 0 < n + m
  {
    forall t | 0 <= t <= j :: At(n, m, c, t) != q
  }

  /** `j` swaps into the cycle from `c`: visited positions hold what belongs there,
      `c` holds what was picked up last. */
  ghost predicate InCycle<T(!new)>(a: seq<T>, before: seq<T>, s: int, n: int, m: int, c: int, l: int, j: int)
    requires 0 < n && 0 < m && 0 <= s && s + n + m <= |a| == |before|
  {
    && (forall q | 0 <= q < |a| && !(s <= q < s + n + m) :: a[q] == before[q])
    && (forall t | 0 <= t < j :: Delivered(a, before, s, n, m, c, t))
    && (forall q | 0 <= q < n + m && q != c && Unvisited(n, m, c, j, q) :: a[s + q] == before[s + q])
    && (j < l && 0 <= c < n + m ==> a[s + c] == before[s + At(n, m, c, j)])
  }

  ghost predicate Delivered<T(!new)>(a: seq<T>, before: seq<T>, s: int, n: int, m: int, c: int, t: int)
    requires 0 < n && 0 < m && 0 <= s && s + n + m <= |a| == |before|
  {
    a[s + At(n, m, c, t + 1)] == before[s + At(n, m, c, t)]
  }

  lemma SwapDelivers<T(!new)>(a: seq<T>, b: seq<T>, before: seq<T>, s: int, n: int, m: int, g: int, x: int, y: int, c: int, j: int)
    requires Blocks(n, m, g, x, y) && 0 <= c < n + m && 0 <= j < (n + m) / g
    requires 0 <= s && s + n + m <= |a| == |b| == |before|
    requires InCycle(a, before, s, n, m, c, (n + m) / g, j)
    requires
      var p := At(n, m, c, j + 1);
      b == a[s + p := a[s + c]][s + c := a[s + p]]
    ensures InCycle(b, before, s, n, m, c, (n + m) / g, j + 1)
  {
    var l := (n + m) / g;
    var p := At(n, m, c, j + 1);
    ModUnique(c, 0, c, n + m);
    assert At(n, m, c, 0) == c;
    if j + 1 == l {
      CycleCloses(n, m, g, x, y, c);
    } else {
      forall t | 0 <= t <= j ensures At(n, m, c, t) != p { VisitsDiffer(n, m, g, x, y, c, t, j + 1); }
      assert Unvisited(n, m, c, j, p);
    }
    forall t | 0 <= t < j + 1 ensures Delivered(b, before, s, n, m, c, t) {
      if t < j {
        assert Delivered(a, before, s, n, m, c, t);
        CycleIsSimple(n, m, g, x, y, c, t + 1);
        if j + 1 < l { VisitsDiffer(n, m, g, x, y, c, t + 1, j + 1); }
      }
    }
    var next := j + 1;
    forall q | 0 <= q < n + m && q != c && Unvisited(n, m, c, next, q) ensures b[s + q] == before[s + q] {
      assert Unvisited(n, m, c, j, q);
    }
  }

  /** The first `i` cycles are done: their elements are in place, the rest untouched. */
  ghost predicate CyclesDone<T(!new)>(a: seq<T>, a0: seq<T>, s: int, n: int, m: int, g: int, i: int)
    requires 0 < n && 0 < m && 0 < g && 0 <= s && s + n + m <= |a| == |a0|
  {
    && (forall q | 0 <= q < |a| && !(s <= q < s + n + m) :: a[q] == a0[q])
    && (forall p | 0 <= p < n + m && p % g < i :: a[s + Moved(n, m, p)] == a0[s + p])
    && (forall q | 0 <= q < n + m && i <= q % g :: a[s + q] == a0[s + q])
  }

  lemma CycleDone<T(!new)>(a: seq<T>, before: seq<T>, a0: seq<T>, s: int, n: int, m: int, g: int, x: int, y: int, i: int)
    requires Blocks(n, m, g, x, y) && 0 <= s && s + n + m <= |a| == |before| == |a0| && 0 <= i < g
    requires CyclesDone(before, a0, s, n, m, g, i) && g <= n && n + i < n + m
    requires InCycle(a, before, s, n, m, n + i, (n + m) / g, (n + m) / g)
    ensures CyclesDone(a, a0, s, n, m, g, i + 1)
  {
    var c := n + i;
    var l, k := CycleLength(n, m, g, x, y);
    ClassOfStart(n, g, i);
    forall q | 0 <= q < n + m && q % g != i ensures a[s + q] == before[s + q] {
      forall t | 0 <= t <= l ensures At(n, m, c, t) != q { VisitsSameClass(n, m, g, x, y, c, t); }
      assert Unvisited(n, m, c, l, q);
    }
    forall p | 0 <= p < n + m && p % g < i + 1 ensures a[s + Moved(n, m, p)] == a0[s + p] {
      MovedSameClass(n, m, g, x, y, p);
      if p % g == i {
        var t := CycleCovers(n, m, g, x, y, c, p);
        ModUnique(c, 0, c, n + m);
        CycleCloses(n, m, g, x, y, c);
        var u := if t == l then 0 else t;
        assert At(n, m, c, u) == p;
        AtNext(n, m, c, u);
        assert Delivered(a, before, s, n, m, c, u);
      }
    }
  }

  lemma ClassOfStart(n: int, g: int, i: int)
    requires Divides(g, n) && 0 <= i < g
    ensures (n + i) % g == i
  {
    var k: int :| n == k * g;
    ModUnique(n + i, k, i, g);
  }

  lemma Exchanged<T(!new)>(a: seq<T>, a0: seq<T>, s: int, n: int, m: int, g: int)
    requires 0 < n && 0 < m && 0 < g && 0 <= s && s + n + m <= |a| == |a0|
    requires CyclesDone(a, a0, s, n, m, g, g)
    ensures a == a0[..s] + a0[s + n..s + n + m] + a0[s..s + n] + a0[s + n + m..]
  {
    var b := a0[..s] + a0[s + n..s + n + m] + a0[s..s + n] + a0[s + n + m..];
    forall q | 0 <= q < |a| ensures a[q] == b[q] {
      if s <= q < s + m {
        assert Moved(n, m, q - s + n) == q - s;
      } else if s + m <= q < s + n + m {
        assert Moved(n, m, q - s - m) == q - s;
      }
    }
  }

  lemma CycleStarts<T(!new)>(a: seq<T>, s: int, n: int, m: int, c: int, l: int)
    requires 0 < n && 0 < m && 0 <= s && s + n + m <= |a| && 0 <= c < n + m
    ensures At(n, m, c, 0) == c && InCycle(a, a, s, n, m, c, l, 0)
  {
    ModUnique(c, 0, c, n + m);
  }

  lemma NoneDone<T(!new)>(a: seq<T>, s: int, n: int, m: int, g: int)
    requires 0 < n && 0 < m && 0 < g && 0 <= s && s + n + m <= |a|
    ensures CyclesDone(a, a, s, n, m, g, 0)
  {
  }

  /** One cycle of swaps through position `cstart`. */
  method RunCycle<T(!new)>(nargv: array<T>, nonoptStart: nat, nonoptEnd: nat, optEnd: nat, cstart: nat, cyclelen: int,
                           ghost g: int, ghost x: int, ghost y: int)
    requires nonoptStart < nonoptEnd <= cstart < optEnd <= nargv.Length
    requires Blocks(nonoptEnd - nonoptStart, optEnd - nonoptEnd, g, x, y)
    requires cyclelen == (optEnd - nonoptStart) / g && 0 < cyclelen
    modifies nargv
    ensures InCycle(nargv[..], old(nargv[..]), nonoptStart, nonoptEnd - nonoptStart, optEnd - nonoptEnd,
                    cstart - nonoptStart, cyclelen, cyclelen)
  {
    hide InCycle, Blocks, At;
    var nnonopts, nopts := nonoptEnd - nonoptStart, optEnd - nonoptEnd;
    var pos: int := cstart;
    ghost var before := nargv[..];
    ghost var c := cstart - nonoptStart;
    CycleStarts(before, nonoptStart, nnonopts, nopts, c, cyclelen);
    var j := 0;
    while j < cyclelen
      invariant 0 <= j <= cyclelen
      invariant pos == nonoptStart + At(nnonopts, nopts, c, j)
      invariant InCycle(nargv[..], before, nonoptStart, nnonopts, nopts, c, cyclelen, j)
    {
      AtInRange(nnonopts, nopts, c, j);
      AtNext(nnonopts, nopts, c, j);
      if pos >= nonoptEnd {
        pos := pos - nnonopts;
      } else {
        pos := pos + nopts;
      }
      ghost var a := nargv[..];
      var swap := nargv[pos];
      nargv[pos] := nargv[cstart];
      nargv[cstart] := swap;
      SwapDelivers(a, nargv[..], before, nonoptStart, nnonopts, nopts, g, x, y, c, j);
      j := j + 1;
    }
  }

  /** Exchanges the block from `nonoptStart` to `nonoptEnd` with the block from
      there to `optEnd`, keeping the order within each. */
  method PermuteArgs<T(!new)>(nargv: array<T>, nonoptStart: nat, nonoptEnd: nat, optEnd: nat)
    requires nonoptStart < nonoptEnd < optEnd <= nargv.Length
    modifies nargv
    ensures nargv[..] == old(nargv[..nonoptStart]) + old(nargv[nonoptEnd..optEnd])
                         + old(nargv[nonoptStart..nonoptEnd]) + old(nargv[optEnd..])
  {
    hide InCycle, CyclesDone;
    var nnonopts: int := nonoptEnd - nonoptStart;
    var nopts: int := optEnd - nonoptEnd;
    ghost var a0 := nargv[..];
    var ncycle, x, y := Gcd(nnonopts, nopts);
    var cyclelen := (optEnd - nonoptStart) / ncycle;
    ghost var l, k := CycleLength(nnonopts, nopts, ncycle, x, y);
    NoneDone(a0, nonoptStart, nnonopts, nopts, ncycle);
    var i := 0;
    while i < ncycle
      invariant 0 <= i <= ncycle
      invariant CyclesDone(nargv[..], a0, nonoptStart, nnonopts, nopts, ncycle, i)
    {
      ghost var before := nargv[..];
      RunCycle(nargv, nonoptStart, nonoptEnd, optEnd, nonoptEnd + i, cyclelen, ncycle, x, y);
      CycleDone(nargv[..], before, a0, nonoptStart, nnonopts, nopts, ncycle, x, y, i);
      i := i + 1;
    }
    Exchanged(nargv[..], a0, nonoptStart, nnonopts, nopts, ncycle);
  }
}
