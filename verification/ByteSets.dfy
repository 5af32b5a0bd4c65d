/** Bit sets held in arrays of bytes, as the generated C code keeps them: the bit
    macros and the byte loops, each proved to be an operation on sets. */
module ByteSets {

  // ---- One byte ----

  /** `1 << k`. */
  function Mask(k: nat): bv8
    requires k < 8
  {
    if k == 0 then 0x01 else if k == 1 then 0x02 else if k == 2 then 0x04 else if k == 3 then 0x08
    else if k == 4 then 0x10 else if k == 5 then 0x20 else if k == 6 then 0x40 else 0x80
  }

  predicate Bit(b: bv8, k: nat)
    requires k < 8
  {
    b & Mask(k) != 0
  }

  lemma OrBit(a: bv8, b: bv8, k: nat)
    requires k < 8
    ensures Bit(a | b, k) <==> Bit(a, k) || Bit(b, k)
  {
  }

  lemma AndBit(a: bv8, b: bv8, k: nat)
    requires k < 8
    ensures Bit(a & b, k) <==> Bit(a, k) && Bit(b, k)
  {
  }

  lemma AndNotBit(a: bv8, b: bv8, k: nat)
    requires k < 8
    ensures Bit(a & !b, k) <==> Bit(a, k) && !Bit(b, k)
  {
  }

  lemma ZeroBit(k: nat)
    requires k < 8
    ensures !Bit(0, k)
  {
  }

  lemma SetBit(a: bv8, j: nat, k: nat)
    requires j < 8 && k < 8
    ensures Bit(a | Mask(j), k) <==> j == k || Bit(a, k)
  {
  }

  lemma ClearBit(a: bv8, j: nat, k: nat)
    requires j < 8 && k < 8
    ensures Bit(a & (Mask(j) ^ 0xFF), k) <==> j != k && Bit(a, k)
  {
  }

  lemma SomeBit(a: bv8) returns (k: nat)
    requires a != 0
    ensures k < 8 && Bit(a, k)
  {
    k := if Bit(a, 0) then 0 else if Bit(a, 1) then 1 else if Bit(a, 2) then 2 else if Bit(a, 3) then 3
         else if Bit(a, 4) then 4 else if Bit(a, 5) then 5 else if Bit(a, 6) then 6 else 7;
  }

  // ---- Bytes as numbers ----

  function Pack(b0: bool, b1: bool, b2: bool, b3: bool, b4: bool, b5: bool, b6: bool, b7: bool): bv8 {
    (if b0 then Mask(0) else 0) | (if b1 then Mask(1) else 0) | (if b2 then Mask(2) else 0) | (if b3 then Mask(3) else 0)
    | (if b4 then Mask(4) else 0) | (if b5 then Mask(5) else 0) | (if b6 then Mask(6) else 0) | (if b7 then Mask(7) else 0)
  }

  lemma PackedBit(b0: bool, b1: bool, b2: bool, b3: bool, b4: bool, b5: bool, b6: bool, b7: bool, k: nat)
    requires k < 8
    ensures Bit(Pack(b0, b1, b2, b3, b4, b5, b6, b7), k)
            == if k == 0 then b0 else if k == 1 then b1 else if k == 2 then b2 else if k == 3 then b3
               else if k == 4 then b4 else if k == 5 then b5 else if k == 6 then b6 else b7
  {
  }

  function Weight(b: bv8, k: nat, w: nat): nat
    requires k < 8
  {
    if Bit(b, k) then w else 0
  }

  /** The number a byte stands for. */
  function Number(b: bv8): nat {
    Weight(b, 0, 1) + Weight(b, 1, 2) + Weight(b, 2, 4) + Weight(b, 3, 8)
    + Weight(b, 4, 16) + Weight(b, 5, 32) + Weight(b, 6, 64) + Weight(b, 7, 128)
  }

  predicate Odd(n: nat) {
    n % 2 == 1
  }

  /** The byte for a number, truncated. */
  function Byte(n: nat): bv8 {
    Pack(Odd(n), Odd(n / 2), Odd(n / 2 / 2), Odd(n / 2 / 2 / 2), Odd(n / 2 / 2 / 2 / 2), Odd(n / 2 / 2 / 2 / 2 / 2),
         Odd(n / 2 / 2 / 2 / 2 / 2 / 2), Odd(n / 2 / 2 / 2 / 2 / 2 / 2 / 2))
  }

  lemma ByteBits(n: nat)
    ensures
      var b := Byte(n);
      && Bit(b, 0) == Odd(n) && Bit(b, 1) == Odd(n / 2) && Bit(b, 2) == Odd(n / 2 / 2) && Bit(b, 3) == Odd(n / 2 / 2 / 2)
      && Bit(b, 4) == Odd(n / 2 / 2 / 2 / 2) && Bit(b, 5) == Odd(n / 2 / 2 / 2 / 2 / 2)
      && Bit(b, 6) == Odd(n / 2 / 2 / 2 / 2 / 2 / 2) && Bit(b, 7) == Odd(n / 2 / 2 / 2 / 2 / 2 / 2 / 2)
  {
    hide Bit, Pack, Odd;
    forall k: nat | k < 8
      ensures Bit(Byte(n), k)
              == if k == 0 then Odd(n) else if k == 1 then Odd(n / 2) else if k == 2 then Odd(n / 2 / 2)
                 else if k == 3 then Odd(n / 2 / 2 / 2) else if k == 4 then Odd(n / 2 / 2 / 2 / 2)
                 else if k == 5 then Odd(n / 2 / 2 / 2 / 2 / 2) else if k == 6 then Odd(n / 2 / 2 / 2 / 2 / 2 / 2)
                 else Odd(n / 2 / 2 / 2 / 2 / 2 / 2 / 2)
    {
      PackedBit(Odd(n), Odd(n / 2), Odd(n / 2 / 2), Odd(n / 2 / 2 / 2), Odd(n / 2 / 2 / 2 / 2), Odd(n / 2 / 2 / 2 / 2 / 2),
                Odd(n / 2 / 2 / 2 / 2 / 2 / 2), Odd(n / 2 / 2 / 2 / 2 / 2 / 2 / 2), k);
    }
  }

  function Digit(b: bool): nat {
    if b then 1 else 0
  }

  /** Halving a number eight times, the remainders are its binary digits. */
  lemma DigitsSum(n: nat)
    requires n < 256
    ensures
      Digit(Odd(n)) + 2 * Digit(Odd(n / 2)) + 4 * Digit(Odd(n / 2 / 2)) + 8 * Digit(Odd(n / 2 / 2 / 2))
      + 16 * Digit(Odd(n / 2 / 2 / 2 / 2)) + 32 * Digit(Odd(n / 2 / 2 / 2 / 2 / 2))
      + 64 * Digit(Odd(n / 2 / 2 / 2 / 2 / 2 / 2)) + 128 * Digit(Odd(n / 2 / 2 / 2 / 2 / 2 / 2 / 2))
      == n
  {
    hide Odd, Digit;
    var m := n / 2 / 2 / 2 / 2;
    LowDigits(n);
    LowDigits(m);
    assert m < 16;
    assert m / 2 / 2 / 2 / 2 == 0;
  }

  /** The four lowest digits. */
  lemma LowDigits(n: nat)
    ensures
      n == 16 * (n / 2 / 2 / 2 / 2)
           + Digit(Odd(n)) + 2 * Digit(Odd(n / 2)) + 4 * Digit(Odd(n / 2 / 2)) + 8 * Digit(Odd(n / 2 / 2 / 2))
  {
    LowestDigit(n);
    LowestDigit(n / 2);
    LowestDigit(n / 2 / 2);
    LowestDigit(n / 2 / 2 / 2);
  }

  lemma LowestDigit(n: nat)
    ensures n == 2 * (n / 2) + Digit(Odd(n))
  {
  }

  /** A number below 256 is what its byte stands for. */
  lemma ByteBack(n: nat)
    requires n < 256
    ensures Number(Byte(n)) == n
  {
    hide Bit, Byte, Odd;
    ByteBits(n);
    DigitsSum(n);
  }

  // ---- Sets ----

  /** The set the first `n` bytes stand for. */
  function Members(s: seq<bv8>, n: nat): set<nat>
    requires n <= |s|
  {
    set x: nat | x < 8 * n && Bit(s[x / 8], x % 8)
  }

  /** The number of bytes for `n` bits. */
  function BytesFor(n: nat): (r: nat)
    ensures n <= 8 * r < n + 8
  {
    (n + 7) / 8
  }

  lemma MembersOr(s: seq<bv8>, t: seq<bv8>, r: seq<bv8>, n: nat)
    requires n <= |s| && n <= |t| && n <= |r|
    requires forall j: nat | j < n :: r[j] == s[j] | t[j]
    ensures Members(r, n) == Members(s, n) + Members(t, n)
  {
    hide Bit;
    forall x: nat | x < 8 * n ensures x in Members(r, n) <==> x in Members(s, n) || x in Members(t, n) {
      OrBit(s[x / 8], t[x / 8], x % 8);
    }
  }

  lemma MembersAnd(s: seq<bv8>, t: seq<bv8>, r: seq<bv8>, n: nat)
    requires n <= |s| && n <= |t| && n <= |r|
    requires forall j: nat | j < n :: r[j] == s[j] & t[j]
    ensures Members(r, n) == Members(s, n) * Members(t, n)
  {
    hide Bit;
    forall x: nat | x < 8 * n ensures x in Members(r, n) <==> x in Members(s, n) && x in Members(t, n) {
      AndBit(s[x / 8], t[x / 8], x % 8);
    }
  }

  lemma MembersAndNot(s: seq<bv8>, t: seq<bv8>, r: seq<bv8>, n: nat)
    requires n <= |s| && n <= |t| && n <= |r|
    requires forall j: nat | j < n :: r[j] == s[j] & !t[j]
    ensures Members(r, n) == Members(s, n) - Members(t, n)
  {
    hide Bit;
    forall x: nat | x < 8 * n ensures x in Members(r, n) <==> x in Members(s, n) && x !in Members(t, n) {
      AndNotBit(s[x / 8], t[x / 8], x % 8);
    }
  }

  /** Two sets meet exactly if two bytes do. */
  lemma MembersMeet(s: seq<bv8>, t: seq<bv8>, n: nat)
    requires n <= |s| && n <= |t|
    ensures Members(s, n) * Members(t, n) == {} <==> forall j: nat | j < n :: s[j] & t[j] == 0
  {
    hide Bit;
    if j: nat :| j < n && s[j] & t[j] != 0 {
      var k := SomeBit(s[j] & t[j]);
      AndBit(s[j], t[j], k);
      var x := 8 * j + k;
      assert x / 8 == j && x % 8 == k;
      assert x in Members(s, n) * Members(t, n);
    } else {
      forall x: nat | x < 8 * n ensures !(x in Members(s, n) && x in Members(t, n)) {
        AndBit(s[x / 8], t[x / 8], x % 8);
        assert !Bit(0, x % 8) by { ZeroBit(x % 8); }
      }
      assert Members(s, n) * Members(t, n) == {};
    }
  }

  // ---- The macros ----

  method BitHas(idx: nat, a: array<bv8>, n: nat) returns (has: bool)
    requires n <= a.Length && idx < 8 * n
    ensures has <==> idx in Members(a[..], n)
  {
    has := a[idx / 8] & Mask(idx % 8) != 0;
  }

  /** Whether a bit is set in a constant table. */
  method BitHasIn(idx: nat, s: seq<bv8>, n: nat) returns (has: bool)
    requires n <= |s| && idx < 8 * n
    ensures has <==> idx in Members(s, n)
  {
    has := s[idx / 8] & Mask(idx % 8) != 0;
  }

  method BitSetAt(idx: nat, a: array<bv8>, n: nat)
    requires n <= a.Length && idx < 8 * n
    modifies a
    ensures Members(a[..], n) == old(Members(a[..], n)) + {idx}
  {
    ghost var before := a[..];
    a[idx / 8] := a[idx / 8] | Mask(idx % 8);
    hide Bit;
    forall x: nat | x < 8 * n ensures x in Members(a[..], n) <==> x in Members(before, n) || x == idx {
      SetBit(before[idx / 8], idx % 8, x % 8);
    }
  }

  method BitClear(idx: nat, a: array<bv8>, n: nat)
    requires n <= a.Length && idx < 8 * n
    modifies a
    ensures Members(a[..], n) == old(Members(a[..], n)) - {idx}
  {
    ghost var before := a[..];
    a[idx / 8] := a[idx / 8] & (Mask(idx % 8) ^ 0xFF);
    hide Bit;
    forall x: nat | x < 8 * n ensures x in Members(a[..], n) <==> x in Members(before, n) && x != idx {
      ClearBit(before[idx / 8], idx % 8, x % 8);
    }
  }

  // ---- The loops ----

  method BitHasAnd(a: seq<bv8>, b: seq<bv8>, n: nat) returns (has: bool)
    requires n <= |a| && n <= |b|
    ensures has <==> Members(a, n) * Members(b, n) != {}
  {
    MembersMeet(a, b, n);
    var i: nat := n;
    while i > 0
      invariant i <= n && forall j: nat | i <= j < n :: a[j] & b[j] == 0
    {
      i := i - 1;
      if a[i] & b[i] != 0 {
        return true;
      }
    }
    has := false;
  }

  method BitClearAll(a: array<bv8>, n: nat)
    requires n <= a.Length
    modifies a
    ensures Members(a[..], n) == {}
  {
    var i: nat := n;
    while i > 0
      invariant i <= n && forall j: nat | i <= j < n :: a[j] == 0
    {
      i := i - 1;
      a[i] := 0;
    }
    forall x: nat | x < 8 * n ensures x !in Members(a[..], n) {
      ZeroBit(x % 8);
    }
  }

  method BitOr(dest: array<bv8>, mask: seq<bv8>, n: nat)
    requires n <= dest.Length && n <= |mask|
    modifies dest
    ensures Members(dest[..], n) == old(Members(dest[..], n)) + Members(mask, n)
  {
    var i: nat := n;
    while i > 0
      invariant i <= n && forall j: nat | i <= j < n :: dest[j] == old(dest[j]) | mask[j]
      invariant forall j: nat | j < i :: dest[j] == old(dest[j])
    {
      i := i - 1;
      dest[i] := dest[i] | mask[i];
    }
    MembersOr(old(dest[..]), mask, dest[..], n);
  }

  method BitCopy(dest: array<bv8>, source: seq<bv8>, n: nat)
    requires n <= dest.Length && n <= |source|
    modifies dest
    ensures Members(dest[..], n) == Members(source, n)
  {
    var i: nat := n;
    while i > 0
      invariant i <= n && forall j: nat | i <= j < n :: dest[j] == source[j]
    {
      i := i - 1;
      dest[i] := source[i];
    }
    assert forall x: nat | x < 8 * n :: x in Members(dest[..], n) <==> x in Members(source, n);
  }

  method BitAndNot(dest: array<bv8>, mask: seq<bv8>, n: nat)
    requires n <= dest.Length && n <= |mask|
    modifies dest
    ensures Members(dest[..], n) == old(Members(dest[..], n)) - Members(mask, n)
  {
    var i: nat := n;
    while i > 0
      invariant i <= n && forall j: nat | i <= j < n :: dest[j] == old(dest[j]) & !mask[j]
      invariant forall j: nat | j < i :: dest[j] == old(dest[j])
    {
      i := i - 1;
      dest[i] := dest[i] & !mask[i];
    }
    MembersAndNot(old(dest[..]), mask, dest[..], n);
  }

  method BitAnd(dest: array<bv8>, mask: seq<bv8>, n: nat)
    requires n <= dest.Length && n <= |mask|
    modifies dest
    ensures Members(dest[..], n) == old(Members(dest[..], n)) * Members(mask, n)
  {
    var i: nat := n;
    while i > 0
      invariant i <= n && forall j: nat | i <= j < n :: dest[j] == old(dest[j]) & mask[j]
      invariant forall j: nat | j < i :: dest[j] == old(dest[j])
    {
      i := i - 1;
      dest[i] := dest[i] & mask[i];
    }
    MembersAnd(old(dest[..]), mask, dest[..], n);
  }
}
