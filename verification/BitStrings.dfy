/** The bit sets of the interpreter as text: their blocks, an appended word that
    holds the length, and base64 around both. */
module BitStrings {
  import opened ByteSets
  import opened Base64

  type Bits = seq<bool>

  const WORD: nat := 8

  /** The number of lengths a block can hold. */
  const LIMIT: nat := 0x1_0000_0000_0000_0000

  predicate Has(bits: Bits, x: nat) {
    x < |bits| && bits[x]
  }

  /** Byte `i` of the blocks, its lowest bit first. */
  function ByteAt(bits: Bits, i: nat): bv8 {
    Pack(Has(bits, 8 * i), Has(bits, 8 * i + 1), Has(bits, 8 * i + 2), Has(bits, 8 * i + 3),
         Has(bits, 8 * i + 4), Has(bits, 8 * i + 5), Has(bits, 8 * i + 6), Has(bits, 8 * i + 7))
  }

  /** Blocks of 64 bits, as many as are needed. */
  function BlockCount(n: nat): nat {
    (n + 63) / 64
  }

  function Blocks(bits: Bits): (r: Bytes)
    ensures |r| == WORD * BlockCount(|bits|)
  {
    seq(WORD * BlockCount(|bits|), (i: nat) => ByteAt(bits, i))
  }

  /** A bit set of `n` bits from its blocks: missing bits are clear, others dropped. */
  function FromBlocks(blocks: Bytes, n: nat): (r: Bits)
    ensures |r| == n
  {
    seq(n, (x: nat) => x / 8 < |blocks| && Bit(blocks[x / 8], x % 8))
  }

  /** The lowest `k` bytes of a number, lowest first. */
  function ToWord(n: nat, k: nat): (r: Bytes)
    ensures |r| == k
    decreases k
  {
    if k == 0 then [] else [Byte(n % 256)] + ToWord(n / 256, k - 1)
  }

  function FromWord(w: Bytes): nat {
    if w == [] then 0 else Number(w[0]) + 256 * FromWord(w[1..])
  }

  function Power(k: nat): (r: nat)
    ensures r > 0
  {
    if k == 0 then 1 else 256 * Power(k - 1)
  }

  lemma WordEmpty()
    ensures FromWord([]) == 0
  {
  }

  lemma WordFront(b: bv8, w: Bytes)
    ensures FromWord([b] + w) == Number(b) + 256 * FromWord(w)
  {
    assert ([b] + w)[1..] == w;
  }

  lemma {:induction false} WordRoundTrip(n: nat, k: nat)
    requires n < Power(k)
    ensures FromWord(ToWord(n, k)) == n
    decreases k
  {
    hide FromWord, Number, Byte;
    if k > 0 {
      WordRoundTrip(n / 256, k - 1);
      WordFront(Byte(n % 256), ToWord(n / 256, k - 1));
      ByteBack(n % 256);
    } else {
      WordEmpty();
    }
  }

  lemma LimitIsPower()
    ensures Power(WORD) == LIMIT
  {
    assert Power(4) == 0x1_0000_0000;
    assert Power(8) == 256 * Power(7) == 65536 * Power(6) == 65536 * 256 * Power(5);
  }

  lemma ByteHas(bits: Bits, i: nat, k: nat)
    requires k < 8
    ensures Bit(ByteAt(bits, i), k) == Has(bits, 8 * i + k)
  {
    hide Bit, Pack, Has;
    PackedBit(Has(bits, 8 * i), Has(bits, 8 * i + 1), Has(bits, 8 * i + 2), Has(bits, 8 * i + 3),
              Has(bits, 8 * i + 4), Has(bits, 8 * i + 5), Has(bits, 8 * i + 6), Has(bits, 8 * i + 7), k);
  }

  /** The blocks hold the bits. */
  lemma BlocksRoundTrip(bits: Bits)
    ensures FromBlocks(Blocks(bits), |bits|) == bits
  {
    hide Bit, ByteAt;
    forall x: nat | x < |bits| ensures FromBlocks(Blocks(bits), |bits|)[x] == bits[x] {
      ByteHas(bits, x / 8, x % 8);
      assert 8 * (x / 8) + x % 8 == x;
    }
  }

  // ---- Text ----

  datatype Option<T> = None | Some(value: T)

  /** The blocks with the length behind them. */
  function Payload(bits: Bits): Bytes {
    Blocks(bits) + ToWord(|bits| % LIMIT, WORD)
  }

  function ToBase64(bits: Bits): Bytes {
    Lined(Payload(bits), 0)
  }

  /** Refuses what does not decode to whole blocks. */
  function FromBase64(text: Bytes, beyond: bv8): Option<Bits> {
    var decoded := Decode(DECODE_START, text, beyond).1;
    if |decoded| % WORD != 0 || decoded == [] then None
    else
      var last := |decoded| - WORD;
      Some(FromBlocks(decoded[..last], FromWord(decoded[last..])))
  }

  /** Every bit set whose length fits into a block is read back as it was written. */
  lemma BitStringRoundTrip(bits: Bits, beyond: bv8)
    requires |bits| < LIMIT
    ensures FromBase64(ToBase64(bits), beyond) == Some(bits)
  {
    hide Decode, Lined, ToWord, FromWord, FromBlocks;
    LinedDecodes(Payload(bits), beyond);
    BlocksRoundTrip(bits);
    LimitIsPower();
    WordRoundTrip(|bits|, WORD);
    var p := Payload(bits);
    var last := |p| - WORD;
    assert p[..last] == Blocks(bits) && p[last..] == ToWord(|bits|, WORD);
  }

  // ---- Sets ----

  function BitsOf(s: set<nat>, n: nat): (r: Bits)
    ensures |r| == n
  {
    seq(n, (i: nat) => i in s)
  }

  function SetOf(bits: Bits): set<nat> {
    set x: nat | x < |bits| && bits[x]
  }

  /** A set of states survives being written and read. */
  lemma SetRoundTrip(s: set<nat>, n: nat, beyond: bv8)
    requires n < LIMIT && forall x | x in s :: x < n
    ensures FromBase64(ToBase64(BitsOf(s, n)), beyond).Some?
    ensures SetOf(FromBase64(ToBase64(BitsOf(s, n)), beyond).value) == s
  {
    hide FromBase64, ToBase64;
    BitStringRoundTrip(BitsOf(s, n), beyond);
  }
}
