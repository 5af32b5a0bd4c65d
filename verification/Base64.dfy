/** Base64 with state carried from block to block: the coder breaks lines after 72
    characters, the decoder skips whatever is not a digit. */
module Base64 {
  type Bytes = seq<bv8>

  const NEWLINE: bv8 := 10
  const PAD: bv8 := 61

  // ---- Digits ----

  /** The digit for a six-bit value. */
  function EncodeValue(v: bv8): bv8 {
    if v > 63 then PAD
    else if v < 26 then v + 65
    else if v < 52 then v + 71
    else if v < 62 then v - 4
    else if v == 62 then 43 else 47
  }

  /** Entry `i` of the table of 80 values; 255 and 254 are the negative ones. */
  function Decoding(i: bv8): bv8
    requires i < 80
  {
    if i == 0 then 62 else if i == 4 then 63
    else if 5 <= i < 15 then i + 47
    else if i == 18 then 254
    else if 22 <= i < 48 then i - 22
    else if 54 <= i then i - 28
    else 255
  }

  /** The value of a character, negative for anything that is no digit.  The range
      check lets one index past the table through: `beyond` is what is read there. */
  function DecodeValue(ch: bv8, beyond: bv8): bv8 {
    var i := ch - 43;
    if i >= 0x80 || i > 80 then 255
    else if i == 80 then beyond
    else Decoding(i)
  }

  predicate Negative(v: bv8) {
    v >= 0x80
  }

  lemma DigitInverse(v: bv8, beyond: bv8)
    requires v <= 63
    ensures DecodeValue(EncodeValue(v), beyond) == v && !Negative(v)
    ensures EncodeValue(v) != NEWLINE && EncodeValue(v) != PAD
  {
  }

  lemma NoDigits(beyond: bv8)
    ensures Negative(DecodeValue(NEWLINE, beyond)) && Negative(DecodeValue(PAD, beyond))
  {
  }

  // ---- Six bits of bytes, and back ----

  predicate Digit(v: bv8) {
    v <= 63
  }

  function First(b: bv8): bv8 { (b & 0xFC) >> 2 }
  function FirstRest(b: bv8): bv8 { (b & 0x03) << 4 }
  function Second(r: bv8, b: bv8): bv8 { r | ((b & 0xF0) >> 4) }
  function SecondRest(b: bv8): bv8 { (b & 0x0F) << 2 }
  function Third(r: bv8, b: bv8): bv8 { r | ((b & 0xC0) >> 6) }
  function Fourth(b: bv8): bv8 { b & 0x3F }

  function Start(v: bv8): bv8 { (v & 0x3F) << 2 }
  function Fill1(p: bv8, v: bv8): bv8 { p | ((v & 0x30) >> 4) }
  function Keep1(v: bv8): bv8 { (v & 0x0F) << 4 }
  function Fill2(p: bv8, v: bv8): bv8 { p | ((v & 0x3C) >> 2) }
  function Keep2(v: bv8): bv8 { (v & 0x03) << 6 }
  function Fill3(p: bv8, v: bv8): bv8 { p | (v & 0x3F) }

  lemma DigitA(b: bv8)
    ensures Digit(First(b)) && Digit(FirstRest(b))
    ensures Fill1(Start(First(b)), FirstRest(b)) == b
  {
  }

  lemma DigitB(r: bv8, b: bv8)
    ensures Digit(Second(FirstRest(r), b)) && Digit(SecondRest(b))
    ensures Fill1(Start(First(r)), Second(FirstRest(r), b)) == r
    ensures Keep1(Second(FirstRest(r), b)) == Keep1(Second(0, b))
    ensures Fill2(Keep1(Second(0, b)), SecondRest(b)) == b
  {
  }

  lemma DigitC(r: bv8, b: bv8)
    ensures Digit(Third(SecondRest(r), b)) && Digit(Fourth(b))
    ensures Fill2(Keep1(Second(0, r)), Third(SecondRest(r), b)) == r
    ensures Fill3(Keep2(Third(SecondRest(r), b)), Fourth(b)) == b
  {
  }

  // ---- Coding one byte ----

  datatype EncodeStep = StepA | StepB | StepC

  datatype EncodeState = EncodeState(step: EncodeStep, result: bv8, stepcount: int)

  const ENCODE_START := EncodeState(StepA, 0, 0)

  const GROUPS_PER_LINE := 18

  function EncodeByte(st: EncodeState, b: bv8): (EncodeState, Bytes) {
    match st.step
    case StepA => (EncodeState(StepB, FirstRest(b), st.stepcount), [EncodeValue(First(b))])
    case StepB => (EncodeState(StepC, SecondRest(b), st.stepcount), [EncodeValue(Second(st.result, b))])
    case StepC =>
      var broken := st.stepcount + 1 == GROUPS_PER_LINE;
      (EncodeState(StepA, Fourth(b), if broken then 0 else st.stepcount + 1),
       [EncodeValue(Third(st.result, b)), EncodeValue(Fourth(b))] + if broken then [NEWLINE] else [])
  }

  function Encode(st: EncodeState, s: Bytes): (EncodeState, Bytes)
    decreases |s|
  {
    if s == [] then (st, [])
    else
      var (st', out) := Encode(st, s[..|s| - 1]);
      var (st'', last) := EncodeByte(st', s[|s| - 1]);
      (st'', out + last)
  }

  function EncodeEnd(st: EncodeState): Bytes {
    match st.step
    case StepA => [NEWLINE]
    case StepB => [EncodeValue(st.result), PAD, PAD, NEWLINE]
    case StepC => [EncodeValue(st.result), PAD, NEWLINE]
  }

  // ---- Decoding one character ----

  datatype DecodeStep = StepD0 | StepD1 | StepD2 | StepD3

  datatype DecodeState = DecodeState(step: DecodeStep, plainchar: bv8)

  const DECODE_START := DecodeState(StepD0, 0)

  function DecodeChar(st: DecodeState, ch: bv8, beyond: bv8): (DecodeState, Bytes) {
    var fragment := DecodeValue(ch, beyond);
    if Negative(fragment) then (st, [])
    else
      match st.step
      case StepD0 => (DecodeState(StepD1, Start(fragment)), [])
      case StepD1 => (DecodeState(StepD2, Keep1(fragment)), [Fill1(st.plainchar, fragment)])
      case StepD2 => (DecodeState(StepD3, Keep2(fragment)), [Fill2(st.plainchar, fragment)])
      case StepD3 => (DecodeState(StepD0, Fill3(st.plainchar, fragment)), [Fill3(st.plainchar, fragment)])
  }

  function Decode(st: DecodeState, s: Bytes, beyond: bv8): (DecodeState, Bytes)
    decreases |s|
  {
    if s == [] then (st, [])
    else
      var (st', out) := Decode(st, s[..|s| - 1], beyond);
      var (st'', last) := DecodeChar(st', s[|s| - 1], beyond);
      (st'', out + last)
  }

  // ---- Chunks ----

  lemma EncodeSnoc(st: EncodeState, s: Bytes, b: bv8)
    ensures
      var (st', out) := Encode(st, s);
      Encode(st, s + [b]) == (EncodeByte(st', b).0, out + EncodeByte(st', b).1)
  {
    hide EncodeByte;
    assert (s + [b])[..|s|] == s;
  }

  lemma Appended(s: Bytes, t: Bytes, last: Bytes)
    ensures s + t + last == s + (t + last)
  {
  }

  /** Coding in two blocks is coding in one. */
  lemma {:induction false} EncodeChunks(st: EncodeState, s: Bytes, t: Bytes)
    ensures
      var (st1, out1) := Encode(st, s);
      var (st2, out2) := Encode(st1, t);
      Encode(st, s + t) == (st2, out1 + out2)
    decreases |t|
  {
    hide EncodeByte;
    if t == [] {
      assert s + t == s;
      assert Encode(st, s).1 + [] == Encode(st, s).1;
    } else {
      var init, b := t[..|t| - 1], t[|t| - 1];
      EncodeChunks(st, s, init);
      var (st1, out1) := Encode(st, s);
      var (st2, out2) := Encode(st1, init);
      Appended(s, init, [b]);
      assert s + t == s + init + [b];
      EncodeSnoc(st, s + init, b);
      Appended(out1, out2, EncodeByte(st2, b).1);
    }
  }

  /** Decoding in two blocks is decoding in one. */
  lemma {:induction false} DecodeChunks(st: DecodeState, s: Bytes, t: Bytes, beyond: bv8)
    ensures
      var (st1, out1) := Decode(st, s, beyond);
      var (st2, out2) := Decode(st1, t, beyond);
      Decode(st, s + t, beyond) == (st2, out1 + out2)
    decreases |t|
  {
    hide DecodeChar;
    if t == [] {
      assert s + t == s;
      assert Decode(st, s, beyond).1 + [] == Decode(st, s, beyond).1;
    } else {
      var init, ch := t[..|t| - 1], t[|t| - 1];
      DecodeChunks(st, s, init, beyond);
      var (st1, out1) := Decode(st, s, beyond);
      var (st2, out2) := Decode(st1, init, beyond);
      Appended(s, init, [ch]);
      assert s + t == s + init + [ch];
      assert (s + init + [ch])[..|s + init|] == s + init;
      Appended(out1, out2, DecodeChar(st2, ch, beyond).1);
    }
  }

  // ---- Round trip ----

  /** Where the decoder stands when it has read what the coder has written. */
  predicate InStep(s: Bytes, e: EncodeState, d: DecodeState, out: Bytes) {
    match e.step
    case StepA => d.step == StepD0 && out == s
    case StepB => s != [] && d.step == StepD1 && out == s[..|s| - 1]
                  && d.plainchar == Start(First(s[|s| - 1])) && e.result == FirstRest(s[|s| - 1])
    case StepC => s != [] && d.step == StepD2 && out == s[..|s| - 1]
                  && d.plainchar == Keep1(Second(0, s[|s| - 1])) && e.result == SecondRest(s[|s| - 1])
  }

  /** The decoder after one digit more. */
  lemma DecodeDigit(code: Bytes, v: bv8, beyond: bv8)
    requires Digit(v)
    ensures
      var (st, out) := Decode(DECODE_START, code, beyond);
      Decode(DECODE_START, code + [EncodeValue(v)], beyond) ==
      match st.step
      case StepD0 => (DecodeState(StepD1, Start(v)), out)
      case StepD1 => (DecodeState(StepD2, Keep1(v)), out + [Fill1(st.plainchar, v)])
      case StepD2 => (DecodeState(StepD3, Keep2(v)), out + [Fill2(st.plainchar, v)])
      case StepD3 => (DecodeState(StepD0, Fill3(st.plainchar, v)), out + [Fill3(st.plainchar, v)])
  {
    DigitInverse(v, beyond);
    hide EncodeValue, DecodeValue, Negative, Start, Fill1, Keep1, Fill2, Keep2, Fill3, Digit;
    assert (code + [EncodeValue(v)])[..|code|] == code;
    var out := Decode(DECODE_START, code, beyond).1;
    assert out + [] == out;
  }

  /** Padding and line breaks add nothing to what is decoded. */
  lemma {:induction false} DecodeSkips(code: Bytes, tail: Bytes, beyond: bv8)
    requires forall k: nat | k < |tail| :: tail[k] == NEWLINE || tail[k] == PAD
    ensures Decode(DECODE_START, code + tail, beyond) == Decode(DECODE_START, code, beyond)
    decreases |tail|
  {
    if tail == [] {
      assert code + tail == code;
    } else {
      var init, ch := tail[..|tail| - 1], tail[|tail| - 1];
      NoDigits(beyond);
      hide DecodeValue, Negative;
      assert Negative(DecodeValue(ch, beyond));
      DecodeSkips(code, init, beyond);
      assert (code + tail)[..|code + tail| - 1] == code + init;
      var out := Decode(DECODE_START, code, beyond).1;
      assert out + [] == out;
    }
  }

  lemma BeginsGroup(r: Bytes, b: bv8, e: EncodeState, code: Bytes, beyond: bv8)
    requires e.step == StepA
    requires
      var (d, out) := Decode(DECODE_START, code, beyond);
      InStep(r, e, d, out)
    ensures
      var (e', last) := EncodeByte(e, b);
      var (d', out') := Decode(DECODE_START, code + last, beyond);
      InStep(r + [b], e', d', out')
  {
    hide EncodeValue, Decode, Digit, First, FirstRest, Start;
    DigitA(b);
    DecodeDigit(code, First(b), beyond);
  }

  lemma ContinuesGroup(r: Bytes, b: bv8, e: EncodeState, code: Bytes, beyond: bv8)
    requires e.step == StepB
    requires
      var (d, out) := Decode(DECODE_START, code, beyond);
      InStep(r, e, d, out)
    ensures
      var (e', last) := EncodeByte(e, b);
      var (d', out') := Decode(DECODE_START, code + last, beyond);
      InStep(r + [b], e', d', out')
  {
    hide EncodeValue, Decode, Digit, First, FirstRest, Second, SecondRest, Start, Fill1, Keep1;
    DigitB(r[|r| - 1], b);
    DecodeDigit(code, Second(e.result, b), beyond);
    assert r[..|r| - 1] + [r[|r| - 1]] == r;
  }

  lemma CompletesGroup(r: Bytes, b: bv8, e: EncodeState, code: Bytes, beyond: bv8)
    requires e.step == StepC
    requires
      var (d, out) := Decode(DECODE_START, code, beyond);
      InStep(r, e, d, out)
    ensures
      var (e', last) := EncodeByte(e, b);
      var (d', out') := Decode(DECODE_START, code + last, beyond);
      InStep(r + [b], e', d', out')
  {
    hide EncodeValue, Decode, Digit, Second, SecondRest, Keep1, Keep2, Fill2, Fill3, Third, Fourth;
    DigitC(r[|r| - 1], b);
    var v := Third(e.result, b);
    var c1, c2 := EncodeValue(v), EncodeValue(Fourth(b));
    DecodeDigit(code, v, beyond);
    DecodeDigit(code + [c1], Fourth(b), beyond);
    DecodeSkips(code + [c1] + [c2], [NEWLINE], beyond);
    assert code + ([c1, c2] + [NEWLINE]) == code + [c1] + [c2] + [NEWLINE];
    assert code + ([c1, c2] + []) == code + [c1] + [c2];
    assert r[..|r| - 1] + [r[|r| - 1]] + [b] == r + [b];
  }

  /** The coder and the decoder keep in step. */
  lemma {:induction false} StaysInStep(s: Bytes, beyond: bv8)
    ensures
      var (e, code) := Encode(ENCODE_START, s);
      var (d, out) := Decode(DECODE_START, code, beyond);
      InStep(s, e, d, out)
    decreases |s|
  {
    if s != [] {
      hide EncodeByte, Decode, InStep;
      var r, b := s[..|s| - 1], s[|s| - 1];
      StaysInStep(r, beyond);
      var (e, code) := Encode(ENCODE_START, r);
      assert s == r + [b];
      match e.step
      case StepA => BeginsGroup(r, b, e, code, beyond);
      case StepB => ContinuesGroup(r, b, e, code, beyond);
      case StepC => CompletesGroup(r, b, e, code, beyond);
    } else {
      assert Decode(DECODE_START, [], beyond) == (DECODE_START, []);
    }
  }

  /** Whatever is coded and closed decodes to itself, with or without the final
      line break. */
  lemma RoundTrip(s: Bytes, beyond: bv8)
    ensures
      var (e, code) := Encode(ENCODE_START, s);
      var end := EncodeEnd(e);
      && Decode(DECODE_START, code + end, beyond).1 == s
      && Decode(DECODE_START, code + end[..|end| - 1], beyond).1 == s
  {
    hide EncodeValue, Decode, Digit, First, FirstRest, Second, SecondRest, Start, Fill1, Keep1, Fill2, Encode;
    StaysInStep(s, beyond);
    var (e, code) := Encode(ENCODE_START, s);
    var end := EncodeEnd(e);
    if e.step == StepA {
      Closed(code, [], beyond);
      assert end[..0] == [] && [] + [NEWLINE] == end && code + [] == code;
    } else {
      if e.step == StepB { DigitA(s[|s| - 1]); } else { DigitB(0, s[|s| - 1]); }
      var digit := EncodeValue(e.result);
      DecodeDigit(code, e.result, beyond);
      var pads := end[1..|end| - 1];
      Closed(code + [digit], pads, beyond);
      assert code + end == code + [digit] + (pads + [NEWLINE]);
      assert code + end[..|end| - 1] == code + [digit] + pads;
      assert s[..|s| - 1] + [s[|s| - 1]] == s;
    }
  }

  lemma Closed(code: Bytes, pads: Bytes, beyond: bv8)
    requires forall k: nat | k < |pads| :: pads[k] == PAD
    ensures Decode(DECODE_START, code + pads, beyond) == Decode(DECODE_START, code, beyond)
    ensures Decode(DECODE_START, code + (pads + [NEWLINE]), beyond) == Decode(DECODE_START, code, beyond)
  {
    DecodeSkips(code, pads, beyond);
    DecodeSkips(code, pads + [NEWLINE], beyond);
  }

  // ---- What the text looks like: section 4 of RFC 4648, with line breaks ----

  /** Three bytes as one 24-bit group. */
  function Group(a: bv8, b: bv8, c: bv8): bv24 {
    ((a as bv24) << 16) | ((b as bv24) << 8) | (c as bv24)
  }

  function Sextets(g: bv24): (bv8, bv8, bv8, bv8) {
    (((g >> 18) & 63) as bv8, ((g >> 12) & 63) as bv8, ((g >> 6) & 63) as bv8, (g & 63) as bv8)
  }

  lemma GroupSextets(a: bv8, b: bv8, c: bv8)
    ensures Sextets(Group(a, b, c)) == (First(a), Second(FirstRest(a), b), Third(SecondRest(b), c), Fourth(c))
    ensures Second(FirstRest(a), 0) == FirstRest(a) && Third(SecondRest(b), 0) == SecondRest(b)
  {
  }

  /** The four digits of a group. */
  function Quad(a: bv8, b: bv8, c: bv8): (r: Bytes)
    ensures |r| == 4 && forall k: nat | k < 4 :: r[k] != NEWLINE
  {
    var x := Sextets(Group(a, b, c));
    [EncodeValue(x.0), EncodeValue(x.1), EncodeValue(x.2), EncodeValue(x.3)]
  }

  lemma QuadDigits(a: bv8, b: bv8, c: bv8)
    ensures Quad(a, b, c)
            == [EncodeValue(First(a)), EncodeValue(Second(FirstRest(a), b)), EncodeValue(Third(SecondRest(b), c)), EncodeValue(Fourth(c))]
    ensures Quad(a, 0, 0)[..2] == [EncodeValue(First(a)), EncodeValue(FirstRest(a))]
    ensures Quad(a, b, 0)[..3] == [EncodeValue(First(a)), EncodeValue(Second(FirstRest(a), b)), EncodeValue(SecondRest(b))]
  {
    hide EncodeValue, First, Second, Third, Fourth, FirstRest, SecondRest, Sextets, Group;
    GroupSextets(a, b, c);
    GroupSextets(a, 0, 0);
    GroupSextets(a, b, 0);
  }

  /** Groups of four digits, padded at the end, with a line break after every 18
      whole groups; `k` groups stand on the line already. */
  function Lined(s: Bytes, k: nat): Bytes
    decreases |s|
  {
    if |s| == 0 then []
    else if |s| == 1 then Quad(s[0], 0, 0)[..2] + [PAD, PAD]
    else if |s| == 2 then Quad(s[0], s[1], 0)[..3] + [PAD]
    else if k + 1 == GROUPS_PER_LINE then Quad(s[0], s[1], s[2]) + [NEWLINE] + Lined(s[3..], 0)
    else Quad(s[0], s[1], s[2]) + Lined(s[3..], k + 1)
  }

  /** Coding and closing writes exactly the lined groups and a line break. */
  lemma {:induction false} EncodeIsLined(s: Bytes, result: bv8, k: nat)
    requires k < GROUPS_PER_LINE
    ensures
      var (e, code) := Encode(EncodeState(StepA, result, k), s);
      code + EncodeEnd(e) == Lined(s, k) + [NEWLINE]
    decreases |s|
  {
    hide Encode, Quad, EncodeEnd, Fourth;
    var st := EncodeState(StepA, result, k);
    if |s| < 3 {
      ShortLined(s, st);
    } else {
      EncodeGroup(st, s[0], s[1], s[2]);
      assert s == s[..3] + s[3..] && s[..3] == [s[0], s[1], s[2]];
      EncodeChunks(st, s[..3], s[3..]);
      var (e1, code1) := Encode(st, s[..3]);
      EncodeIsLined(s[3..], e1.result, e1.stepcount);
      var (e2, code2) := Encode(e1, s[3..]);
      Appended(code1, code2, EncodeEnd(e2));
      Appended(code1, Lined(s[3..], e1.stepcount), [NEWLINE]);
    }
  }

  lemma EncodeGroup(st: EncodeState, a: bv8, b: bv8, c: bv8)
    requires st.step == StepA
    ensures
      var broken := st.stepcount + 1 == GROUPS_PER_LINE;
      Encode(st, [a, b, c]) ==
      (EncodeState(StepA, Fourth(c), if broken then 0 else st.stepcount + 1),
       if broken then Quad(a, b, c) + [NEWLINE] else Quad(a, b, c))
  {
    hide EncodeValue, First, Second, Third, Fourth, FirstRest, SecondRest, Quad, Encode;
    EncodePair(st, a, b);
    QuadDigits(a, b, c);
    EncodeSnoc(st, [a, b], c);
    assert [a, b] + [c] == [a, b, c];
    var d1, d2 := EncodeValue(First(a)), EncodeValue(Second(FirstRest(a), b));
    var d3, d4 := EncodeValue(Third(SecondRest(b), c)), EncodeValue(Fourth(c));
    assert [d1, d2] + ([d3, d4] + [NEWLINE]) == [d1, d2, d3, d4] + [NEWLINE];
    assert [d1, d2] + ([d3, d4] + []) == [d1, d2, d3, d4];
  }

  lemma EncodePair(st: EncodeState, a: bv8, b: bv8)
    requires st.step == StepA
    ensures Encode(st, [a]) == (EncodeState(StepB, FirstRest(a), st.stepcount), [EncodeValue(First(a))])
    ensures Encode(st, [a, b])
            == (EncodeState(StepC, SecondRest(b), st.stepcount), [EncodeValue(First(a)), EncodeValue(Second(FirstRest(a), b))])
  {
    hide EncodeValue, First, Second, FirstRest, SecondRest;
    EncodeSnoc(st, [], a);
    EncodeSnoc(st, [a], b);
    var empty: Bytes := [];
    assert empty + [a] == [a] && [a] + [b] == [a, b];
    assert Encode(st, empty) == (st, empty);
    var d1, d2 := EncodeValue(First(a)), EncodeValue(Second(FirstRest(a), b));
    assert empty + [d1] == [d1] && [d1] + [d2] == [d1, d2];
  }

  lemma ShortLined(s: Bytes, st: EncodeState)
    requires |s| < 3 && st.step == StepA && 0 <= st.stepcount
    ensures
      var (e, code) := Encode(st, s);
      code + EncodeEnd(e) == Lined(s, st.stepcount) + [NEWLINE]
  {
    if |s| == 0 {
    } else if |s| == 1 {
      OneLined(s, st);
    } else {
      TwoLined(s, st);
    }
  }

  lemma OneLined(s: Bytes, st: EncodeState)
    requires |s| == 1 && st.step == StepA && 0 <= st.stepcount
    ensures Encode(st, s).1 + EncodeEnd(Encode(st, s).0) == Lined(s, st.stepcount) + [NEWLINE]
  {
    hide EncodeValue, First, Second, Third, Fourth, FirstRest, SecondRest, Quad, Encode;
    EncodePair(st, s[0], 0);
    assert s == [s[0]];
    QuadDigits(s[0], 0, 0);
    var d1, d2 := EncodeValue(First(s[0])), EncodeValue(FirstRest(s[0]));
    assert [d1] + [d2, PAD, PAD, NEWLINE] == [d1, d2] + [PAD, PAD] + [NEWLINE];
  }

  lemma TwoLined(s: Bytes, st: EncodeState)
    requires |s| == 2 && st.step == StepA && 0 <= st.stepcount
    ensures Encode(st, s).1 + EncodeEnd(Encode(st, s).0) == Lined(s, st.stepcount) + [NEWLINE]
  {
    hide EncodeValue, First, Second, Third, Fourth, FirstRest, SecondRest, Quad, Encode;
    EncodePair(st, s[0], s[1]);
    assert s == [s[0], s[1]];
    QuadDigits(s[0], s[1], 0);
    var d1, d2 := EncodeValue(First(s[0])), EncodeValue(Second(FirstRest(s[0]), s[1]));
    var d3 := EncodeValue(SecondRest(s[1]));
    assert [d1, d2] + [d3, PAD, NEWLINE] == [d1, d2, d3] + [PAD] + [NEWLINE];
  }

  /** Lines hold 72 digits: line breaks stand exactly at every 73rd place. */
  lemma {:induction false} LineBreaks(s: Bytes, k: nat, p: nat)
    requires k < GROUPS_PER_LINE && p < |Lined(s, k)|
    ensures Lined(s, k)[p] == NEWLINE <==> (4 * k + p) % 73 == 72
    decreases |s|
  {
    hide Quad;
    if |s| < 3 || p < 4 {
      assert Lined(s, k)[p] != NEWLINE;
    } else if k + 1 == GROUPS_PER_LINE {
      if p > 4 {
        LineBreaks(s[3..], 0, p - 5);
        assert Lined(s, k)[p] == Lined(s[3..], 0)[p - 5];
      }
    } else {
      LineBreaks(s[3..], k + 1, p - 4);
      assert Lined(s, k)[p] == Lined(s[3..], k + 1)[p - 4];
    }
  }

  /** The digits are those of table 1 in RFC 4648: A to Z, a to z, 0 to 9, + and /. */
  lemma Alphabet(v: bv8)
    requires v <= 63
    ensures v == 0 ==> EncodeValue(v) == 65
    ensures v == 26 ==> EncodeValue(v) == 97
    ensures v == 52 ==> EncodeValue(v) == 48
    ensures v == 62 ==> EncodeValue(v) == 43
    ensures v == 63 ==> EncodeValue(v) == 47
    ensures v < 61 && v != 25 && v != 51 ==> EncodeValue(v + 1) == EncodeValue(v) + 1
  {
  }

  /** How many characters are missing in the last group. */
  function Missing(n: nat): nat {
    (3 - n % 3) % 3
  }

  /** Equals signs, character 61, stand only at the end of the text, one for every byte
      that the last group lacks. */
  lemma {:induction false} Padding(s: Bytes, k: nat, p: nat)
    requires k < GROUPS_PER_LINE && p < |Lined(s, k)|
    ensures Missing(|s|) <= |Lined(s, k)|
    ensures Lined(s, k)[p] == 61 <==> p >= |Lined(s, k)| - Missing(|s|)
    decreases |s|
  {
    hide Quad;
    if |s| == 1 {
      QuadUnpadded(s[0], 0, 0);
    } else if |s| == 2 {
      QuadUnpadded(s[0], s[1], 0);
    } else {
      QuadUnpadded(s[0], s[1], s[2]);
      var next := if k + 1 == GROUPS_PER_LINE then 0 else k + 1;
      var first := if k + 1 == GROUPS_PER_LINE then Quad(s[0], s[1], s[2]) + [NEWLINE] else Quad(s[0], s[1], s[2]);
      assert Lined(s, k) == first + Lined(s[3..], next);
      MissingShort(s, next);
      if p >= |first| {
        Padding(s[3..], next, p - |first|);
      }
    }
  }

  lemma MissingShort(s: Bytes, k: nat)
    requires |s| >= 3
    ensures Missing(|s|) == Missing(|s[3..]|) <= |Lined(s[3..], k)|
  {
  }

  lemma QuadUnpadded(a: bv8, b: bv8, c: bv8)
    ensures forall i: nat | i < 4 :: Quad(a, b, c)[i] != PAD
  {
    hide EncodeValue;
    var x := Sextets(Group(a, b, c));
    NotPad(x.0);
    NotPad(x.1);
    NotPad(x.2);
    NotPad(x.3);
  }

  lemma NotPad(v: bv8)
    requires v <= 63
    ensures EncodeValue(v) != PAD
  {
  }

  // ---- The coders as objects ----

  // ---- Steps of the two loops ----

  lemma EncodeNothing(st: EncodeState)
    ensures Encode(st, []) == (st, [])
  {
  }

  lemma EncodesOne(st: EncodeState, plain: Bytes, i: nat)
    requires i < |plain|
    ensures
      var (mid, code) := Encode(st, plain[..i]);
      Encode(st, plain[..i + 1]) == (EncodeByte(mid, plain[i]).0, code + EncodeByte(mid, plain[i]).1)
  {
    assert plain[..i] + [plain[i]] == plain[..i + 1];
    EncodeSnoc(st, plain[..i], plain[i]);
  }

  lemma EncodesA(st: EncodeState, plain: Bytes, i: nat)
    requires i < |plain| && Encode(st, plain[..i]).0.step == StepA
    ensures
      var (mid, code) := Encode(st, plain[..i]);
      Encode(st, plain[..i + 1])
      == (EncodeState(StepB, FirstRest(plain[i]), mid.stepcount), code + [EncodeValue(First(plain[i]))])
  {
    EncodesOne(st, plain, i);
  }

  lemma EncodesB(st: EncodeState, plain: Bytes, i: nat)
    requires i < |plain| && Encode(st, plain[..i]).0.step == StepB
    ensures
      var (mid, code) := Encode(st, plain[..i]);
      Encode(st, plain[..i + 1])
      == (EncodeState(StepC, SecondRest(plain[i]), mid.stepcount), code + [EncodeValue(Second(mid.result, plain[i]))])
  {
    EncodesOne(st, plain, i);
  }

  lemma EncodesC(st: EncodeState, plain: Bytes, i: nat, code: Bytes)
    requires i < |plain| && Encode(st, plain[..i]).0.step == StepC && Encode(st, plain[..i]).1 == code
    ensures
      var mid := Encode(st, plain[..i]).0;
      var two := code + [EncodeValue(Third(mid.result, plain[i]))] + [EncodeValue(Fourth(plain[i]))];
      Encode(st, plain[..i + 1])
      == if mid.stepcount + 1 == GROUPS_PER_LINE then (EncodeState(StepA, Fourth(plain[i]), 0), two + [NEWLINE])
         else (EncodeState(StepA, Fourth(plain[i]), mid.stepcount + 1), two)
  {
    hide EncodeValue, Third, Fourth;
    EncodesOne(st, plain, i);
    var mid := Encode(st, plain[..i]).0;
    var t, f := EncodeValue(Third(mid.result, plain[i])), EncodeValue(Fourth(plain[i]));
    assert code + ([t, f] + []) == code + [t] + [f];
    assert code + ([t, f] + [NEWLINE]) == code + [t] + [f] + [NEWLINE];
  }

  lemma DecodeNothing(st: DecodeState, beyond: bv8)
    ensures Decode(st, [], beyond) == (st, [])
  {
  }

  lemma DecodesOne(st: DecodeState, code: Bytes, i: nat, beyond: bv8)
    requires i < |code|
    ensures
      var (mid, plain) := Decode(st, code[..i], beyond);
      Decode(st, code[..i + 1], beyond) == (DecodeChar(mid, code[i], beyond).0, plain + DecodeChar(mid, code[i], beyond).1)
  {
    hide DecodeChar;
    assert code[..i + 1][..i] == code[..i];
  }

  lemma DecodePasses(st: DecodeState, code: Bytes, i: nat, beyond: bv8)
    requires i < |code| && Negative(DecodeValue(code[i], beyond))
    ensures Decode(st, code[..i + 1], beyond) == Decode(st, code[..i], beyond)
  {
    hide DecodeValue;
    DecodesOne(st, code, i, beyond);
    var plain := Decode(st, code[..i], beyond).1;
    assert plain + [] == plain;
  }

  class Encoder {
    var step: EncodeStep
    var result: bv8
    var stepcount: int

    function Value(): EncodeState
      reads this
    {
      EncodeState(step, result, stepcount)
    }

    constructor ()
      ensures Value() == ENCODE_START
    {
      step, result, stepcount := StepA, 0, 0;
    }

    /** The loop is entered at the label noted in `step`; from one label control falls
        through to the next. */
    method EncodeBlock(plain: Bytes) returns (code: Bytes)
      modifies this
      ensures (Value(), code) == Encode(old(Value()), plain)
    {
      hide EncodeByte, Encode, EncodeValue, First, FirstRest, Second, SecondRest, Third, Fourth;
      code := [];
      var i, at, r := 0, step, result;
      assert plain[..0] == [];
      EncodeNothing(old(Value()));
      while true
        invariant 0 <= i <= |plain|
        invariant (EncodeState(at, r, stepcount), code) == Encode(old(Value()), plain[..i])
        decreases |plain| - i, at != StepA
      {
        assert plain[..|plain|] == plain;
        if at == StepA {
          if i == |plain| {
            result, step := r, StepA;
            return;
          }
          EncodesA(old(Value()), plain, i);
          var fragment := plain[i];
          i := i + 1;
          r := First(fragment);
          code := code + [EncodeValue(r)];
          r := FirstRest(fragment);
          at := StepB;
        }
        if at == StepB {
          if i == |plain| {
            result, step := r, StepB;
            return;
          }
          EncodesB(old(Value()), plain, i);
          var fragment := plain[i];
          i := i + 1;
          r := Second(r, fragment);
          code := code + [EncodeValue(r)];
          r := SecondRest(fragment);
          at := StepC;
        }
        if at == StepC {
          if i == |plain| {
            result, step := r, StepC;
            return;
          }
          EncodesC(old(Value()), plain, i, code);
          var fragment := plain[i];
          i := i + 1;
          r := Third(r, fragment);
          code := code + [EncodeValue(r)];
          r := Fourth(fragment);
          code := code + [EncodeValue(r)];
          stepcount := stepcount + 1;
          if stepcount == GROUPS_PER_LINE {
            code := code + [NEWLINE];
            stepcount := 0;
          }
          at := StepA;
        }
      }
    }

    method EncodeBlockEnd() returns (code: Bytes)
      ensures code == EncodeEnd(Value())
    {
      code := [];
      match step {
        case StepA =>
        case StepB => code := code + [EncodeValue(result)] + [PAD] + [PAD];
        case StepC => code := code + [EncodeValue(result)] + [PAD];
      }
      code := code + [NEWLINE];
    }
  }

  class Decoder {
    var step: DecodeStep
    var plainchar: bv8
    /** What the value table reads one place past its end. */
    const beyond: bv8

    function Value(): DecodeState
      reads this
    {
      DecodeState(step, plainchar)
    }

    constructor (b: bv8)
      ensures Value() == DECODE_START && beyond == b
    {
      step, plainchar, beyond := StepD0, 0, b;
    }

    /** The next character from place `i` on that is no filler, if there is one. */
    method Fragment(code: Bytes, i: nat, ghost start: DecodeState) returns (found: bool, fragment: bv8, j: nat)
      requires i <= |code|
      ensures i <= j <= |code|
      ensures found ==> i < j && fragment == DecodeValue(code[j - 1], beyond) && !Negative(fragment)
      ensures found ==> Decode(start, code[..j - 1], beyond) == Decode(start, code[..i], beyond)
      ensures !found ==> Decode(start, code, beyond) == Decode(start, code[..i], beyond)
    {
      hide DecodeValue, Decode, Negative;
      found, fragment, j := false, 0, i;
      while true
        invariant i <= j <= |code|
        invariant Decode(start, code[..j], beyond) == Decode(start, code[..i], beyond)
        decreases |code| - j
      {
        if j == |code| {
          assert code[..|code|] == code;
          return;
        }
        fragment := DecodeValue(code[j], beyond);
        j := j + 1;
        if !Negative(fragment) {
          found := true;
          return;
        }
        DecodePasses(start, code, j - 1, beyond);
      }
    }

    /** As for coding, the loop is entered at the label noted in `step`. */
    method DecodeBlock(code: Bytes) returns (plain: Bytes)
      modifies this
      ensures (Value(), plain) == Decode(old(Value()), code, beyond)
    {
      hide DecodeValue, Start, Fill1, Keep1, Fill2, Keep2, Fill3, Decode, Negative;
      plain := [];
      var i, at, p := 0, step, plainchar;
      assert code[..0] == [];
      DecodeNothing(old(Value()), beyond);
      while true
        invariant 0 <= i <= |code|
        invariant (DecodeState(at, p), plain) == Decode(old(Value()), code[..i], beyond)
        decreases |code| - i, at != StepD0
      {
        if at == StepD0 {
          var found, fragment, j := Fragment(code, i, old(Value()));
          if !found {
            plainchar, step := p, StepD0;
            return;
          }
          DecodesOne(old(Value()), code, j - 1, beyond);
          i := j;
          p := Start(fragment);
          at := StepD1;
          assert plain + [] == plain;
        }
        if at == StepD1 {
          var found, fragment, j := Fragment(code, i, old(Value()));
          if !found {
            plainchar, step := p, StepD1;
            return;
          }
          DecodesOne(old(Value()), code, j - 1, beyond);
          i := j;
          plain := plain + [Fill1(p, fragment)];
          p := Keep1(fragment);
          at := StepD2;
        }
        if at == StepD2 {
          var found, fragment, j := Fragment(code, i, old(Value()));
          if !found {
            plainchar, step := p, StepD2;
            return;
          }
          DecodesOne(old(Value()), code, j - 1, beyond);
          i := j;
          plain := plain + [Fill2(p, fragment)];
          p := Keep2(fragment);
          at := StepD3;
        }
        if at == StepD3 {
          var found, fragment, j := Fragment(code, i, old(Value()));
          if !found {
            plainchar, step := p, StepD3;
            return;
          }
          DecodesOne(old(Value()), code, j - 1, beyond);
          i := j;
          p := Fill3(p, fragment);
          plain := plain + [p];
          at := StepD0;
        }
      }
    }
  }

  /** Codes a whole byte sequence, without the final line break. */
  method Base64Encode(data: Bytes) returns (text: Bytes)
    ensures text == Lined(data, 0)
    ensures forall beyond :: Decode(DECODE_START, text, beyond).1 == data
  {
    var ctx := new Encoder();
    var out := ctx.EncodeBlock(data);
    var end := ctx.EncodeBlockEnd();
    text := out + end;
    text := text[..|text| - 1];
    EncodeIsLined(data, 0, 0);
    forall beyond ensures Decode(DECODE_START, text, beyond).1 == data {
      RoundTrip(data, beyond);
      assert text == out + end[..|end| - 1];
    }
  }

  lemma LinedDecodes(data: Bytes, beyond: bv8)
    ensures Decode(DECODE_START, Lined(data, 0), beyond).1 == data
  {
    EncodeIsLined(data, 0, 0);
    RoundTrip(data, beyond);
    var (e, code) := Encode(ENCODE_START, data);
    var end := EncodeEnd(e);
    assert end != [] && (code + end)[..|code + end| - 1] == code + end[..|end| - 1];
    assert (Lined(data, 0) + [NEWLINE])[..|Lined(data, 0)|] == Lined(data, 0);
  }
}
