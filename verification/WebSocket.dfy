/** WebSocket frames: a decoder that can be stopped after any byte, against the
    frame layout of section 5.2 of RFC 6455, and the frames the server sends. */
module WebSocket {
  import opened ByteSets

  type Bytes = seq<bv8>

  datatype Option<T> = None | Some(value: T)

  /** A frame as the callbacks see it, with the payload unmasked. */
  datatype Frame = Frame(fin: bv8, rsv: bv8, opcode: bv8, hasMask: bool, mask: Bytes, data: Bytes)

  // ---- The layout ----

  function Fin(b: bv8): bv8 { (b >> 7) & 1 }
  function Rsv(b: bv8): bv8 { (b >> 4) & 7 }
  function Opcode(b: bv8): bv8 { b & 0x0F }
  predicate Masked(b: bv8) { (b >> 7) & 1 == 1 }
  function Length7(b: bv8): nat { Number(b & 0x7F) }

  /** Bytes of an extended length. */
  function Extended(b: bv8): nat {
    if Length7(b) == 126 then 2 else if Length7(b) == 127 then 8 else 0
  }

  function KeyBytes(b: bv8): nat {
    if Masked(b) then 4 else 0
  }

  /** A number in network order. */
  function Big(s: Bytes): nat {
    if s == [] then 0 else 256 * Big(s[..|s| - 1]) + Number(s[|s| - 1])
  }

  function Unmask(s: Bytes, key: Bytes): (r: Bytes)
    requires key == [] || |key| == 4
    ensures |r| == |s|
  {
    if key == [] then s else seq(|s|, (i: nat) requires i < |s| => s[i] ^ key[i % 4])
  }

  /** Bytes of the header, if enough is known to tell. */
  function HeaderSize(s: Bytes): nat
    requires 2 <= |s|
  {
    2 + Extended(s[1]) + KeyBytes(s[1])
  }

  function PayloadSize(s: Bytes): nat
    requires 2 <= |s| && HeaderSize(s) <= |s|
  {
    if Extended(s[1]) == 0 then Length7(s[1]) else Big(s[2..2 + Extended(s[1])])
  }

  /** The bytes are one whole frame. */
  predicate Complete(s: Bytes) {
    2 <= |s| && HeaderSize(s) <= |s| && |s| == HeaderSize(s) + PayloadSize(s)
  }

  function Parsed(s: Bytes): Frame
    requires Complete(s)
  {
    var h := HeaderSize(s);
    var key := s[2 + Extended(s[1])..h];
    Frame(Fin(s[0]), Rsv(s[0]), Opcode(s[0]), Masked(s[1]), key, Unmask(s[h..], key))
  }

  /** Whole frames and the bytes after them. */
  datatype Collected = Collected(frames: seq<Frame>, rest: Bytes)

  /** The frames known when another byte arrives: an empty frame is noticed then. */
  function Noticed(c: Collected): seq<Frame> {
    if Complete(c.rest) then c.frames + [Parsed(c.rest)] else c.frames
  }

  function Collect(c: Collected, b: bv8): Collected {
    var r := if Complete(c.rest) then [b] else c.rest + [b];
    if Complete(r) && HeaderSize(r) < |r| then Collected(Noticed(c) + [Parsed(r)], []) else Collected(Noticed(c), r)
  }

  /** Reading a stream by collecting bytes until they are a whole frame. */
  function Reference(s: Bytes): Collected
    decreases |s|
  {
    if s == [] then Collected([], []) else Collect(Reference(s[..|s| - 1]), s[|s| - 1])
  }

  // ---- The decoder ----

  datatype State = OpcodeRead | LengthLengthRead | LengthRead | KeyRead

  datatype Partial = Partial(
    fin: bv8, rsv: bv8, opcode: bv8,
    state: State,
    hasMask: bool,
    maskBytes: nat,
    mask: Bytes,
    size: nat,
    payloadBytes: nat,
    maskIndex: nat,
    data: Bytes)

  datatype Conn = Conn(frame: Option<Partial>, delivered: seq<Frame>)

  const IDLE := Conn(None, [])

  predicate Consistent(p: Partial) {
    && |p.mask| + p.maskBytes == (if p.hasMask then 4 else 0)
    && (p.state == LengthRead ==> p.hasMask && 0 < p.maskBytes)
    && (p.state in {OpcodeRead, LengthLengthRead} ==> p.mask == [])
    && (p.state == KeyRead ==> p.maskBytes == 0 && |p.data| <= p.size)
    && (p.state != KeyRead ==> p.data == [])
    && (p.state in {LengthRead, KeyRead} ==> p.payloadBytes == 0)
    && (p.state == OpcodeRead ==> !p.hasMask)
    && p.payloadBytes <= 8
    && p.maskIndex == (if p.hasMask then |p.data| % 4 else 0)
  }

  predicate Sane(c: Conn) {
    c.frame.Some? ==> Consistent(c.frame.value)
  }

  function AsFrame(p: Partial): Frame {
    Frame(p.fin, p.rsv, p.opcode, p.hasMask, p.mask, p.data)
  }

  function AfterLength(p: Partial): Partial {
    p.(state := if p.hasMask then LengthRead else KeyRead)
  }

  /** The decoder waits for a byte. */
  predicate Waiting(p: Partial) {
    && Consistent(p)
    && (p.state == LengthLengthRead ==> 0 < p.payloadBytes)
    && (p.state == KeyRead ==> |p.data| < p.size)
  }

  /** What happens before a byte is looked at. */
  function Prepare(c: Conn): (r: Conn)
    requires Sane(c)
    ensures r.frame.Some? ==> Waiting(r.frame.value)
  {
    if c.frame.None? then c
    else
      var p := c.frame.value;
      var q := if p.state == LengthLengthRead && p.payloadBytes == 0 then AfterLength(p) else p;
      if q.state == KeyRead && |q.data| == q.size then Conn(None, c.delivered + [AsFrame(q)])
      else c.(frame := Some(q))
  }

  function Begin(b: bv8): Partial {
    Partial(Fin(b), Rsv(b), Opcode(b), OpcodeRead, false, 0, [], 0, 0, 0, [])
  }

  function ReadLengthLength(p: Partial, b: bv8): Partial {
    p.(hasMask := Masked(b), maskBytes := KeyBytes(b),
       size := if Extended(b) == 0 then Length7(b) else 0,
       payloadBytes := Extended(b),
       state := LengthLengthRead)
  }

  function ReadLength(p: Partial, b: bv8): Partial
    requires 0 < p.payloadBytes
  {
    var q := p.(size := 256 * p.size + Number(b), payloadBytes := p.payloadBytes - 1);
    if q.payloadBytes == 0 then AfterLength(q) else q
  }

  function ReadKey(p: Partial, b: bv8): Partial
    requires 0 < p.maskBytes
  {
    var q := p.(mask := p.mask + [b], maskBytes := p.maskBytes - 1);
    if q.maskBytes == 0 then q.(state := KeyRead) else q
  }

  function ReadData(p: Partial, b: bv8): Partial
    requires p.hasMask ==> |p.mask| == 4 && p.maskIndex < 4
  {
    if p.hasMask then p.(data := p.data + [b ^ p.mask[p.maskIndex]], maskIndex := (p.maskIndex + 1) % 4)
    else p.(data := p.data + [b])
  }

  function Advance(p: Partial, b: bv8): Partial
    requires Waiting(p)
  {
    match p.state
    case OpcodeRead => ReadLengthLength(p, b)
    case LengthLengthRead => ReadLength(p, b)
    case LengthRead => ReadKey(p, b)
    case KeyRead => ReadData(p, b)
  }

  lemma AdvanceConsistent(p: Partial, b: bv8)
    requires Waiting(p)
    ensures Consistent(Advance(p, b))
  {
    hide ReadLengthLength, ReadLength, ReadKey, ReadData;
    match p.state
    case OpcodeRead => LengthLengthConsistent(p, b);
    case LengthLengthRead => LengthConsistent(p, b);
    case LengthRead => KeyConsistent(p, b);
    case KeyRead => DataConsistent(p, b);
  }

  lemma LengthLengthConsistent(p: Partial, b: bv8)
    requires Waiting(p) && p.state == OpcodeRead
    ensures Consistent(ReadLengthLength(p, b))
  {
    hide Number, Masked, Length7;
  }

  lemma LengthConsistent(p: Partial, b: bv8)
    requires Waiting(p) && p.state == LengthLengthRead
    ensures Consistent(ReadLength(p, b))
  {
    hide Number;
  }

  lemma KeyConsistent(p: Partial, b: bv8)
    requires Waiting(p) && p.state == LengthRead
    ensures Consistent(ReadKey(p, b))
  {
  }

  lemma DataConsistent(p: Partial, b: bv8)
    requires Waiting(p) && p.state == KeyRead
    ensures Consistent(ReadData(p, b))
  {
  }

  function Feed(c: Conn, b: bv8): (r: Conn)
    requires Sane(c)
    ensures Sane(r)
  {
    var d := Prepare(c);
    if d.frame.None? then d.(frame := Some(Begin(b)))
    else
      var q := Advance(d.frame.value, b);
      AdvanceConsistent(d.frame.value, b);
      if d.frame.value.state == KeyRead && |q.data| == q.size then Conn(None, d.delivered + [AsFrame(q)])
      else d.(frame := Some(q))
  }

  function Receive(c: Conn, s: Bytes): (r: Conn)
    requires Sane(c)
    ensures Sane(r)
    decreases |s|
  {
    if s == [] then c else Feed(Receive(c, s[..|s| - 1]), s[|s| - 1])
  }

  /** However the stream is cut into reads, the same frames come out and the same
      state is left behind. */
  lemma {:induction false} ReceiveChunks(c: Conn, s: Bytes, t: Bytes)
    requires Sane(c)
    ensures Receive(c, s + t) == Receive(Receive(c, s), t)
    decreases |t|
  {
    if t == [] {
      assert s + t == s;
    } else {
      hide Feed;
      assert (s + t)[..|s + t| - 1] == s + t[..|t| - 1];
      ReceiveChunks(c, s, t[..|t| - 1]);
    }
  }

  // ---- The decoder against the layout ----

  function Min(a: nat, b: nat): nat {
    if a < b then a else b
  }

  /** What the decoder knows after the bytes of an unfinished frame. */
  function PartialOf(s: Bytes): Partial
    requires s != []
  {
    if |s| == 1 then Begin(s[0])
    else
      var ext, key, n := Extended(s[1]), KeyBytes(s[1]), |s| - 2;
      var lengthRead := Min(n, ext);
      var keyRead := Min(n - lengthRead, key);
      var mask := s[2 + lengthRead..2 + lengthRead + keyRead];
      var data := if |mask| == key then Unmask(s[2 + lengthRead + keyRead..], mask) else [];
      Partial(Fin(s[0]), Rsv(s[0]), Opcode(s[0]),
              if n == 0 || n < ext then LengthLengthRead else if keyRead < key then LengthRead else KeyRead,
              Masked(s[1]), key - keyRead, mask,
              if ext == 0 then Length7(s[1]) else Big(s[2..2 + lengthRead]),
              ext - lengthRead,
              if Masked(s[1]) then |data| % 4 else 0,
              data)
  }

  lemma PartialConsistent(s: Bytes)
    requires s != [] && (2 <= |s| && HeaderSize(s) <= |s| ==> |s| - HeaderSize(s) <= PayloadSize(s))
    ensures Consistent(PartialOf(s))
  {
  }

  /** The bytes collected so far are an unfinished frame, or an empty one. */
  predicate Unfinished(s: Bytes) {
    2 <= |s| && HeaderSize(s) <= |s| ==>
      |s| - HeaderSize(s) < PayloadSize(s) || (|s| == HeaderSize(s) && PayloadSize(s) == 0)
  }

  /** The decoder's state, given what has been collected. */
  function ConnOf(c: Collected): Conn {
    Conn(if c.rest == [] then None else Some(PartialOf(c.rest)), c.frames)
  }

  lemma UnmaskSnoc(s: Bytes, key: Bytes, b: bv8)
    requires key == [] || |key| == 4
    ensures Unmask(s + [b], key) == Unmask(s, key) + [if key == [] then b else b ^ key[|s| % 4]]
  {
  }

  lemma BigSnoc(s: Bytes, b: bv8)
    ensures Big(s + [b]) == 256 * Big(s) + Number(b)
  {
    assert (s + [b])[..|s|] == s;
  }

  /** Before the next byte, an empty frame is delivered and nothing else changes. */
  lemma PrepareOf(frames: seq<Frame>, s: Bytes)
    requires s != [] && Unfinished(s)
    ensures Consistent(PartialOf(s))
    ensures Prepare(ConnOf(Collected(frames, s)))
            == if Complete(s) then Conn(None, frames + [Parsed(s)])
               else if |s| >= 2 && PartialOf(s).state == LengthLengthRead && PartialOf(s).payloadBytes == 0
               then Conn(Some(AfterLength(PartialOf(s))), frames)
               else ConnOf(Collected(frames, s))
  {
    hide Big, Unmask, Length7, Masked, Fin, Rsv, Opcode;
    PartialConsistent(s);
  }

  lemma BigEmpty()
    ensures Big([]) == 0
  {
  }

  /** An unfinished frame as the decoder holds it when the next byte arrives. */
  function Ready(s: Bytes): Partial
    requires s != []
  {
    var p := PartialOf(s);
    if p.state == LengthLengthRead && p.payloadBytes == 0 then AfterLength(p) else p
  }

  lemma ReadyWaits(s: Bytes)
    requires s != [] && Unfinished(s) && !Complete(s)
    ensures Waiting(Ready(s))
  {
    hide Big, Unmask, Length7, Masked, Fin, Rsv, Opcode;
    PartialConsistent(s);
  }

  /** One more byte of an unfinished frame. */
  lemma AdvanceOf(s: Bytes, b: bv8)
    requires s != [] && Unfinished(s) && !Complete(s) && Waiting(Ready(s))
    ensures Advance(Ready(s), b) == PartialOf(s + [b])
  {
    hide Big, Unmask, Length7, Masked, Fin, Rsv, Opcode;
    var r := s + [b];
    if |s| == 1 {
      assert r[2..2] == [] && r[2..] == [];
      BigEmpty();
      UnmaskNothing([]);
    } else {
      var ext, key, n := Extended(s[1]), KeyBytes(s[1]), |s| - 2;
      assert r[1] == s[1] && r[0] == s[0];
      if n < ext {
        AdvanceLength(s, b);
      } else if n - ext < key {
        AdvanceKey(s, b);
      } else {
        AdvanceData(s, b);
      }
    }
  }

  lemma UnmaskNothing(key: Bytes)
    ensures (key == [] || |key| == 4) ==> Unmask([], key) == []
  {
  }

  /** The decoder's state while bytes of the length are being read. */
  function LengthState(s: Bytes): Partial
    requires 2 <= |s|
  {
    Partial(Fin(s[0]), Rsv(s[0]), Opcode(s[0]), LengthLengthRead, Masked(s[1]), KeyBytes(s[1]), [], Big(s[2..]),
            if |s| - 2 < Extended(s[1]) then Extended(s[1]) - (|s| - 2) else 0, 0, [])
  }

  lemma LengthSoFar(s: Bytes)
    requires 2 <= |s| && |s| - 2 <= Extended(s[1]) && 0 < Extended(s[1])
    ensures PartialOf(s) == if |s| - 2 < Extended(s[1]) then LengthState(s) else AfterLength(LengthState(s))
    ensures |s| - 2 < Extended(s[1]) ==> Ready(s) == LengthState(s)
  {
    hide Unmask, Length7, Masked, Fin, Rsv, Opcode, Extended;
    assert s[2..|s|] == s[2..];
    assert s[|s|..|s|] == [] && s[|s|..] == [];
    assert |s| == 2 ==> s[2..] == [];
    UnmaskNothing([]);
  }

  lemma AdvanceLength(s: Bytes, b: bv8)
    requires 2 <= |s| && |s| - 2 < Extended(s[1]) && Waiting(Ready(s))
    ensures Advance(Ready(s), b) == PartialOf(s + [b])
  {
    hide Big, PartialOf, Ready, Unmask, Length7, Masked, Fin, Rsv, Opcode, Extended;
    SlicesSnoc(s, b, 0, 2);
    assert (s + [b])[1] == s[1] && (s + [b])[0] == s[0];
    LengthSoFar(s);
    LengthSoFar(s + [b]);
    BigSnoc(s[2..], b);
  }

  /** The decoder's state once the header is read. */
  function DataState(s: Bytes): Partial
    requires 2 <= |s| && HeaderSize(s) <= |s|
  {
    var h := HeaderSize(s);
    var mask := s[2 + Extended(s[1])..h];
    Partial(Fin(s[0]), Rsv(s[0]), Opcode(s[0]), KeyRead, Masked(s[1]), 0, mask, PayloadSize(s), 0,
            if Masked(s[1]) then (|s| - h) % 4 else 0, Unmask(s[h..], mask))
  }

  lemma HeaderRead(s: Bytes)
    requires 2 <= |s| && HeaderSize(s) <= |s|
    ensures 2 < |s| ==> PartialOf(s) == DataState(s)
    ensures Ready(s) == DataState(s)
  {
    hide Big, Unmask, Length7, Masked, Fin, Rsv, Opcode;
    if |s| == 2 {
      assert s[2..] == [] && s[2..2] == [];
    }
  }

  lemma DataSnoc(s: Bytes, b: bv8)
    requires 2 <= |s| && HeaderSize(s) <= |s|
    ensures HeaderSize(s + [b]) == HeaderSize(s)
    ensures
      var p := DataState(s);
      && |p.mask| == (if p.hasMask then 4 else 0)
      && p.state == KeyRead && |p.data| == |s| - HeaderSize(s)
      && p.maskIndex == (if p.hasMask then |p.data| % 4 else 0)
      && DataState(s + [b]) == ReadData(p, b)
  {
    HeaderSnoc(s, b);
    hide Fin, Rsv, Opcode, Unmask, Extended, Masked, PayloadSize;
    var ext, h := Extended(s[1]), HeaderSize(s);
    SlicesSnoc(s, b, 2 + ext, h);
    var mask := s[2 + ext..h];
    UnmaskSnoc(s[h..], mask, b);
  }

  lemma HeaderSnoc(s: Bytes, b: bv8)
    requires 2 <= |s| && HeaderSize(s) <= |s|
    ensures HeaderSize(s + [b]) == HeaderSize(s) && PayloadSize(s + [b]) == PayloadSize(s)
  {
    hide Big, Length7;
    SlicesSnoc(s, b, 2, 2 + Extended(s[1]));
  }

  lemma SlicesSnoc(s: Bytes, b: bv8, i: nat, j: nat)
    requires i <= j <= |s|
    ensures (s + [b])[i..j] == s[i..j] && (s + [b])[j..] == s[j..] + [b]
  {
  }

  lemma AdvanceData(s: Bytes, b: bv8)
    requires 2 <= |s| && HeaderSize(s) <= |s| && |s| - HeaderSize(s) < PayloadSize(s) && Waiting(Ready(s))
    ensures Advance(Ready(s), b) == PartialOf(s + [b])
  {
    hide Big, PartialOf, Ready, DataState, HeaderSize, PayloadSize, Waiting, Consistent;
    DataSnoc(s, b);
    HeaderRead(s);
    HeaderRead(s + [b]);
  }

  /** The decoder's state while bytes of the key are being read. */
  function KeyState(s: Bytes): Partial
    requires 2 <= |s| && 2 + Extended(s[1]) <= |s| <= HeaderSize(s)
  {
    var ext := Extended(s[1]);
    Partial(Fin(s[0]), Rsv(s[0]), Opcode(s[0]), if |s| < HeaderSize(s) then LengthRead else KeyRead,
            Masked(s[1]), HeaderSize(s) - |s|, s[2 + ext..],
            if ext == 0 then Length7(s[1]) else Big(s[2..2 + ext]), 0, 0, [])
  }

  lemma KeySoFar(s: Bytes)
    requires 2 <= |s| && 2 + Extended(s[1]) <= |s| <= HeaderSize(s)
    ensures |s| < HeaderSize(s) ==> Ready(s) == KeyState(s)
    ensures 2 < |s| ==> PartialOf(s) == KeyState(s)
  {
    hide Big, Unmask, Length7, Masked, Fin, Rsv, Opcode;
    assert s[2 + Extended(s[1])..|s|] == s[2 + Extended(s[1])..];
    assert s[|s|..] == [] && (|s| == 2 ==> s[2..] == []);
    UnmaskNothing(s[2 + Extended(s[1])..]);
  }

  lemma AdvanceKey(s: Bytes, b: bv8)
    requires 2 <= |s| && Extended(s[1]) <= |s| - 2 < Extended(s[1]) + KeyBytes(s[1]) && Waiting(Ready(s))
    ensures Advance(Ready(s), b) == PartialOf(s + [b])
  {
    hide Big, PartialOf, Ready, Unmask, Length7, Masked, Fin, Rsv, Opcode, Extended, Waiting;
    var r, ext := s + [b], Extended(s[1]);
    assert r[1] == s[1] && r[0] == s[0];
    KeySoFar(s);
    KeySoFar(r);
    SlicesSnoc(s, b, 2, 2 + ext);
  }

  /** The next byte, whatever it completes. */
  lemma FeedOf(c: Collected, b: bv8)
    requires Unfinished(c.rest) && (c.rest != [] ==> Consistent(PartialOf(c.rest)))
    ensures
      var d := Collect(c, b);
      Feed(ConnOf(c), b) == ConnOf(d) && Unfinished(d.rest) && (d.rest != [] ==> Consistent(PartialOf(d.rest)))
  {
    hide Big, Unmask, Length7, Masked, Fin, Rsv, Opcode, Extended, Advance;
    var s := c.rest;
    if s != [] {
      PrepareOf(c.frames, s);
      if !Complete(s) {
        ReadyWaits(s);
        AdvanceOf(s, b);
        OneMore(s, b);
      }
    }
  }

  /** What one more byte does to an unfinished frame, by the layout alone. */
  lemma OneMore(s: Bytes, b: bv8)
    requires s != [] && Unfinished(s) && !Complete(s) && Waiting(Ready(s))
    ensures
      var r := s + [b];
      var q := PartialOf(r);
      && (Complete(r) && HeaderSize(r) < |r| <==> Ready(s).state == KeyRead && |q.data| == q.size)
      && (Complete(r) ==> AsFrame(q) == Parsed(r))
      && (!(Complete(r) && HeaderSize(r) < |r|) ==> Unfinished(r))
  {
    hide Big, Length7, Masked, Fin, Rsv, Opcode, Extended, PartialOf, Ready, Unmask, Parsed, Waiting;
    var r := s + [b];
    if |s| >= 2 {
      assert r[1] == s[1];
      if HeaderSize(s) <= |s| {
        OneMoreData(s, b);
      } else {
        OneMoreHeader(s, b);
      }
    } else {
      OneMoreFirst(s, b);
    }
  }

  lemma OneMoreData(s: Bytes, b: bv8)
    requires 2 <= |s| && HeaderSize(s) <= |s| && |s| - HeaderSize(s) < PayloadSize(s)
    ensures
      var r := s + [b];
      var q := PartialOf(r);
      && Ready(s).state == KeyRead && HeaderSize(r) < |r| && (Complete(r) <==> |q.data| == q.size)
      && (Complete(r) ==> AsFrame(q) == Parsed(r)) && (!Complete(r) ==> Unfinished(r))
  {
    hide Big, Length7, Masked, Fin, Rsv, Opcode, Extended, PartialOf, Ready, Unmask;
    var r, ext := s + [b], Extended(s[1]);
    assert r[1] == s[1];
    HeaderRead(s);
    HeaderRead(r);
    SlicesSnoc(s, b, 2, 2 + ext);
  }

  lemma OneMoreHeader(s: Bytes, b: bv8)
    requires 2 <= |s| < HeaderSize(s)
    ensures
      var r := s + [b];
      && Ready(s).state != KeyRead && !(Complete(r) && HeaderSize(r) < |r|) && Unfinished(r)
      && (Complete(r) ==> AsFrame(PartialOf(r)) == Parsed(r))
  {
    hide Big, Length7, Masked, Fin, Rsv, Opcode, Extended, Unmask;
    var r := s + [b];
    assert r[1] == s[1];
    if HeaderSize(r) <= |r| { HeaderRead(r); }
  }

  lemma OneMoreFirst(s: Bytes, b: bv8)
    requires |s| == 1
    ensures
      var r := s + [b];
      && Ready(s).state == OpcodeRead && !(Complete(r) && HeaderSize(r) < |r|) && Unfinished(r)
      && (Complete(r) ==> AsFrame(PartialOf(r)) == Parsed(r))
  {
    hide Big, Length7, Masked, Fin, Rsv, Opcode, Extended, Unmask;
    var r := s + [b];
    if HeaderSize(r) <= |r| {
      assert r[2..2] == [];
      PartialOfEmpty(r);
    }
  }

  lemma PartialOfEmpty(r: Bytes)
    requires |r| == 2 && HeaderSize(r) == 2
    ensures AsFrame(PartialOf(r)) == AsFrame(DataState(r))
  {
    hide Big, Length7, Masked, Fin, Rsv, Opcode, Unmask;
    assert r[2..2] == [] && r[2..] == [];
  }

  /** Decoding byte by byte yields the frames of the layout, and holds exactly what
      the collected bytes say. */
  lemma {:induction false} DecodesReference(s: Bytes)
    ensures
      var c := Reference(s);
      Receive(IDLE, s) == ConnOf(c) && Unfinished(c.rest) && (c.rest != [] ==> Consistent(PartialOf(c.rest)))
    decreases |s|
  {
    hide Feed, Complete, PartialOf, HeaderSize, Parsed, Consistent, Collect;
    if s != [] {
      DecodesReference(s[..|s| - 1]);
      FeedOf(Reference(s[..|s| - 1]), s[|s| - 1]);
    }
  }

  // ---- Whole frames in a stream ----

  /** No proper beginning of a frame is a frame. */
  lemma PrefixIncomplete(w: Bytes, k: nat)
    requires Complete(w) && k < |w|
    ensures !Complete(w[..k])
  {
    hide Big, Length7, Masked;
    if 2 <= k && HeaderSize(w) <= k {
      assert w[..k][1] == w[1];
      assert w[..k][2..2 + Extended(w[1])] == w[2..2 + Extended(w[1])];
    }
  }

  lemma CompleteSize(w: Bytes)
    ensures !Complete([]) && (Complete(w) ==> 2 <= |w|)
  {
  }

  lemma ReferenceEmpty()
    ensures Reference([]) == Collected([], [])
  {
  }

  lemma ReferenceSnoc(s: Bytes, b: bv8)
    ensures Reference(s + [b]) == Collect(Reference(s), b)
  {
    assert (s + [b])[..|s|] == s;
  }

  lemma {:induction false} CollectsFrame(s: Bytes, w: Bytes, k: nat)
    requires (Reference(s).rest == [] || Complete(Reference(s).rest)) && Complete(w) && 0 < k <= |w|
    ensures
      var frames := Noticed(Reference(s));
      Reference(s + w[..k])
      == if k == |w| && HeaderSize(w) < |w| then Collected(frames + [Parsed(w)], []) else Collected(frames, w[..k])
    decreases k
  {
    hide Complete, HeaderSize, Parsed, Reference;
    var t := s + w[..k - 1];
    assert t + [w[k - 1]] == s + w[..k] by { assert w[..k - 1] + [w[k - 1]] == w[..k]; }
    ReferenceSnoc(t, w[k - 1]);
    if k < |w| { PrefixIncomplete(w, k); }
    assert w[..|w|] == w;
    if k == 1 {
      assert t == s;
      CompleteSize(w);
      var c := Reference(s);
      if c.rest == [] { assert !Complete(c.rest); }
      assert [] + [w[0]] == w[..1] && [w[0]] == w[..1];
    } else {
      CollectsFrame(s, w, k - 1);
      PrefixIncomplete(w, k - 1);
      assert w[..k - 1] + [w[k - 1]] == w[..k];
    }
  }

  // ---- Frames as bytes ----

  function Power(k: nat): (r: nat)
    ensures r > 0
  {
    if k == 0 then 1 else 256 * Power(k - 1)
  }

  function ToBig(n: nat, k: nat): (r: Bytes)
    ensures |r| == k
    decreases k
  {
    if k == 0 then [] else ToBig(n / 256, k - 1) + [Byte(n % 256)]
  }

  lemma {:induction false} BigInverse(n: nat, k: nat)
    requires n < Power(k)
    ensures Big(ToBig(n, k)) == n
    decreases k
  {
    hide Big;
    if k > 0 {
      BigInverse(n / 256, k - 1);
      BigSnoc(ToBig(n / 256, k - 1), Byte(n % 256));
      ByteBack(n % 256);
    } else {
      BigEmpty();
    }
  }

  const MAX_LENGTH: nat := 0x8000_0000_0000_0000

  predicate WellFormed(f: Frame) {
    && f.fin <= 1 && f.rsv <= 7 && f.opcode <= 15
    && |f.mask| == (if f.hasMask then 4 else 0)
    && |f.data| < MAX_LENGTH
  }

  function FirstByte(f: Frame): bv8 {
    (f.fin << 7) | (f.rsv << 4) | f.opcode
  }

  /** The seven-bit length and the bytes that extend it. */
  function ShortLength(n: nat): (r: nat)
    ensures r < 128
  {
    if n < 126 then n else if n < 0x1_0000 then 126 else 127
  }

  function LongLength(n: nat): Bytes {
    if n < 126 then [] else if n < 0x1_0000 then ToBig(n, 2) else ToBig(n, 8)
  }

  function SecondByte(f: Frame): bv8 {
    (if f.hasMask then 0x80 else 0) | Byte(ShortLength(|f.data|))
  }

  /** The frame on the wire. */
  function Wire(f: Frame): Bytes
    requires WellFormed(f)
  {
    [FirstByte(f), SecondByte(f)] + LongLength(|f.data|) + f.mask + Unmask(f.data, f.mask)
  }

  lemma FirstByteFields(fin: bv8, rsv: bv8, opcode: bv8)
    requires fin <= 1 && rsv <= 7 && opcode <= 15
    ensures
      var b := (fin << 7) | (rsv << 4) | opcode;
      Fin(b) == fin && Rsv(b) == rsv && Opcode(b) == opcode
  {
  }

  lemma SecondByteBits(l: bv8)
    requires !Bit(l, 7)
    ensures (0x80 | l) & 0x7F == l && ((0x80 | l) >> 7) & 1 == 1
    ensures (0 | l) & 0x7F == l && ((0 | l) >> 7) & 1 == 0
  {
  }

  lemma SecondByteFields(hasMask: bool, n: nat)
    requires n < 128
    ensures
      var b := (if hasMask then 0x80 else 0) | Byte(n);
      Masked(b) == hasMask && Length7(b) == n
  {
    hide Number, Byte;
    ByteBack(n);
    ByteBits(n);
    SecondByteBits(Byte(n));
  }

  lemma UnmaskTwice(s: Bytes, key: Bytes)
    requires key == [] || |key| == 4
    ensures Unmask(Unmask(s, key), key) == s
  {
    if key != [] {
      forall i | 0 <= i < |s| ensures Unmask(Unmask(s, key), key)[i] == s[i] {
        XorTwice(s[i], key[i % 4]);
      }
    }
  }

  lemma XorTwice(a: bv8, b: bv8)
    ensures (a ^ b) ^ b == a
  {
  }

  lemma LongLengthSize(n: nat)
    requires n < MAX_LENGTH
    ensures n >= 126 ==> Big(LongLength(n)) == n
    ensures |LongLength(n)| == if ShortLength(n) == 126 then 2 else if ShortLength(n) == 127 then 8 else 0
  {
    if 126 <= n < 0x1_0000 {
      assert Power(2) == 0x1_0000;
      BigInverse(n, 2);
    } else if n >= 126 {
      assert Power(4) == 0x1_0000_0000 && Power(6) == 0x1_0000 * Power(4) && Power(8) == 0x1_0000 * Power(6);
      BigInverse(n, 8);
    }
  }

  lemma FirstByteReads(f: Frame)
    requires WellFormed(f)
    ensures Fin(FirstByte(f)) == f.fin && Rsv(FirstByte(f)) == f.rsv && Opcode(FirstByte(f)) == f.opcode
  {
    FirstByteFields(f.fin, f.rsv, f.opcode);
  }

  lemma SecondByteReads(f: Frame)
    ensures Masked(SecondByte(f)) == f.hasMask && Length7(SecondByte(f)) == ShortLength(|f.data|)
  {
    SecondByteFields(f.hasMask, ShortLength(|f.data|));
  }

  /** A frame on the wire is one whole frame of the layout, and reads as itself. */
  lemma WireParses(f: Frame)
    requires WellFormed(f)
    ensures Complete(Wire(f)) && Parsed(Wire(f)) == f
    ensures |Wire(f)| - HeaderSize(Wire(f)) == |f.data|
  {
    hide Fin, Rsv, Opcode, Masked, Length7, Big, Unmask, LongLength, FirstByte, SecondByte;
    var w, n := Wire(f), |f.data|;
    var long := LongLength(n);
    FirstByteReads(f);
    SecondByteReads(f);
    LongLengthSize(n);
    var h := 2 + |long| + |f.mask|;
    assert HeaderSize(w) == h;
    assert w[2..2 + |long|] == long;
    assert w[2 + |long|..h] == f.mask;
    assert w[h..] == Unmask(f.data, f.mask);
    UnmaskTwice(f.data, f.mask);
  }

  function WireAll(fs: seq<Frame>): Bytes
    requires forall f | f in fs :: WellFormed(f)
  {
    if fs == [] then [] else WireAll(fs[..|fs| - 1]) + Wire(fs[|fs| - 1])
  }

  /** What has been collected after whole frames. */
  function Delivered(fs: seq<Frame>): Collected
    requires forall f | f in fs :: WellFormed(f)
  {
    if fs == [] || fs[|fs| - 1].data != [] then Collected(fs, [])
    else Collected(fs[..|fs| - 1], Wire(fs[|fs| - 1]))
  }

  /** Frames sent one after the other come out in order with their payloads; only an
      empty last frame is held back until more arrives. */
  lemma StreamDecodes(fs: seq<Frame>)
    requires forall f | f in fs :: WellFormed(f)
    ensures Receive(IDLE, WireAll(fs)) == ConnOf(Delivered(fs))
    ensures fs != [] && fs[|fs| - 1].data != [] ==> Receive(IDLE, WireAll(fs)) == Conn(None, fs)
  {
    StreamReference(fs);
    DecodesReference(WireAll(fs));
  }

  lemma AllNoticed(fs: seq<Frame>)
    requires forall f | f in fs :: WellFormed(f)
    ensures Delivered(fs).rest == [] || Complete(Delivered(fs).rest)
    ensures Noticed(Delivered(fs)) == fs
  {
    hide Wire, Complete, Parsed, WellFormed;
    CompleteSize([]);
    if fs != [] {
      WireParses(fs[|fs| - 1]);
      assert fs[..|fs| - 1] + [fs[|fs| - 1]] == fs;
    }
  }

  lemma {:induction false} StreamReference(fs: seq<Frame>)
    requires forall f | f in fs :: WellFormed(f)
    ensures Reference(WireAll(fs)) == Delivered(fs)
    decreases |fs|
  {
    hide Wire, Complete, Parsed, HeaderSize, WellFormed, Noticed, Reference;
    if fs != [] {
      var init, f := fs[..|fs| - 1], fs[|fs| - 1];
      StreamReference(init);
      AllNoticed(init);
      CollectsWire(WireAll(init), f);
      assert init + [f] == fs;
    } else {
      ReferenceEmpty();
    }
  }

  lemma CollectsWire(s: Bytes, f: Frame)
    requires (Reference(s).rest == [] || Complete(Reference(s).rest)) && WellFormed(f)
    ensures
      var frames := Noticed(Reference(s));
      Reference(s + Wire(f)) == if f.data != [] then Collected(frames + [f], []) else Collected(frames, Wire(f))
  {
    hide Wire, Complete, Parsed, HeaderSize, WellFormed, Noticed, Reference;
    WireParses(f);
    var w := Wire(f);
    CompleteSize(w);
    CollectsFrame(s, w, |w|);
    assert w[..|w|] == w;
  }

  // ---- What the server sends ----

  /** The bytes for an unmasked, unfragmented frame.  From 65536 bytes on the length
      byte still announces two bytes of length, but eight follow. */
  function Sent(opcode: bv8, data: Bytes): Bytes {
    var n := |data|;
    if n < 126 then [0x80 + opcode, Byte(n)] + data
    else if n < 0x1_0000 then [0x80 + opcode, 126] + ToBig(n, 2) + data
    else if n < MAX_LENGTH then [0x80 + opcode, 126] + ToBig(n, 8) + data
    else [0x80 + opcode] + data
  }

  function Meant(opcode: bv8, data: Bytes): Frame {
    Frame(1, 0, opcode, false, [], data)
  }

  lemma UnmaskNone(s: Bytes)
    ensures Unmask(s, []) == s
  {
  }

  lemma FirstByteMeant(opcode: bv8, data: Bytes)
    requires opcode <= 15
    ensures FirstByte(Meant(opcode, data)) == 0x80 + opcode
  {
    SentFirst(opcode);
  }

  lemma NumberMark()
    ensures Number(126) == 126 && Byte(126) == 126
  {
    assert !Bit(126, 0) && Bit(126, 1) && Bit(126, 2) && Bit(126, 3);
    assert Bit(126, 4) && Bit(126, 5) && Bit(126, 6) && !Bit(126, 7);
  }

  lemma LengthMark()
    ensures Length7(126) == 126
  {
    assert 126 & 0x7F == (126 as bv8);
    NumberMark();
  }

  lemma SentSize(opcode: bv8, data: Bytes)
    requires MAX_LENGTH <= |data|
    ensures |Sent(opcode, data)| == 1 + |data|
  {
  }

  lemma SentIsWire(opcode: bv8, data: Bytes)
    requires opcode <= 15 && |data| < 0x1_0000
    ensures WellFormed(Meant(opcode, data)) && Sent(opcode, data) == Wire(Meant(opcode, data))
  {
    hide ToBig, Unmask, FirstByte, SecondByte, ShortLength;
    var f, n := Meant(opcode, data), |data|;
    SentHeader(opcode, data);
    UnmaskNone(data);
    var front := [FirstByte(f), SecondByte(f)] + LongLength(n);
    assert front + [] + data == front + data;
    assert [0x80 + opcode, SecondByte(f)] + [] == [0x80 + opcode, SecondByte(f)];
  }

  lemma SentHeader(opcode: bv8, data: Bytes)
    requires opcode <= 15 && |data| < 0x1_0000
    ensures FirstByte(Meant(opcode, data)) == 0x80 + opcode
    ensures SecondByte(Meant(opcode, data)) == if |data| < 126 then Byte(|data|) else 126
  {
    SentFirst(opcode);
    NoMaskBit(Byte(ShortLength(|data|)));
    hide FirstByte;
    FirstByteMeant(opcode, data);
  }

  lemma SentFirst(opcode: bv8)
    requires opcode <= 15
    ensures 0x80 + opcode == (1 << 7) | (0 << 4) | opcode
    ensures Masked(126) == false
  {
  }

  lemma NoMaskBit(l: bv8)
    ensures 0 | l == l
  {
  }

  lemma {:induction false} FramesGrow(s: Bytes, t: Bytes)
    ensures Reference(s).frames <= Reference(s + t).frames
    decreases |t|
  {
    if t == [] {
      assert s + t == s;
    } else {
      hide Complete, HeaderSize, Parsed;
      assert (s + t)[..|s + t| - 1] == s + t[..|t| - 1];
      FramesGrow(s, t[..|t| - 1]);
    }
  }

  /** A frame needs two bytes more than its payload. */
  lemma {:induction false} FramesFit(s: Bytes)
    ensures |Reference(s).rest| <= |s|
    ensures forall f | f in Reference(s).frames :: |f.data| + 2 <= |s|
    decreases |s|
  {
    if s != [] {
      hide Complete, HeaderSize, Parsed;
      FramesFit(s[..|s| - 1]);
      var c, b := Reference(s[..|s| - 1]), s[|s| - 1];
      if Complete(c.rest) { ParsedFits(c.rest); }
      var r := if Complete(c.rest) then [b] else c.rest + [b];
      if Complete(r) { ParsedFits(r); }
    }
  }

  lemma ParsedFits(w: Bytes)
    requires Complete(w)
    ensures |Parsed(w).data| + 2 <= |w| && |Parsed(w).data| == |w| - HeaderSize(w)
  {
  }

  /** A long message is cut short: the first frame that comes out ends early. */
  lemma LongIsCut(opcode: bv8, data: Bytes)
    requires opcode <= 15 && 0x1_0000 <= |data| < MAX_LENGTH
    ensures Reference(Sent(opcode, data)).frames != [Meant(opcode, data)]
  {
    hide Reference, Parsed, Length7, Masked, Unmask;
    var n, s := |data|, Sent(opcode, data);
    var l := n / 0x1_0000_0000_0000;
    assert l < 0x1_0000 && 4 + l < |s|;
    var w := s[..4 + l];
    assert Masked(126) == false by { SentFirst(opcode); }
    LengthMark();
    TopBytes(n);
    assert w[1] == 126 && w[2..4] == ToBig(n, 8)[..2];
    assert Complete(w);
    CutFrame(s, w, l);
  }

  /** The first two of eight bytes of a number. */
  lemma TopBytes(n: nat)
    requires n < MAX_LENGTH
    ensures Big(ToBig(n, 8)[..2]) == n / 0x1_0000_0000_0000
  {
    var m := n / 0x1_0000_0000_0000;
    TopOf(n, 6, 2);
    assert Power(6) == 0x1_0000_0000_0000 by {
      assert Power(4) == 0x1_0000_0000;
      assert Power(6) == 0x1_0000 * Power(4);
    }
    assert Power(2) == 0x1_0000;
    BigInverse(m, 2);
  }

  lemma {:induction false} TopOf(n: nat, k: nat, j: nat)
    ensures ToBig(n, k + j)[..j] == ToBig(n / Power(k), j)
    decreases k
  {
    if k == 0 {
      assert ToBig(n, j)[..j] == ToBig(n, j);
    } else {
      TopOf(n / 256, k - 1, j);
      assert ToBig(n, k + j) == ToBig(n / 256, k - 1 + j) + [Byte(n % 256)];
      assert ToBig(n, k + j)[..j] == ToBig(n / 256, k - 1 + j)[..j];
      DivTwice(n, Power(k - 1));
    }
  }

  lemma DivTwice(n: nat, m: nat)
    requires m > 0
    ensures n / 256 / m == n / (256 * m)
  {
    var q, r := n / 256 / m, n / 256 % m;
    assert n / 256 == q * m + r;
    assert n == 256 * (q * m + r) + n % 256;
    assert n == q * (256 * m) + (256 * r + n % 256);
    assert 0 <= 256 * r + n % 256 < 256 * m;
    QuotientUnique(n, 256 * m, q, 256 * r + n % 256);
  }

  lemma QuotientUnique(n: nat, d: nat, q: nat, r: nat)
    requires n == q * d + r && r < d
    ensures n / d == q
  {
    var x := n / d - q;
    assert n == (n / d) * d + n % d;
    assert x * d == r - n % d;
    assert x >= 1 ==> x * d >= d;
    assert x <= -1 ==> x * d <= 0 - d;
  }

  lemma CutFrame(s: Bytes, w: Bytes, l: nat)
    requires 4 + l < |s| && w == s[..4 + l] && Complete(w) && HeaderSize(w) == 4
    ensures Reference(s).frames != [] && |Reference(s).frames[0].data| == l
  {
    hide Complete, Parsed, HeaderSize, Reference;
    var b := s[|w|];
    FirstComesOut(w, b);
    ParsedFits(w);
    FramesGrow(w + [b], s[|w| + 1..]);
    assert w + [b] + s[|w| + 1..] == s;
  }

  /** With a byte more than a whole frame, that frame is out. */
  lemma FirstComesOut(w: Bytes, b: bv8)
    requires Complete(w)
    ensures Reference(w + [b]).frames != [] && Reference(w + [b]).frames[0] == Parsed(w)
  {
    hide Complete, Parsed, HeaderSize, Reference;
    ReferenceEmpty();
    CompleteSize(w);
    CollectsFrame([], w, |w|);
    assert w[..|w|] == w && [] + w == w && [] + [Parsed(w)] == [Parsed(w)];
    assert Noticed(Reference(w)) == [Parsed(w)];
    ReferenceSnoc(w, b);
  }

  /** What the server sends is decoded to what was meant exactly for messages of 1
      to 65535 bytes. */
  lemma SentExact(opcode: bv8, data: Bytes)
    requires opcode <= 15
    ensures Receive(IDLE, Sent(opcode, data)) == Conn(None, [Meant(opcode, data)]) <==> 1 <= |data| < 0x1_0000
  {
    hide Sent, Reference, Wire, WellFormed, PartialOf;
    var s, f := Sent(opcode, data), Meant(opcode, data);
    DecodesReference(s);
    if |data| < 0x1_0000 {
      SentIsWire(opcode, data);
      StreamReference([f]);
      assert [f][..0] == [];
      assert WireAll([f]) == Wire(f) by { assert WireAll([]) == []; assert [] + Wire(f) == Wire(f); }
    } else if |data| < MAX_LENGTH {
      LongIsCut(opcode, data);
    } else {
      FramesFit(s);
      SentSize(opcode, data);
      assert f in [f] && |f.data| == |data|;
    }
  }

  // ---- The reader, a buffer at a time ----

  /** The state `c` is that of `s`, except that what happens before the next byte may
      have happened already, if there is one. */
  ghost predicate Reached(c: Conn, start: Conn, buf: Bytes, i: nat)
    requires Sane(start) && i <= |buf|
  {
    && Sane(c)
    && (if i == |buf| then c == Receive(start, buf[..i]) else Prepare(c) == Prepare(Receive(start, buf[..i])))
  }

  lemma ReachedExactly(c: Conn, start: Conn, buf: Bytes, i: nat)
    requires Sane(start) && i <= |buf| && c == Receive(start, buf[..i])
    ensures Reached(c, start, buf, i)
  {
  }

  /** Consuming a byte from a state that is reached. */
  lemma FeedReached(c: Conn, start: Conn, buf: Bytes, i: nat)
    requires Sane(start) && i < |buf| && Reached(c, start, buf, i)
    ensures Feed(c, buf[i]) == Receive(start, buf[..i + 1])
  {
    assert buf[..i + 1][..i] == buf[..i];
  }

  lemma ConsistentBound(p: Partial)
    requires Consistent(p) && p.state == KeyRead
    ensures |p.data| <= p.size
  {
  }

  lemma ReceiveNothing(c: Conn)
    requires Sane(c)
    ensures Receive(c, []) == c
  {
  }

  // What a byte does in each state.

  lemma FeedBegin(c: Conn, b: bv8)
    requires c.frame.None?
    ensures Feed(c, b) == c.(frame := Some(Begin(b)))
  {
  }

  lemma FeedLengthLength(p: Partial, d: seq<Frame>, b: bv8)
    requires Consistent(p) && p.state == OpcodeRead
    ensures Feed(Conn(Some(p), d), b) == Conn(Some(ReadLengthLength(p, b)), d)
  {
  }

  lemma FeedLength(p: Partial, d: seq<Frame>, b: bv8)
    requires Consistent(p) && p.state == LengthLengthRead && 0 < p.payloadBytes
    ensures Feed(Conn(Some(p), d), b) == Conn(Some(ReadLength(p, b)), d)
  {
  }

  lemma FeedKey(p: Partial, d: seq<Frame>, b: bv8)
    requires Consistent(p) && p.state == LengthRead
    ensures Feed(Conn(Some(p), d), b) == Conn(Some(ReadKey(p, b)), d)
  {
  }

  lemma FeedData(p: Partial, d: seq<Frame>, b: bv8)
    requires Consistent(p) && p.state == KeyRead && |p.data| < p.size
    ensures Consistent(ReadData(p, b)) && ReadData(p, b).state == KeyRead
    ensures |ReadData(p, b).data| == |p.data| + 1 && ReadData(p, b).size == p.size
    ensures Feed(Conn(Some(p), d), b)
            == if |p.data| + 1 == p.size then Conn(None, d + [AsFrame(ReadData(p, b))]) else Conn(Some(ReadData(p, b)), d)
  {
  }

  /** The steps that need no byte change nothing for the next one. */
  lemma StepsAhead(p: Partial, d: seq<Frame>)
    requires Consistent(p)
    ensures p.state == LengthLengthRead && p.payloadBytes == 0 ==>
              Consistent(AfterLength(p)) && Prepare(Conn(Some(AfterLength(p)), d)) == Prepare(Conn(Some(p), d))
    ensures p.state == KeyRead && |p.data| == p.size ==>
              Prepare(Conn(None, d + [AsFrame(p)])) == Prepare(Conn(Some(p), d))
  {
  }

  class Connection {
    var frame: Option<Partial>
    /** The frames given to the callbacks so far. */
    var delivered: seq<Frame>

    function Value(): Conn
      reads this
    {
      Conn(frame, delivered)
    }

    predicate Valid()
      reads this
    {
      Sane(Value())
    }

    constructor ()
      ensures Valid() && Value() == IDLE
    {
      frame, delivered := None, [];
    }

    method Deliver()
      requires frame.Some?
      modifies this
      ensures Value() == Conn(None, old(delivered) + [AsFrame(old(frame).value)])
    {
      delivered := delivered + [AsFrame(frame.value)];
      frame := None;
    }

    /** Bytes of the extended length, as far as there are any. */
    method ReadLengthBytes(readbuf: Bytes, ptr: nat, ghost start: Conn) returns (dataPtr: nat)
      requires Sane(start) && ptr < |readbuf| && Reached(Value(), start, readbuf, ptr)
      requires frame.Some? && frame.value.state == LengthLengthRead
      modifies this
      ensures ptr <= dataPtr <= |readbuf| && frame.Some? && Reached(Value(), start, readbuf, dataPtr)
      ensures dataPtr < |readbuf| ==> frame.value.state in {LengthRead, KeyRead}
    {
      hide Feed, Prepare, Receive, Big, KeyBytes;
      dataPtr := ptr;
      var p := frame.value;
      ghost var d := delivered;
      while p.payloadBytes > 0 && dataPtr < |readbuf|
        invariant ptr <= dataPtr <= |readbuf| && Consistent(p) && p.state == LengthLengthRead && delivered == d
        invariant dataPtr == ptr ==> frame == Some(p)
        invariant dataPtr == ptr || 0 < p.payloadBytes ==> Reached(Conn(Some(p), d), start, readbuf, dataPtr)
        invariant dataPtr > ptr && p.payloadBytes == 0 ==> Conn(Some(AfterLength(p)), d) == Receive(start, readbuf[..dataPtr])
        decreases |readbuf| - dataPtr
      {
        FeedReached(Conn(Some(p), d), start, readbuf, dataPtr);
        FeedLength(p, d, readbuf[dataPtr]);
        p := p.(size := 256 * p.size + Number(readbuf[dataPtr]), payloadBytes := p.payloadBytes - 1);
        dataPtr := dataPtr + 1;
        if p.payloadBytes > 0 { ReachedExactly(Conn(Some(p), d), start, readbuf, dataPtr); }
      }
      if p.payloadBytes == 0 {
        ghost var q := AfterLength(p);
        StepsAhead(p, d);
        if dataPtr > ptr { ReachedExactly(Conn(Some(q), d), start, readbuf, dataPtr); }
        assert Reached(Conn(Some(q), d), start, readbuf, dataPtr);
        p := p.(state := if p.hasMask then LengthRead else KeyRead);
        assert p == q;
      }
      frame := Some(p);
    }

    method ReadKeyBytes(readbuf: Bytes, ptr: nat, ghost start: Conn) returns (dataPtr: nat)
      requires Sane(start) && ptr < |readbuf| && Reached(Value(), start, readbuf, ptr)
      requires frame.Some? && frame.value.state == LengthRead
      modifies this
      ensures ptr < dataPtr <= |readbuf| && frame.Some? && Reached(Value(), start, readbuf, dataPtr)
      ensures dataPtr < |readbuf| ==> frame.value.state == KeyRead
    {
      hide Feed, Prepare, Receive;
      dataPtr := ptr;
      var p := frame.value;
      ghost var d := delivered;
      while p.maskBytes > 0 && dataPtr < |readbuf|
        invariant ptr <= dataPtr <= |readbuf| && Consistent(p) && delivered == d
        invariant p.state == if p.maskBytes > 0 then LengthRead else KeyRead
        invariant p.maskBytes == 0 ==> ptr < dataPtr
        invariant Reached(Conn(Some(p), d), start, readbuf, dataPtr)
        decreases |readbuf| - dataPtr
      {
        FeedReached(Conn(Some(p), d), start, readbuf, dataPtr);
        FeedKey(p, d, readbuf[dataPtr]);
        p := p.(mask := p.mask + [readbuf[dataPtr]], maskBytes := p.maskBytes - 1);
        dataPtr := dataPtr + 1;
        if p.maskBytes == 0 {
          p := p.(state := KeyRead);
        }
        ReachedExactly(Conn(Some(p), d), start, readbuf, dataPtr);
      }
      frame := Some(p);
    }

    /** Payload, as much as is there and belongs to the frame. */
    method ReadPayload(readbuf: Bytes, ptr: nat, ghost start: Conn) returns (dataPtr: nat)
      requires Sane(start) && ptr < |readbuf| && Reached(Value(), start, readbuf, ptr)
      requires frame.Some? && frame.value.state == KeyRead
      modifies this
      ensures ptr <= dataPtr <= |readbuf| && Reached(Value(), start, readbuf, dataPtr)
      ensures dataPtr == ptr || dataPtr < |readbuf| ==> frame.None?
    {
      hide Feed, Prepare, Receive, ReadData, Consistent;
      var p := frame.value;
      ghost var d := delivered;
      ConsistentBound(p);
      var remaining := |readbuf| - ptr;
      remaining := if remaining > p.size - |p.data| then p.size - |p.data| else remaining;
      var i := 0;
      while i < remaining
        invariant 0 <= i <= remaining && Consistent(p) && p.state == KeyRead && delivered == d
        invariant |p.data| + (remaining - i) <= p.size
        invariant remaining < |readbuf| - ptr ==> |p.data| + (remaining - i) == p.size
        invariant i == 0 ==> frame == Some(p)
        invariant i == 0 || |p.data| < p.size ==> Reached(Conn(Some(p), d), start, readbuf, ptr + i)
        invariant 0 < i && |p.data| == p.size ==> Receive(start, readbuf[..ptr + i]) == Conn(None, d + [AsFrame(p)])
      {
        FeedReached(Conn(Some(p), d), start, readbuf, ptr + i);
        FeedData(p, d, readbuf[ptr + i]);
        p := Unmasked(p, readbuf[ptr + i]);
        i := i + 1;
        if |p.data| < p.size { ReachedExactly(Conn(Some(p), d), start, readbuf, ptr + i); }
      }
      dataPtr := ptr + remaining;
      frame := Some(p);
      if |p.data| == p.size {
        ghost var done := Conn(None, d + [AsFrame(p)]);
        StepsAhead(p, d);
        if i > 0 { ReachedExactly(done, start, readbuf, dataPtr); }
        assert Reached(done, start, readbuf, dataPtr);
        Deliver();
        assert Value() == done;
      }
    }

    /** Unmasks one byte of payload and moves on in the key. */
    method Unmasked(p: Partial, b: bv8) returns (q: Partial)
      requires Consistent(p) && p.state == KeyRead
      ensures q == ReadData(p, b)
    {
      q := p;
      if p.hasMask {
        q := q.(data := q.data + [b ^ q.mask[q.maskIndex]]);
        q := q.(maskIndex := q.maskIndex + 1);
        q := q.(maskIndex := q.maskIndex % 4);
      } else {
        q := q.(data := q.data + [b]);
      }
    }

    /** The first two bytes of a frame. */
    method ReadOpcode(readbuf: Bytes, ptr: nat, ghost start: Conn) returns (dataPtr: nat)
      requires Sane(start) && ptr < |readbuf| && Reached(Value(), start, readbuf, ptr)
      requires frame.Some? ==> frame.value.state == OpcodeRead
      modifies this
      ensures ptr < dataPtr <= |readbuf| && frame.Some? && Reached(Value(), start, readbuf, dataPtr)
      ensures dataPtr < |readbuf| ==> frame.value.state == LengthLengthRead
    {
      hide Feed, Prepare, Receive;
      dataPtr := ptr;
      if frame.None? {
        FeedReached(Value(), start, readbuf, dataPtr);
        FeedBegin(Value(), readbuf[dataPtr]);
        var b := readbuf[dataPtr];
        frame := Some(Partial((b >> 7) & 1, (b >> 4) & 7, b & 0x0F, OpcodeRead, false, 0, [], 0, 0, 0, []));
        dataPtr := dataPtr + 1;
        ReachedExactly(Value(), start, readbuf, dataPtr);
      }
      if dataPtr < |readbuf| {
        FeedReached(Value(), start, readbuf, dataPtr);
        FeedLengthLength(frame.value, delivered, readbuf[dataPtr]);
        frame := Some(ReadLengthLength(frame.value, readbuf[dataPtr]));
        dataPtr := dataPtr + 1;
        ReachedExactly(Value(), start, readbuf, dataPtr);
      }
    }

    /** Takes in one buffer of bytes from the peer. */
    method ReadFrame(readbuf: Bytes)
      requires Valid()
      modifies this
      ensures Valid() && Value() == Receive(old(Value()), readbuf)
    {
      ghost var start := Value();
      var dataPtr := 0;
      assert readbuf[..0] == [];
      hide Receive, Prepare;
      ReceiveNothing(start);
      while dataPtr < |readbuf|
        invariant dataPtr <= |readbuf| && Reached(Value(), start, readbuf, dataPtr)
        decreases |readbuf| - dataPtr, frame.Some?
      {
        if frame.None? || frame.value.state == OpcodeRead {
          dataPtr := ReadOpcode(readbuf, dataPtr, start);
        }
        if dataPtr < |readbuf| && frame.value.state == LengthLengthRead {
          dataPtr := ReadLengthBytes(readbuf, dataPtr, start);
        }
        if dataPtr < |readbuf| && frame.value.state == LengthRead {
          dataPtr := ReadKeyBytes(readbuf, dataPtr, start);
        }
        if dataPtr < |readbuf| && frame.value.state == KeyRead {
          dataPtr := ReadPayload(readbuf, dataPtr, start);
        }
      }
      assert readbuf[..|readbuf|] == readbuf;
    }
  }

  /** Writes one frame. */
  method Send(opcode: bv8, data: Bytes) returns (sendbuf: Bytes)
    requires opcode <= 15 && |data| < 0x1_0000_0000_0000_0000
    ensures sendbuf == Sent(opcode, data)
  {
    var length := |data|;
    sendbuf := [0x80 + opcode];
    if length < 126 {
      sendbuf := sendbuf + [Byte(length)];
    } else if length < 0x1_0000 {
      sendbuf := sendbuf + [126] + ToBig(length, 2);
    } else if length < MAX_LENGTH {
      sendbuf := sendbuf + [126] + ToBig(length, 8);
    }
    sendbuf := sendbuf + data;
  }
}
