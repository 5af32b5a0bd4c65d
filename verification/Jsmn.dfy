/** The JSON tokenizer: one pass over the text that fills a table of tokens. */
module Jsmn {

  datatype TokenType = Primitive | Object | Array | String

  /** `end` is -1 as long as a container is open. */
  datatype Token = Token(kind: TokenType, start: int, end: int, size: nat)

  datatype Error = NoMem | Inval | Part

  datatype Result<T> = Ok(value: T) | Err(error: Error)

  // ---- Strings and primitives ----

  /** The text ends at its length or at a NUL before. */
  predicate Ended(js: string, i: nat) {
    i >= |js| || js[i] == '\0'
  }

  predicate Escapable(c: char) {
    c in {'\"', '/', '\\', 'b', 'f', 'r', 'n', 't', 'u'}
  }

  /** Where the closing quote is. */
  function StringEnd(js: string, i: nat): (r: Result<nat>)
    ensures r.Ok? ==> i <= r.value < |js| && js[r.value] == '\"'
    ensures r.Err? ==> r.error != NoMem
    decreases |js| - i
  {
    if Ended(js, i) then Err(Part)
    else if js[i] == '\"' then Ok(i)
    else if js[i] == '\\' then
      if i + 1 < |js| && Escapable(js[i + 1]) then StringEnd(js, i + 2) else Err(Inval)
    else StringEnd(js, i + 1)
  }

  predicate Blank(c: char) {
    c in {'\t', '\r', '\n', ' ', ':', ','}
  }

  predicate EndsPrimitive(c: char) {
    Blank(c) || c == ']' || c == '}'
  }

  /** Where a primitive ends. */
  function PrimitiveEnd(js: string, i: nat): (r: Result<nat>)
    ensures r.Ok? && i <= |js| ==> i <= r.value <= |js|
    ensures r.Ok? && !Ended(js, i) && !EndsPrimitive(js[i]) ==> i < r.value
    ensures r.Err? ==> r.error != NoMem
    decreases |js| - i
  {
    if Ended(js, i) || EndsPrimitive(js[i]) then Ok(i)
    else if (js[i] as int) < 32 || (js[i] as int) >= 127 then Err(Inval)
    else PrimitiveEnd(js, i + 1)
  }

  // ---- The parser ----

  datatype State = State(pos: nat, tokens: seq<Token>, super: int)

  const START := State(0, [], -1)

  predicate IsOpen(t: Token) {
    t.start != -1 && t.end == -1
  }

  /** The last open token below `n`, or -1. */
  function LastOpen(tokens: seq<Token>, n: nat): (r: int)
    requires n <= |tokens|
    ensures -1 <= r < n
    ensures r >= 0 ==> IsOpen(tokens[r])
    ensures forall k: nat | r < k < n :: !IsOpen(tokens[k])
  {
    if n == 0 then -1 else if IsOpen(tokens[n - 1]) then n - 1 else LastOpen(tokens, n - 1)
  }

  /** One more token for the container `super`. */
  function Bump(tokens: seq<Token>, super: int): (r: seq<Token>)
    requires -1 <= super < |tokens|
    ensures |r| == |tokens|
  {
    if super == -1 then tokens else tokens[super := tokens[super].(size := tokens[super].size + 1)]
  }

  predicate Sane(st: State) {
    -1 <= st.super < |st.tokens|
  }

  function Opening(c: char): TokenType {
    if c == '{' || c == '}' then Object else Array
  }

  function Open(st: State, c: char): (r: State)
    requires Sane(st)
    ensures Sane(r)
  {
    State(st.pos + 1, Bump(st.tokens, st.super) + [Token(Opening(c), st.pos, -1, 0)], |st.tokens|)
  }

  function Close(st: State, c: char): (r: Result<State>)
    requires Sane(st)
    ensures r.Ok? ==> Sane(r.value) && r.value.pos == st.pos + 1 && |r.value.tokens| == |st.tokens|
    ensures r.Err? ==> r.error == Inval
  {
    var i := LastOpen(st.tokens, |st.tokens|);
    if i == -1 || st.tokens[i].kind != Opening(c) then Err(Inval)
    else
      var tokens := st.tokens[i := st.tokens[i].(end := st.pos + 1)];
      Ok(State(st.pos + 1, tokens, LastOpen(tokens, i)))
  }

  /** A finished token, and going on at `next`. */
  function Add(st: State, t: Token, next: nat): (r: State)
    requires Sane(st)
    ensures Sane(r)
  {
    State(next, Bump(st.tokens, st.super) + [t], st.super)
  }

  /** What one round of the parser's loop does. */
  function Round(js: string, st: State, limit: nat): (r: Result<State>)
    requires Sane(st) && !Ended(js, st.pos)
    ensures r.Ok? ==> Sane(r.value) && st.pos < r.value.pos <= |js|
    ensures r.Ok? ==> |st.tokens| <= |r.value.tokens| <= |st.tokens| + 1
    ensures r == Err(NoMem) ==> limit <= |st.tokens|
  {
    var c := js[st.pos];
    if c == '{' || c == '[' then
      if |st.tokens| >= limit then Err(NoMem) else Ok(Open(st, c))
    else if c == '}' || c == ']' then Close(st, c)
    else if c == '\"' then
      match StringEnd(js, st.pos + 1)
      case Err(e) => Err(e)
      case Ok(end) =>
        if |st.tokens| >= limit then Err(NoMem) else Ok(Add(st, Token(String, st.pos + 1, end, 0), end + 1))
    else if Blank(c) then Ok(st.(pos := st.pos + 1))
    else
      match PrimitiveEnd(js, st.pos)
      case Err(e) => Err(e)
      case Ok(end) =>
        if |st.tokens| >= limit then Err(NoMem) else Ok(Add(st, Token(Primitive, st.pos, end, 0), end))
  }

  predicate AllClosed(tokens: seq<Token>) {
    forall k: nat | k < |tokens| :: !IsOpen(tokens[k])
  }

  function Tokenize(js: string, st: State, limit: nat): Result<seq<Token>>
    requires Sane(st)
    decreases |js| - st.pos
  {
    if Ended(js, st.pos) then if AllClosed(st.tokens) then Ok(st.tokens) else Err(Part)
    else
      match Round(js, st, limit)
      case Err(e) => Err(e)
      case Ok(st') => Tokenize(js, st', limit)
  }

  // ---- How many tokens are enough ----

  /** With more room for tokens the result is the same, unless room was the problem. */
  lemma {:induction false} MoreRoom(js: string, st: State, limit: nat, more: nat)
    requires Sane(st) && limit <= more
    ensures Tokenize(js, st, limit) == Err(NoMem) || Tokenize(js, st, limit) == Tokenize(js, st, more)
    decreases |js| - st.pos
  {
    if !Ended(js, st.pos) {
      var r := Round(js, st, limit);
      assert r == Err(NoMem) || r == Round(js, st, more);
      if r.Ok? { MoreRoom(js, r.value, limit, more); }
    }
  }

  /** As many tokens as characters are always enough. */
  lemma {:induction false} EnoughRoom(js: string, st: State, limit: nat)
    requires Sane(st) && |st.tokens| <= st.pos && |js| <= limit
    ensures Tokenize(js, st, limit) != Err(NoMem)
    decreases |js| - st.pos
  {
    if !Ended(js, st.pos) {
      var r := Round(js, st, limit);
      if r.Ok? { EnoughRoom(js, r.value, limit); }
    }
  }

  // ---- What the tokens say ----

  predicate IsContainer(t: Token) {
    t.kind == Object || t.kind == Array
  }

  /** Container `i` is around token `j`, as far as known. */
  predicate Around(tokens: seq<Token>, i: nat, j: nat)
    requires i < j < |tokens|
  {
    IsContainer(tokens[i]) && (tokens[i].end == -1 || tokens[j].start < tokens[i].end)
  }

  /** The innermost container around token `j` among the first `n`, or -1. */
  function Inner(tokens: seq<Token>, j: nat, n: nat): (r: int)
    requires n <= j < |tokens|
    ensures -1 <= r < n && (r >= 0 ==> Around(tokens, r, j))
    ensures forall k: nat | r < k < n :: !Around(tokens, k, j)
  {
    if n == 0 then -1 else if Around(tokens, n - 1, j) then n - 1 else Inner(tokens, j, n - 1)
  }

  /** How many of the first `n` tokens have `i` as innermost container. */
  function Count(tokens: seq<Token>, i: nat, n: nat): nat
    requires n <= |tokens|
  {
    if n == 0 then 0 else (if Inner(tokens, n - 1, n - 1) == i then 1 else 0) + Count(tokens, i, n - 1)
  }

  predicate Placed(tokens: seq<Token>, pos: nat, k: nat)
    requires k < |tokens|
  {
    var t := tokens[k];
    && 0 <= t.start < pos
    && (if t.end == -1 then IsContainer(t) else t.start <= t.end <= pos)
    && (IsContainer(t) && t.end != -1 ==> t.start < t.end)
  }

  /** Token `j` comes after `i`, either inside it or behind it. */
  predicate NestedOrApart(tokens: seq<Token>, i: nat, j: nat)
    requires i < j < |tokens|
  {
    var a, b := tokens[i], tokens[j];
    && a.start < b.start
    && (a.end == -1 || a.end <= b.start || (IsContainer(a) && b.end != -1 && b.end < a.end))
  }

  ghost predicate WellPlaced(tokens: seq<Token>, pos: nat) {
    && (forall k: nat | k < |tokens| :: Placed(tokens, pos, k))
    && (forall i: nat, j: nat | i < j < |tokens| :: NestedOrApart(tokens, i, j))
  }

  /** Every container has counted the tokens directly inside. */
  ghost predicate Counted(tokens: seq<Token>) {
    forall i: nat | i < |tokens| && IsContainer(tokens[i]) :: tokens[i].size == Count(tokens, i, |tokens|)
  }

  /** What holds after every round. */
  ghost predicate Tidy(st: State) {
    && WellPlaced(st.tokens, st.pos) && Counted(st.tokens)
    && st.super == LastOpen(st.tokens, |st.tokens|)
  }

  /** The two tables agree but for sizes, on the first `n` tokens. */
  predicate SameShape(s: seq<Token>, t: seq<Token>, n: nat) {
    n <= |s| && n <= |t| && forall k: nat | k < n :: s[k].(size := 0) == t[k].(size := 0)
  }

  lemma {:induction false} SameInner(s: seq<Token>, t: seq<Token>, j: nat, n: nat)
    requires n <= j && SameShape(s, t, j + 1)
    ensures Inner(s, j, n) == Inner(t, j, n)
    decreases n
  {
    if n > 0 {
      assert s[n - 1].(size := 0) == t[n - 1].(size := 0) && s[j].(size := 0) == t[j].(size := 0);
      SameInner(s, t, j, n - 1);
    }
  }

  lemma {:induction false} SameCount(s: seq<Token>, t: seq<Token>, i: nat, n: nat)
    requires SameShape(s, t, n)
    ensures Count(s, i, n) == Count(t, i, n)
    decreases n
  {
    if n > 0 {
      SameInner(s, t, n - 1, n - 1);
      SameCount(s, t, i, n - 1);
    }
  }

  lemma {:induction false} SameLastOpen(s: seq<Token>, t: seq<Token>, n: nat)
    requires SameShape(s, t, n)
    ensures LastOpen(s, n) == LastOpen(t, n)
    decreases n
  {
    if n > 0 {
      assert s[n - 1].(size := 0) == t[n - 1].(size := 0);
      SameLastOpen(s, t, n - 1);
    }
  }

  lemma BumpShape(tokens: seq<Token>, super: int)
    requires -1 <= super < |tokens|
    ensures SameShape(tokens, Bump(tokens, super), |tokens|)
  {
  }

  /** A token that starts behind everything finished lies in the last open container. */
  lemma {:induction false} NewInner(tokens: seq<Token>, pos: nat, n: nat)
    requires n < |tokens| && tokens[|tokens| - 1].start >= pos
    requires forall k: nat | k < |tokens| - 1 :: Placed(tokens, pos, k)
    ensures Inner(tokens, |tokens| - 1, n) == LastOpen(tokens, n)
    decreases n
  {
    if n > 0 {
      assert Placed(tokens, pos, n - 1);
      NewInner(tokens, pos, n - 1);
    }
  }

  lemma LastOpenNext(tokens: seq<Token>, n: nat)
    requires n < |tokens|
    ensures LastOpen(tokens, n + 1) == if IsOpen(tokens[n]) then n else LastOpen(tokens, n)
  {
  }

  /** A new token `t` in state `st`, counted by the container around it. */
  lemma NewToken(st: State, t: Token, pos: nat)
    requires Sane(st) && Tidy(st) && t.start >= st.pos && t.size == 0 && st.pos <= pos
    requires t.start < pos && if t.end == -1 then IsContainer(t) else t.start <= t.end <= pos && !IsContainer(t)
    ensures
      var tokens := Bump(st.tokens, st.super) + [t];
      && WellPlaced(tokens, pos) && Counted(tokens)
      && LastOpen(tokens, |tokens|) == if t.end == -1 then |st.tokens| else st.super
  {
    hide Count, LastOpen, Inner, Counted;
    var tokens, n := Bump(st.tokens, st.super) + [t], |st.tokens|;
    BumpShape(st.tokens, st.super);
    assert SameShape(st.tokens, tokens, n);
    forall k: nat | k < n ensures Placed(tokens, st.pos, k) && Placed(tokens, pos, k) {
      assert st.tokens[k].(size := 0) == tokens[k].(size := 0);
      assert Placed(st.tokens, st.pos, k);
    }
    forall i: nat, j: nat | i < j < |tokens| ensures NestedOrApart(tokens, i, j) {
      assert st.tokens[i].(size := 0) == tokens[i].(size := 0);
      assert Placed(tokens, st.pos, i);
      if j < n {
        assert st.tokens[j].(size := 0) == tokens[j].(size := 0);
        assert NestedOrApart(st.tokens, i, j);
      }
    }
    NewCounts(st, t);
    SameLastOpen(st.tokens, tokens, n);
    LastOpenNext(tokens, n);
  }

  lemma NewCounts(st: State, t: Token)
    requires Sane(st) && Tidy(st) && t.start >= st.pos && t.size == 0
    ensures Counted(Bump(st.tokens, st.super) + [t])
  {
    hide Inner, LastOpen;
    var tokens, n := Bump(st.tokens, st.super) + [t], |st.tokens|;
    BumpShape(st.tokens, st.super);
    assert SameShape(st.tokens, tokens, n);
    forall k: nat | k < n ensures Placed(tokens, st.pos, k) {
      assert st.tokens[k].(size := 0) == tokens[k].(size := 0);
      assert Placed(st.tokens, st.pos, k);
    }
    NewInner(tokens, st.pos, n);
    SameLastOpen(st.tokens, tokens, n);
    forall i: nat | i < |tokens| && IsContainer(tokens[i]) ensures tokens[i].size == Count(tokens, i, |tokens|) {
      SameCount(st.tokens, tokens, i, n);
      if i < n {
        assert st.tokens[i].(size := 0) == tokens[i].(size := 0);
        assert st.tokens[i].size == Count(st.tokens, i, n);
      } else {
        NothingInside(tokens, n, n);
      }
    }
  }

  lemma {:induction false} NothingInside(tokens: seq<Token>, i: nat, n: nat)
    requires n <= |tokens| && n <= i
    ensures Count(tokens, i, n) == 0
    decreases n
  {
    if n > 0 { NothingInside(tokens, i, n - 1); }
  }

  // ---- Closing a container ----

  lemma {:induction false} ClosedInner(tokens: seq<Token>, pos: nat, i: nat, j: nat, n: nat)
    requires n <= j < |tokens| && i < |tokens| && tokens[i].end == -1
    requires i < j ==> tokens[j].start < pos
    ensures Inner(tokens[i := tokens[i].(end := pos)], j, n) == Inner(tokens, j, n)
    decreases n
  {
    if n > 0 { ClosedInner(tokens, pos, i, j, n - 1); }
  }

  lemma {:induction false} ClosedCount(tokens: seq<Token>, pos: nat, i: nat, m: nat, n: nat)
    requires n <= |tokens| && i < |tokens| && tokens[i].end == -1
    requires forall j: nat | i < j < |tokens| :: tokens[j].start < pos
    ensures Count(tokens[i := tokens[i].(end := pos)], m, n) == Count(tokens, m, n)
    decreases n
  {
    if n > 0 {
      ClosedInner(tokens, pos, i, n - 1, n - 1);
      ClosedCount(tokens, pos, i, m, n - 1);
    }
  }

  lemma CloseTidy(st: State, c: char)
    requires Sane(st) && Tidy(st) && Close(st, c).Ok?
    ensures Tidy(Close(st, c).value)
  {
    hide Count, Inner;
    var i, pos := LastOpen(st.tokens, |st.tokens|), st.pos + 1;
    var tokens := st.tokens[i := st.tokens[i].(end := pos)];
    assert Placed(st.tokens, st.pos, i);
    forall k: nat | k < |tokens| ensures Placed(tokens, pos, k) && (i < k ==> st.tokens[k].start < pos && st.tokens[k].end != -1) {
      assert Placed(st.tokens, st.pos, k);
      assert i < k ==> !IsOpen(st.tokens[k]);
    }
    forall a: nat, b: nat | a < b < |tokens| ensures NestedOrApart(tokens, a, b) {
      assert NestedOrApart(st.tokens, a, b) && Placed(st.tokens, st.pos, b) && Placed(st.tokens, st.pos, a);
    }
    forall m: nat | m < |tokens| && IsContainer(tokens[m]) ensures tokens[m].size == Count(tokens, m, |tokens|) {
      ClosedCount(st.tokens, pos, i, m, |tokens|);
      assert st.tokens[m].size == Count(st.tokens, m, |tokens|);
    }
    NoneOpen(tokens, i, |tokens|);
  }

  lemma {:induction false} NoneOpen(tokens: seq<Token>, i: nat, n: nat)
    requires i < n <= |tokens| && forall k: nat | i <= k < n :: !IsOpen(tokens[k])
    ensures LastOpen(tokens, n) == LastOpen(tokens, i)
    decreases n
  {
    if i < n - 1 { NoneOpen(tokens, i, n - 1); }
  }

  lemma MoveTidy(st: State, pos: nat)
    requires Tidy(st) && st.pos <= pos
    ensures Tidy(st.(pos := pos))
  {
    forall k: nat | k < |st.tokens| ensures Placed(st.tokens, pos, k) { assert Placed(st.tokens, st.pos, k); }
  }

  lemma OpenTidy(st: State, c: char)
    requires Sane(st) && Tidy(st)
    ensures Tidy(Open(st, c))
  {
    NewToken(st, Token(Opening(c), st.pos, -1, 0), st.pos + 1);
  }

  lemma AddTidy(st: State, t: Token, next: nat)
    requires Sane(st) && Tidy(st) && st.pos <= t.start <= t.end <= next && t.start < next && t.size == 0 && !IsContainer(t)
    ensures Tidy(Add(st, t, next))
  {
    NewToken(st, t, next);
  }

  lemma RoundTidy(js: string, st: State, limit: nat)
    requires Sane(st) && !Ended(js, st.pos) && Tidy(st) && Round(js, st, limit).Ok?
    ensures Tidy(Round(js, st, limit).value)
  {
    hide Tidy, StringEnd, PrimitiveEnd, Close;
    var c, st' := js[st.pos], Round(js, st, limit).value;
    if c == '{' || c == '[' {
      OpenTidy(st, c);
    } else if c == '}' || c == ']' {
      CloseTidy(st, c);
    } else if c == '\"' {
      var end := StringEnd(js, st.pos + 1).value;
      AddTidy(st, Token(String, st.pos + 1, end, 0), end + 1);
    } else if Blank(c) {
      MoveTidy(st, st.pos + 1);
    } else {
      var end := PrimitiveEnd(js, st.pos).value;
      AddTidy(st, Token(Primitive, st.pos, end, 0), end);
    }
  }

  /** On success every token is closed and in place: starts increase, any two tokens
      are nested or apart, and every container's size is the number of tokens whose
      innermost container it is. */
  lemma {:induction false} ParseTidy(js: string, st: State, limit: nat)
    requires Sane(st) && Tidy(st) && st.pos <= |js|
    ensures
      var r := Tokenize(js, st, limit);
      r.Ok? ==> AllClosed(r.value) && WellPlaced(r.value, |js|) && Counted(r.value)
    decreases |js| - st.pos
  {
    hide Round;
    if Ended(js, st.pos) {
      MoveTidy(st, |js|);
    } else if Round(js, st, limit).Ok? {
      RoundTidy(js, st, limit);
      ParseTidy(js, Round(js, st, limit).value, limit);
    }
  }

  /** What the tokenizer promises from the start. */
  lemma TokensNest(js: string, limit: nat)
    ensures
      var r := Tokenize(js, START, limit);
      r.Ok? ==> AllClosed(r.value) && WellPlaced(r.value, |js|) && Counted(r.value)
  {
    assert Tidy(START);
    ParseTidy(js, START, limit);
  }

  // ---- The parser at work on a token array ----

  class Parser {
    var pos: nat
    var toknext: nat
    var toksuper: int

    constructor ()
      ensures pos == 0 && toknext == 0 && toksuper == -1
    {
      pos, toknext, toksuper := 0, 0, -1;
    }

    /** The state, with the tokens in use. */
    function Value(tokens: array<Token>): State
      requires toknext <= tokens.Length
      reads this, tokens
    {
      State(pos, tokens[..toknext], toksuper)
    }

    predicate Valid(tokens: array<Token>, numTokens: nat)
      reads this, tokens
    {
      toknext <= numTokens <= tokens.Length && Sane(Value(tokens))
    }

    method AllocToken(tokens: array<Token>, numTokens: nat, kind: TokenType, start: int, end: int) returns (ok: bool)
      requires Valid(tokens, numTokens)
      modifies this`toknext, tokens
      ensures ok <==> old(toknext) < numTokens
      ensures toknext <= numTokens
      ensures tokens[..toknext] == if ok then old(tokens[..toknext]) + [Token(kind, start, end, 0)] else old(tokens[..toknext])
    {
      if toknext >= numTokens {
        return false;
      }
      tokens[toknext] := Token(kind, start, end, 0);
      toknext := toknext + 1;
      ok := true;
    }

    /** The container around gets one more token. */
    method CountToken(tokens: array<Token>, numTokens: nat)
      requires Valid(tokens, numTokens)
      modifies tokens
      ensures tokens[..toknext] == Bump(old(tokens[..toknext]), toksuper)
    {
      if toksuper != -1 {
        tokens[toksuper] := tokens[toksuper].(size := tokens[toksuper].size + 1);
      }
    }

    method ParsePrimitive(js: string, tokens: array<Token>, numTokens: nat) returns (r: Result<()>)
      requires Valid(tokens, numTokens) && pos < |js|
      requires !Ended(js, pos) && !EndsPrimitive(js[pos])
      modifies this`pos, this`toknext, tokens
      ensures Appends(js, old(Value(tokens)), PrimitiveEnd(js, old(pos)), old(pos), Primitive, numTokens, r,
                      toknext, tokens[..])
      ensures r.Ok? ==> pos + 1 == PrimitiveEnd(js, old(pos)).value
    {
      var start := pos;
      while !Ended(js, pos) && !EndsPrimitive(js[pos])
        invariant start <= pos <= |js| && PrimitiveEnd(js, pos) == PrimitiveEnd(js, start)
        invariant Valid(tokens, numTokens) && toknext == old(toknext) && tokens[..] == old(tokens[..])
        invariant tokens[..toknext] == old(tokens[..toknext])
        decreases |js| - pos
      {
        if (js[pos] as int) < 32 || (js[pos] as int) >= 127 {
          pos := start;
          return Err(Inval);
        }
        pos := pos + 1;
      }
      var ok := AllocToken(tokens, numTokens, Primitive, start, pos);
      if !ok {
        pos := start;
        return Err(NoMem);
      }
      pos := pos - 1;
      r := Ok(());
    }

    method ParseString(js: string, tokens: array<Token>, numTokens: nat) returns (r: Result<()>)
      requires Valid(tokens, numTokens) && pos < |js|
      modifies this`pos, this`toknext, tokens
      ensures Appends(js, old(Value(tokens)), StringEnd(js, old(pos) + 1), old(pos) + 1, String, numTokens, r,
                      toknext, tokens[..])
      ensures r.Ok? ==> pos == StringEnd(js, old(pos) + 1).value
    {
      var start := pos;
      pos := pos + 1;
      while !Ended(js, pos)
        invariant start < pos && StringEnd(js, pos) == StringEnd(js, start + 1)
        invariant Valid(tokens, numTokens) && toknext == old(toknext) && tokens[..] == old(tokens[..])
        invariant tokens[..toknext] == old(tokens[..toknext])
        decreases |js| - pos
      {
        var c := js[pos];
        if c == '\"' {
          var ok := AllocToken(tokens, numTokens, String, start + 1, pos);
          if !ok {
            pos := start;
            return Err(NoMem);
          }
          return Ok(());
        }
        if c == '\\' {
          pos := pos + 1;
          if !(pos < |js| && Escapable(js[pos])) {
            pos := start;
            return Err(Inval);
          }
        }
        pos := pos + 1;
      }
      pos := start;
      r := Err(Part);
    }

    /** The last open token below `n`. */
    method FindOpen(tokens: array<Token>, n: nat) returns (i: int)
      requires n <= toknext <= tokens.Length
      ensures i == LastOpen(tokens[..toknext], n)
    {
      i := n - 1;
      while i >= 0
        invariant -1 <= i < n && LastOpen(tokens[..toknext], i + 1) == LastOpen(tokens[..toknext], n)
        decreases i
      {
        if tokens[i].start != -1 && tokens[i].end == -1 {
          return;
        }
        i := i - 1;
      }
    }

    method CloseContainer(tokens: array<Token>, numTokens: nat, c: char) returns (r: Result<()>)
      requires Valid(tokens, numTokens)
      modifies this`toksuper, tokens
      ensures
        var s := Close(old(Value(tokens)), c);
        if s.Ok? then r.Ok? && Value(tokens) == s.value.(pos := pos) else r == Err(s.error)
    {
      var i := FindOpen(tokens, toknext);
      if i == -1 {
        return Err(Inval);
      }
      if tokens[i].kind != Opening(c) {
        return Err(Inval);
      }
      tokens[i] := tokens[i].(end := pos + 1);
      assert tokens[..toknext] == old(tokens[..toknext])[i := old(tokens[..toknext])[i].(end := pos + 1)];
      toksuper := FindOpen(tokens, i);
      r := Ok(());
    }

    /** One character, or one string or primitive. */
    method DoRound(js: string, tokens: array<Token>, numTokens: nat) returns (r: Result<()>)
      requires Valid(tokens, numTokens) && !Ended(js, pos)
      modifies this, tokens
      ensures
        var s := Round(js, old(Value(tokens)), numTokens);
        if s.Ok? then r.Ok? && toknext <= numTokens && Value(tokens) == s.value else r == Err(s.error)
    {
      hide StringEnd, PrimitiveEnd, Close, LastOpen, Bump;
      var c := js[pos];
      if c == '{' || c == '[' {
        ghost var was := tokens[..toknext];
        var ok := AllocToken(tokens, numTokens, Opening(c), pos, -1);
        if !ok {
          return Err(NoMem);
        }
        CountToken(tokens, numTokens);
        BumpAppends(was, Token(Opening(c), pos, -1, 0), toksuper);
        toksuper := toknext - 1;
      } else if c == '}' || c == ']' {
        r := CloseContainer(tokens, numTokens, c);
        if r.Err? { return; }
      } else if c == '\"' {
        ghost var was := tokens[..toknext];
        r := ParseString(js, tokens, numTokens);
        if r.Err? { return; }
        CountToken(tokens, numTokens);
        BumpAppends(was, Token(String, old(pos) + 1, pos, 0), toksuper);
      } else if !Blank(c) {
        ghost var was := tokens[..toknext];
        r := ParsePrimitive(js, tokens, numTokens);
        if r.Err? { return; }
        CountToken(tokens, numTokens);
        BumpAppends(was, Token(Primitive, old(pos), pos + 1, 0), toksuper);
      }
      pos := pos + 1;
      r := Ok(());
    }

    /** Fills the array with the tokens of the text. */
    method Parse(js: string, tokens: array<Token>, numTokens: nat) returns (r: Result<()>)
      requires pos == 0 && toknext == 0 && toksuper == -1 && numTokens <= tokens.Length
      modifies this, tokens
      ensures
        var p := Tokenize(js, START, numTokens);
        if p.Ok? then r.Ok? && toknext <= tokens.Length && tokens[..toknext] == p.value else r == Err(p.error)
    {
      hide Round;
      while !Ended(js, pos)
        invariant Valid(tokens, numTokens)
        invariant Tokenize(js, Value(tokens), numTokens) == Tokenize(js, START, numTokens)
        decreases |js| - pos
      {
        r := DoRound(js, tokens, numTokens);
        if r.Err? { return; }
      }
      var i: int := toknext - 1;
      while i >= 0
        invariant -1 <= i < toknext && forall k: nat | i < k < toknext :: !IsOpen(tokens[k])
        decreases i
      {
        if tokens[i].start != -1 && tokens[i].end == -1 {
          assert IsOpen(tokens[..toknext][i]);
          return Err(Part);
        }
        i := i - 1;
      }
      r := Ok(());
    }
  }

  lemma BumpAppends(tokens: seq<Token>, t: Token, super: int)
    requires -1 <= super < |tokens|
    ensures Bump(tokens + [t], super) == Bump(tokens, super) + [t]
  {
  }

  /** A token from `start` to `end` is appended, or an error is reported. */
  predicate Appends(js: string, st: State, end: Result<nat>, start: nat, kind: TokenType, limit: nat, r: Result<()>,
                    toknext: nat, tokens: seq<Token>)
  {
    match end
    case Err(e) => r == Err(e)
    case Ok(p) =>
      if |st.tokens| >= limit then r == Err(NoMem)
      else r.Ok? && toknext <= |tokens| && toknext <= limit && tokens[..toknext] == st.tokens + [Token(kind, start, p, 0)]
  }
}
