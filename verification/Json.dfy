/** Data as JSON: the writer with its escapes, and the reader that builds data from
    the tokenizer's tokens with two stacks. */
module Json {
  import opened Jsmn

  datatype Kind = Verbatim | Interpreted

  /** `compound` is in the order of its keys. */
  datatype Data = Data(compound: seq<Entry>, atom: string, kind: Kind)

  datatype Entry = Entry(key: string, value: Data)

  const DEFAULT := Data([], "", Interpreted)

  // ---- Escapes ----

  const BACKSPACE: char := 8 as char
  const VTAB: char := 11 as char
  const FEED: char := 12 as char

  function EscapeChar(c: char): (r: string)
    ensures r != ""
  {
    if c == '\t' then "\\t"
    else if c == VTAB then "\\v"
    else if c == BACKSPACE then "\\b"
    else if c == FEED then "\\f"
    else if c == '\n' then "\\n"
    else if c == '\r' then "\\r"
    else if c == '\"' then "\\\""
    else if c == '\\' then "\\\\"
    else [c]
  }

  function Escape(s: string): string {
    if s == "" then "" else EscapeChar(s[0]) + Escape(s[1..])
  }

  /** The character after a backslash. */
  function UnescapeChar(c: char): char {
    if c == 'b' then BACKSPACE
    else if c == 'f' then FEED
    else if c == 'n' then '\n'
    else if c == 'r' then '\r'
    else if c == 't' then '\t'
    else c
  }

  function Unescape(s: string): string {
    if s == "" then ""
    else if s[0] == '\\' then
      if |s| == 1 then "" else [UnescapeChar(s[1])] + Unescape(s[2..])
    else [s[0]] + Unescape(s[1..])
  }

  // ---- Writing ----

  function Spaces(n: nat): (r: string)
    ensures |r| == n && forall i: nat | i < n :: r[i] == ' '
  {
    seq(n, _ => ' ')
  }

  function Longest(es: seq<Entry>): (r: nat)
    ensures forall i: nat | i < |es| :: |es[i].key| <= r
  {
    if es == [] then 0
    else
      var l, k := Longest(es[..|es| - 1]), |es[|es| - 1].key|;
      if k > l then k else l
  }

  function Quoted(s: string): string {
    "\"" + Escape(s) + "\""
  }

  /** What comes before a key. */
  function Lead(j: nat, indentation: nat): string {
    (if j == 0 then "" else ", ") + "\n" + Spaces(2 * indentation + 2) + "  "
  }

  /** What comes between a key and its value. */
  function Mid(es: seq<Entry>, j: nat): string
    requires j < |es|
  {
    ": " + Spaces(Longest(es) - |es[j].key|)
  }

  function EntriesText(d: Data, j: nat, indentation: nat): string
    requires j <= |d.compound|
    decreases d, |d.compound| - j, 0
  {
    if j == |d.compound| then ""
    else
      Lead(j, indentation) + Quoted(d.compound[j].key) + Mid(d.compound, j)
      + Text(d.compound[j].value, indentation + 1) + EntriesText(d, j + 1, indentation)
  }

  function Text(d: Data, indentation: nat): string
    decreases d, |d.compound| + 1, 1
  {
    if d.compound != [] then
      "{" + EntriesText(d, 0, indentation) + "\n" + Spaces(2 * indentation + 2) + "}"
    else if d.atom != "" then
      if d.kind == Verbatim then Quoted(d.atom) else d.atom
    else if d.kind == Verbatim then "\"\"" else "null"
  }

  /** The indentation counter starts at one. */
  function ToJSON(d: Data): string {
    Text(d, 1)
  }

  // ---- Ordered keys ----

  predicate Less(a: string, b: string) {
    b != "" && (a == "" || a[0] < b[0] || (a[0] == b[0] && Less(a[1..], b[1..])))
  }

  /** The value for `key`, a default one if there is none. */
  function Lookup(es: seq<Entry>, key: string): Data {
    if es == [] then DEFAULT else if es[0].key == key then es[0].value else Lookup(es[1..], key)
  }

  function Assign(es: seq<Entry>, key: string, value: Data): seq<Entry> {
    if es == [] then [Entry(key, value)]
    else if es[0].key == key then [Entry(key, value)] + es[1..]
    else if Less(key, es[0].key) then [Entry(key, value)] + es
    else [es[0]] + Assign(es[1..], key, value)
  }

  // ---- Building from tokens ----

  /** The two stacks.  A frame holds the value its pointer refers to; it is written
      back under its key when it is popped. */
  datatype Stacks = Stacks(frames: seq<Data>, keys: seq<string>, open: seq<Token>)

  predicate Paired(b: Stacks) {
    |b.frames| == |b.keys| + 1
  }

  /** The data written back one level. */
  function Pop(b: Stacks): (r: Stacks)
    requires Paired(b) && 2 <= |b.frames|
    ensures Paired(r) && |r.frames| == |b.frames| - 1 && r.open == b.open
  {
    var n := |b.frames|;
    var parent := b.frames[n - 2];
    Stacks(b.frames[..n - 2] + [parent.(compound := Assign(parent.compound, b.keys[n - 2], b.frames[n - 1]))],
           b.keys[..n - 2], b.open)
  }

  function Collapse(b: Stacks): Data
    requires Paired(b)
    decreases |b.frames|
  {
    if |b.frames| == 1 then b.frames[0] else Collapse(Pop(b))
  }

  function Push(b: Stacks, key: string): (r: Stacks)
    requires Paired(b)
    ensures Paired(r) && r.open == b.open
  {
    b.(frames := b.frames + [Lookup(b.frames[|b.frames| - 1].compound, key)], keys := b.keys + [key])
  }

  datatype Option<T> = None | Some(value: T)

  /** Leaves the containers that end before `end`; none if a stack would run empty. */
  function Leave(b: Stacks, end: int): (r: Option<Stacks>)
    requires Paired(b)
    ensures r.Some? ==> Paired(r.value) && r.value.open != []
    decreases |b.open|
  {
    if b.open == [] then None
    else if end > b.open[|b.open| - 1].end then
      if |b.frames| < 2 then None else Leave(Pop(b).(open := b.open[..|b.open| - 1]), end)
    else Some(b)
  }

  datatype Reading = Value(data: Data) | Thrown(error: Error) | Arrays | Undefined

  /** Beyond the tokens the table is zero. */
  function TokenAt(tokens: seq<Token>, k: nat): Token {
    if k < |tokens| then tokens[k] else Token(Primitive, 0, 0, 0)
  }

  function Slice(text: string, t: Token): string {
    if 0 <= t.start <= t.end <= |text| then text[t.start..t.end] else ""
  }

  predicate IsLeaf(t: Token) {
    t.kind == Primitive || t.kind == String
  }

  /** The frame on top becomes a leaf. */
  function SetLeaf(d: Data, value: string, t: Token): Data {
    d.(atom := value, kind := if t.kind == String then Verbatim else d.kind)
  }

  function Loop(text: string, tokens: seq<Token>, b: Stacks, cur: nat): Reading
    requires Paired(b)
    decreases |tokens| + 2 - cur, 1
  {
    var t := TokenAt(tokens, cur);
    if cur > |tokens| then Undefined
    else if t.kind == Array then Arrays
    else if t.kind == Object then Continue(text, tokens, b.(open := b.open + [t]), cur + 1)
    else if |b.frames| < 2 then Undefined
    else
      var n := |b.frames|;
      var leaf := SetLeaf(b.frames[n - 1], Unescape(Slice(text, t)), t);
      Continue(text, tokens, Pop(b.(frames := b.frames[..n - 1] + [leaf])), cur + 1)
  }

  function Continue(text: string, tokens: seq<Token>, b: Stacks, cur: nat): Reading
    requires Paired(b)
    decreases |tokens| + 2 - cur, 2
  {
    var t := TokenAt(tokens, cur);
    if t.end == 0 || b.open == [] || cur > |tokens| then Value(Collapse(b))
    else
      match Leave(b, t.end)
      case None => Undefined
      case Some(l) =>
        if l.open[|l.open| - 1].kind == Object && IsLeaf(t) then
          Loop(text, tokens, Push(l, Unescape(Slice(text, t))), cur + 1)
        else if l.open[|l.open| - 1].kind == Array then Arrays
        else Loop(text, tokens, l, cur)
  }

  // ---- Reading ----

  predicate IsSpace(c: char) {
    c in {' ', '\t', '\n', '\r', VTAB, FEED}
  }

  function TrimLeft(s: string): string {
    if s != "" && IsSpace(s[0]) then TrimLeft(s[1..]) else s
  }

  function TrimRight(s: string): string {
    if s != "" && IsSpace(s[|s| - 1]) then TrimRight(s[..|s| - 1]) else s
  }

  function Trim(s: string): string {
    TrimRight(TrimLeft(s))
  }

  /** Tokenizing with more and more room. */
  function Retry(js: string, frac: nat): Result<seq<Token>>
    requires 0 < frac
  {
    var r := Tokenize(js, START, |js| / frac);
    if r == Err(NoMem) && frac > 1 then Retry(js, frac / 2) else r
  }

  /** Up to the first NUL there are only digits, points and minus signs. */
  predicate IsNumeric(s: string) {
    s == "" || s[0] == '\0' || ((s[0] in ".-" || '0' <= s[0] <= '9') && IsNumeric(s[1..]))
  }

  function FromJSON(s: string): Reading {
    var trimmed := Trim(s);
    if trimmed == "" then Value(DEFAULT)
    else if trimmed[0] != '{' && trimmed[0] != '[' then Value(Data([], s, if IsNumeric(s) then Interpreted else Verbatim))
    else
      match Retry(trimmed, 8)
      case Err(e) => Thrown(e)
      case Ok(tokens) =>
        if TokenAt(tokens, 0).end != |trimmed| then Value(DEFAULT)
        else Loop(trimmed, tokens, Stacks([DEFAULT], [], []), 0)
  }

  /** The last retry has room for every token, so the outcome never depends on how
      many retries it took. */
  lemma RetryIsEnough(js: string)
    ensures Retry(js, 8) == Tokenize(js, START, |js|) && Retry(js, 8) != Err(NoMem)
  {
    EnoughRoom(js, START, |js|);
    MoreRoom(js, START, |js| / 8, |js|);
    MoreRoom(js, START, |js| / 4, |js|);
    MoreRoom(js, START, |js| / 2, |js|);
    assert |js| / 1 == |js|;
    assert Retry(js, 1) == Tokenize(js, START, |js|);
    assert Retry(js, 2) == Tokenize(js, START, |js|);
    assert Retry(js, 4) == Tokenize(js, START, |js|);
  }

  // ---- The loops ----

  method EscapeOne(c: char) returns (os: string)
    ensures os == EscapeChar(c)
  {
    if c == '\t' {
      os := "\\t";
    } else if c == VTAB {
      os := "\\v";
    } else if c == BACKSPACE {
      os := "\\b";
    } else if c == FEED {
      os := "\\f";
    } else if c == '\n' {
      os := "\\n";
    } else if c == '\r' {
      os := "\\r";
    } else if c == '\"' {
      os := "\\\"";
    } else if c == '\\' {
      os := "\\\\";
    } else {
      os := [c];
    }
  }

  method JsonEscape(expr: string) returns (os: string)
    ensures os == Escape(expr)
  {
    hide EscapeChar;
    os := "";
    var i := 0;
    while i < |expr|
      invariant 0 <= i <= |expr| && os + Escape(expr[i..]) == Escape(expr)
    {
      assert expr[i..][0] == expr[i] && expr[i..][1..] == expr[i + 1..];
      var e := EscapeOne(expr[i]);
      assert os + (e + Escape(expr[i + 1..])) == os + e + Escape(expr[i + 1..]);
      os := os + e;
      i := i + 1;
    }
    assert os + "" == os;
  }

  /** What is still to come, with a backslash read or not. */
  function Unescaping(escape: bool, rest: string): string {
    if !escape then Unescape(rest)
    else if rest == "" then ""
    else [UnescapeChar(rest[0])] + Unescape(rest[1..])
  }

  lemma UnescapingAll(s: string)
    ensures Unescaping(false, s) == Unescape(s)
  {
  }

  lemma UnescapingEnd(escape: bool)
    ensures Unescaping(escape, "") == ""
  {
  }

  method JsonUnescape(expr: string) returns (output: string)
    ensures output == Unescape(expr)
  {
    hide Unescaping, Unescape, UnescapeChar;
    output := "";
    var escape := false;
    UnescapingAll(expr);
    assert expr[0..] == expr && output + Unescape(expr) == Unescape(expr);
    var i := 0;
    while i < |expr|
      invariant 0 <= i <= |expr| && output + Unescaping(escape, expr[i..]) == Unescape(expr)
    {
      var c := expr[i];
      UnescapingStep(escape, expr[i..], output);
      assert expr[i..][1..] == expr[i + 1..];
      if escape {
        output := output + [UnescapeChar(c)];
        escape := false;
      } else if c == '\\' {
        escape := true;
      } else {
        output := output + [c];
      }
      i := i + 1;
    }
    assert expr[i..] == "" && output + "" == output;
    UnescapingEnd(escape);
  }

  /** One character more. */
  lemma UnescapingStep(escape: bool, rest: string, output: string)
    requires rest != ""
    ensures
      output + Unescaping(escape, rest)
      == if escape then output + [UnescapeChar(rest[0])] + Unescaping(false, rest[1..])
         else if rest[0] == '\\' then output + Unescaping(true, rest[1..])
         else output + [rest[0]] + Unescaping(false, rest[1..])
  {
    var c, more := rest[0], rest[1..];
    if escape {
      assert output + ([UnescapeChar(c)] + Unescape(more)) == output + [UnescapeChar(c)] + Unescape(more);
    } else if c == '\\' {
      assert more != "" ==> rest[2..] == more[1..];
    } else {
      assert output + ([c] + Unescape(more)) == output + [c] + Unescape(more);
    }
  }

  lemma EntriesEnd(d: Data, ind: nat)
    ensures EntriesText(d, |d.compound|, ind) == ""
  {
  }

  lemma TextCompound(d: Data, ind: nat)
    requires d.compound != []
    ensures Text(d, ind) == "{" + EntriesText(d, 0, ind) + "\n" + Spaces(2 * ind + 2) + "}"
  {
  }

  /** The writer and its indentation, raised while a nested value is written. */
  class Writer {
    var dataIndentation: nat

    constructor ()
      ensures dataIndentation == 1
    {
      dataIndentation := 1;
    }

    method ToJSON(data: Data) returns (os: string)
      modifies this
      ensures os == Text(data, old(dataIndentation)) && dataIndentation == old(dataIndentation)
      decreases data
    {
      var indent := Spaces(2 * dataIndentation + 2);
      if data.compound != [] {
        os := WriteCompound(data, indent);
      } else if data.atom != "" {
        if data.kind == Verbatim {
          os := JsonEscape(data.atom);
          os := "\"" + os + "\"";
        } else {
          os := data.atom;
        }
      } else if data.kind == Verbatim {
        os := "\"\"";
      } else {
        os := "null";
      }
    }

    method LongestKey(es: seq<Entry>) returns (longestKey: nat)
      ensures longestKey == Longest(es)
    {
      longestKey := 0;
      var i := 0;
      while i < |es|
        invariant 0 <= i <= |es| && longestKey == Longest(es[..i])
      {
        assert es[..i + 1][..i] == es[..i];
        if |es[i].key| > longestKey {
          longestKey := |es[i].key|;
        }
        i := i + 1;
      }
      assert es[..|es|] == es;
    }

    /** The text up to and including what separates a key from its value. */
    method WriteKey(es: seq<Entry>, i: nat, indent: string, longestKey: nat, seperator: string, ghost ind: nat) returns (os: string)
      requires i < |es| && indent == Spaces(2 * ind + 2) && longestKey == Longest(es)
      requires seperator == if i == 0 then "" else ", "
      ensures os == Lead(i, ind) + Quoted(es[i].key) + Mid(es, i)
    {
      hide Escape, Longest;
      var key := JsonEscape(es[i].key);
      os := seperator + "\n" + indent + "  ";
      os := os + ("\"" + key + "\"");
      os := os + (": " + Spaces(longestKey - |es[i].key|));
    }

    method WriteCompound(data: Data, indent: string) returns (os: string)
      requires data.compound != [] && indent == Spaces(2 * dataIndentation + 2)
      modifies this
      ensures os == Text(data, old(dataIndentation)) && dataIndentation == old(dataIndentation)
      decreases data, 0
    {
      hide Text, Escape, Longest, EntriesText, Lead, Mid, Quoted, Spaces;
      ghost var ind := dataIndentation;
      var es := data.compound;
      var longestKey := LongestKey(es);
      var seperator := "";
      os := "{";
      var i := 0;
      while i < |es|
        invariant 0 <= i <= |es| && dataIndentation == ind
        invariant seperator == if i == 0 then "" else ", "
        invariant os + EntriesText(data, i, ind) == "{" + EntriesText(data, 0, ind)
      {
        var key := WriteKey(es, i, indent, longestKey, seperator, ind);
        dataIndentation := dataIndentation + 1;
        var value := ToJSON(es[i].value);
        dataIndentation := dataIndentation - 1;
        EntryJoins(os, data, i, ind);
        os := os + key;
        os := os + value;
        seperator := ", ";
        i := i + 1;
      }
      EntriesEnd(data, ind);
      assert os + "" == os;
      os := os + "\n" + indent + "}";
      TextCompound(data, ind);
    }
  }

  lemma EntryJoins(os: string, d: Data, j: nat, ind: nat)
    requires j < |d.compound|
    ensures
      os + EntriesText(d, j, ind)
      == os + (Lead(j, ind) + Quoted(d.compound[j].key) + Mid(d.compound, j)) + Text(d.compound[j].value, ind + 1)
         + EntriesText(d, j + 1, ind)
  {
    hide Text, Lead, Quoted, Mid;
  }

  /** Tokenizes with more room as long as there is too little. */
  method TokenizeText(js: string) returns (r: Result<seq<Token>>)
    ensures r == Retry(js, 8)
  {
    hide Tokenize;
    var frac := 8;
    while true
      invariant frac > 0 && Retry(js, frac) == Retry(js, 8)
      decreases frac
    {
      var p := new Parser();
      var nrTokens := |js| / frac;
      var t := new Token[nrTokens](_ => Token(Primitive, 0, 0, 0));
      var rv := p.Parse(js, t, nrTokens);
      if rv == Err(NoMem) && frac > 1 {
        frac := frac / 2;
      } else {
        match rv {
          case Err(e) => r := Err(e);
          case Ok(_) => r := Ok(t[..p.toknext]);
        }
        return;
      }
    }
  }

  /** Pops as long as the next token starts after the container on top. */
  method LeaveContainers(stacks: Stacks, end: int) returns (r: Option<Stacks>)
    requires Paired(stacks)
    ensures r == Leave(stacks, end)
  {
    var b := stacks;
    while b.open != [] && end > b.open[|b.open| - 1].end
      invariant Paired(b) && Leave(b, end) == Leave(stacks, end)
      decreases |b.open|
    {
      if |b.frames| < 2 {
        return None;
      }
      b := Pop(b).(open := b.open[..|b.open| - 1]);
    }
    r := if b.open == [] then None else Some(b);
  }

  method BuildData(text: string, tokens: seq<Token>) returns (r: Reading)
    ensures r == Loop(text, tokens, Stacks([DEFAULT], [], []), 0)
  {
    hide Leave, Pop, Push, Slice, Unescape, Collapse;
    var b := Stacks([DEFAULT], [], []);
    var currTok := 0;
    while currTok <= |tokens|
      invariant Paired(b) && currTok <= |tokens| + 1
      invariant Loop(text, tokens, b, currTok) == Loop(text, tokens, Stacks([DEFAULT], [], []), 0)
      decreases |tokens| + 2 - currTok
    {
      var t := TokenAt(tokens, currTok);
      match t.kind {
        case Array => return Arrays;
        case Object =>
          b := b.(open := b.open + [t]);
        case _ =>
          var n := |b.frames|;
          if n < 2 {
            return Undefined;
          }
          var value := JsonUnescape(Slice(text, t));
          b := Pop(b.(frames := b.frames[..n - 1] + [SetLeaf(b.frames[n - 1], value, t)]));
      }
      currTok := currTok + 1;
      t := TokenAt(tokens, currTok);
      if t.end == 0 || b.open == [] || currTok > |tokens| {
        return Value(Collapse(b));
      }
      var left := LeaveContainers(b, t.end);
      if left.None? {
        return Undefined;
      }
      b := left.value;
      if b.open[|b.open| - 1].kind == Object && IsLeaf(t) {
        var key := JsonUnescape(Slice(text, t));
        b := Push(b, key);
        currTok := currTok + 1;
      } else if b.open[|b.open| - 1].kind == Array {
        return Arrays;
      }
    }
    r := Undefined;
  }

  method ReadJSON(jsonString: string) returns (r: Reading)
    ensures r == FromJSON(jsonString)
  {
    hide Trim, Retry, Loop;
    var trimmed := Trim(jsonString);
    if trimmed == "" {
      return Value(DEFAULT);
    }
    if trimmed[0] != '{' && trimmed[0] != '[' {
      return Value(Data([], jsonString, if IsNumeric(jsonString) then Interpreted else Verbatim));
    }
    var t := TokenizeText(trimmed);
    match t {
      case Err(e) => return Thrown(e);
      case Ok(tokens) =>
        if TokenAt(tokens, 0).end != |trimmed| {
          return Value(DEFAULT);
        }
        r := BuildData(trimmed, tokens);
    }
  }
}
