/** Which texts the tokenizer accepts: a reading of the text with a stack of the
    brackets still open, instead of a search through the token table. */
module Brackets {
  import opened Jsmn

  /** Reading the text from `i` on, with `open` the brackets that still wait for their partners. */
  function Verdict(js: string, i: nat, open: string): Result<()>
    decreases |js| - i
  {
    if i >= |js| || js[i] == '\0' then if open == "" then Ok(()) else Err(Part)
    else if js[i] == '{' || js[i] == '[' then Verdict(js, i + 1, open + [js[i]])
    else if js[i] == '}' || js[i] == ']' then
      if open != "" && open[|open| - 1] == (if js[i] == '}' then '{' else '[')
      then Verdict(js, i + 1, open[..|open| - 1])
      else Err(Inval)
    else if js[i] == '\"' then
      match StringEnd(js, i + 1)
      case Err(e) => Err(e)
      case Ok(end) => Verdict(js, end + 1, open)
    else if Blank(js[i]) then Verdict(js, i + 1, open)
    else
      match PrimitiveEnd(js, i)
      case Err(e) => Err(e)
      case Ok(end) => Verdict(js, end, open)
  }

  /** The opening brackets of the open ones among the first `n` tokens. */
  function OpenBrackets(tokens: seq<Token>, n: nat): string
    requires n <= |tokens|
  {
    if n == 0 then ""
    else OpenBrackets(tokens, n - 1)
         + if IsOpen(tokens[n - 1]) then (if tokens[n - 1].kind == Object then "{" else "[") else ""
  }

  /** Only containers are open. */
  predicate OpenContainers(tokens: seq<Token>) {
    forall t | t in tokens && IsOpen(t) :: IsContainer(t)
  }

  lemma {:induction false} SameOpen(s: seq<Token>, t: seq<Token>, n: nat)
    requires SameShape(s, t, n)
    ensures OpenBrackets(s, n) == OpenBrackets(t, n)
    decreases n
  {
    if n > 0 {
      assert s[n - 1].(size := 0) == t[n - 1].(size := 0);
      SameOpen(s, t, n - 1);
    }
  }

  lemma {:induction false} LastIsOpen(tokens: seq<Token>, n: nat)
    requires n <= |tokens|
    ensures
      var i := LastOpen(tokens, n);
      OpenBrackets(tokens, n)
      == if i == -1 then "" else OpenBrackets(tokens, i) + if tokens[i].kind == Object then "{" else "["
    decreases n
  {
    if n > 0 { LastIsOpen(tokens, n - 1); }
  }

  lemma {:induction false} NoneOpen(tokens: seq<Token>, n: nat)
    requires n <= |tokens|
    ensures OpenBrackets(tokens, n) == "" <==> forall k: nat | k < n :: !IsOpen(tokens[k])
    decreases n
  {
    if n > 0 { NoneOpen(tokens, n - 1); }
  }

  /** One more token. */
  lemma AddedOpen(st: State, t: Token)
    requires Sane(st) && OpenContainers(st.tokens) && (IsOpen(t) ==> IsContainer(t))
    ensures
      var tokens := Bump(st.tokens, st.super) + [t];
      && OpenContainers(tokens)
      && OpenBrackets(tokens, |tokens|)
         == OpenBrackets(st.tokens, |st.tokens|) + if IsOpen(t) then (if t.kind == Object then "{" else "[") else ""
  {
    var bumped, n := Bump(st.tokens, st.super), |st.tokens|;
    var tokens := bumped + [t];
    BumpShape(st.tokens, st.super);
    assert SameShape(tokens, st.tokens, n);
    SameOpen(tokens, st.tokens, n);
    forall u | u in tokens && IsOpen(u) ensures IsContainer(u) {
      if u != t {
        var k :| 0 <= k < n && bumped[k] == u;
        assert st.tokens[k] in st.tokens && st.tokens[k].(size := 0) == u.(size := 0);
      }
    }
  }

  /** The last open token closed. */
  lemma ClosedOpen(st: State, c: char)
    requires Sane(st) && OpenContainers(st.tokens) && (c == '}' || c == ']')
    ensures
      var open := OpenBrackets(st.tokens, |st.tokens|);
      var r := Close(st, c);
      && (r.Ok? <==> open != "" && open[|open| - 1] == (if c == '}' then '{' else '['))
      && (r.Ok? ==> OpenContainers(r.value.tokens) && OpenBrackets(r.value.tokens, |st.tokens|) == open[..|open| - 1])
  {
    hide OpenBrackets, LastOpen;
    var n := |st.tokens|;
    var i := LastOpen(st.tokens, n);
    LastIsOpen(st.tokens, n);
    if i != -1 {
      var t := st.tokens[i];
      assert t in st.tokens && IsContainer(t);
      var tokens := st.tokens[i := t.(end := st.pos + 1)];
      assert SameShape(st.tokens, tokens, i);
      SameOpen(st.tokens, tokens, i);
      StillLast(tokens, i, n);
    }
  }

  lemma {:induction false} StillLast(tokens: seq<Token>, i: nat, n: nat)
    requires i <= n <= |tokens| && forall k: nat | i <= k < n :: !IsOpen(tokens[k])
    ensures OpenBrackets(tokens, n) == OpenBrackets(tokens, i)
    decreases n
  {
    if i < n { StillLast(tokens, i, n - 1); }
  }

  /** One round reads the same piece of the text. */
  lemma RoundReads(js: string, st: State, limit: nat)
    requires Sane(st) && OpenContainers(st.tokens) && |st.tokens| < limit && !Ended(js, st.pos)
    ensures
      var r := Round(js, st, limit);
      var v := Verdict(js, st.pos, OpenBrackets(st.tokens, |st.tokens|));
      if r.Err? then v == Err(r.error)
      else OpenContainers(r.value.tokens) && v == Verdict(js, r.value.pos, OpenBrackets(r.value.tokens, |r.value.tokens|))
  {
    hide OpenBrackets, Close, StringEnd, PrimitiveEnd, OpenContainers;
    var open := OpenBrackets(st.tokens, |st.tokens|);
    var c := js[st.pos];
    assert open + "" == open;
    if c == '{' || c == '[' {
      AddedOpen(st, Token(Opening(c), st.pos, -1, 0));
      assert open + [c] == open + if Opening(c) == Object then "{" else "[";
    } else if c == '}' || c == ']' {
      ClosedOpen(st, c);
    } else if c == '\"' {
      var end := StringEnd(js, st.pos + 1);
      if end.Ok? { AddedOpen(st, Token(String, st.pos + 1, end.value, 0)); }
    } else if !Blank(c) {
      var end := PrimitiveEnd(js, st.pos);
      if end.Ok? { AddedOpen(st, Token(Primitive, st.pos, end.value, 0)); }
    }
  }

  lemma {:induction false} AcceptsFrom(js: string, st: State, limit: nat)
    requires Sane(st) && OpenContainers(st.tokens) && |st.tokens| <= st.pos && |js| <= limit
    ensures
      var r := Tokenize(js, st, limit);
      var v := Verdict(js, st.pos, OpenBrackets(st.tokens, |st.tokens|));
      if r.Ok? then v.Ok? else v == Err(r.error)
    decreases |js| - st.pos
  {
    hide OpenBrackets, Round, OpenContainers;
    if Ended(js, st.pos) {
      NoneOpen(st.tokens, |st.tokens|);
    } else {
      RoundReads(js, st, limit);
      var r := Round(js, st, limit);
      if r.Ok? { AcceptsFrom(js, r.value, limit); }
    }
  }

  /** With room for all tokens, a text is accepted exactly if its brackets match like
      parentheses of two kinds, and otherwise refused for the first thing wrong. */
  lemma AcceptsExactly(js: string, limit: nat)
    requires |js| <= limit
    ensures
      var r := Tokenize(js, START, limit);
      var v := Verdict(js, 0, "");
      if r.Ok? then v.Ok? else v == Err(r.error)
  {
    AcceptsFrom(js, START, limit);
  }
}
