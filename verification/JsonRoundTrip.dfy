/** What is written as JSON is read back as it was: through the escapes, the
    tokenizer and the two stacks, exactly as long as no string holds a vertical tab
    or a NUL. */
module JsonRoundTrip {
  import opened Jsmn
  import opened Json

  // ---- Which data can be written ----

  predicate CleanText(s: string) {
    VTAB !in s && '\0' !in s
  }

  /** Text that is one primitive for the tokenizer and has no escapes. */
  predicate PrimitiveText(s: string) {
    && s != "" && s[0] != '{' && s[0] != '[' && s[0] != '\"'
    && forall c | c in s :: 32 < (c as int) < 127 && !EndsPrimitive(c) && c != '\\'
  }

  predicate Sorted(es: seq<Entry>) {
    forall i: nat, j: nat | i < j < |es| :: Less(es[i].key, es[j].key)
  }

  /** Non-empty compounds all the way down to quoted strings and primitives. */
  predicate Plain(d: Data) {
    if d.compound != [] then
      && d.atom == "" && d.kind == Interpreted && Sorted(d.compound)
      && forall j: nat | j < |d.compound| :: Plain(d.compound[j].value)
    else d.kind == Verbatim || PrimitiveText(d.atom)
  }

  /** No key and no quoted string holds a vertical tab or a NUL. */
  predicate Clean(d: Data) {
    if d.compound != [] then CleanFrom(d, 0) else d.kind == Verbatim ==> CleanText(d.atom)
  }

  predicate CleanFrom(d: Data, j: nat)
    decreases d, |d.compound| - j
  {
    j < |d.compound| ==>
      CleanText(d.compound[j].key) && Clean(d.compound[j].value) && CleanFrom(d, j + 1)
  }

  // ---- The tokens of a text ----

  function EntryTokens(d: Data, j: nat, pos: nat, ind: nat): seq<Token>
    requires j <= |d.compound|
    decreases d, |d.compound| - j, 0
  {
    if j == |d.compound| then []
    else
      var e := d.compound[j];
      var key := pos + |Lead(j, ind)|;
      var value := key + |Quoted(e.key)| + |Mid(d.compound, j)|;
      [Token(String, key + 1, key + 1 + |Escape(e.key)|, 0)] + TokensOf(e.value, value, ind + 1)
      + EntryTokens(d, j + 1, value + |Text(e.value, ind + 1)|, ind)
  }

  function TokensOf(d: Data, pos: nat, ind: nat): seq<Token>
    decreases d, |d.compound| + 1, 1
  {
    if d.compound != [] then
      [Token(Object, pos, pos + |Text(d, ind)|, 2 * |d.compound|)] + EntryTokens(d, 0, pos + 1, ind)
    else if d.kind == Verbatim then [Token(String, pos + 1, pos + 1 + |Escape(d.atom)|, 0)]
    else [Token(Primitive, pos, pos + |Text(d, ind)|, 0)]
  }

  lemma {:induction false} EntryTokensClosed(d: Data, j: nat, pos: nat, ind: nat)
    requires j <= |d.compound|
    ensures AllClosed(EntryTokens(d, j, pos, ind))
    decreases d, |d.compound| - j, 0
  {
    if j < |d.compound| {
      var e := d.compound[j];
      var value := pos + |Lead(j, ind)| + |Quoted(e.key)| + |Mid(d.compound, j)|;
      TokensClosed(e.value, value, ind + 1);
      EntryTokensClosed(d, j + 1, value + |Text(e.value, ind + 1)|, ind);
    }
  }

  lemma {:induction false} TokensClosed(d: Data, pos: nat, ind: nat)
    ensures AllClosed(TokensOf(d, pos, ind))
    decreases d, |d.compound| + 1, 1
  {
    if d.compound != [] {
      EntryTokensClosed(d, 0, pos + 1, ind);
    }
  }

  // ---- Scanning pieces of text ----

  predicate Sits(js: string, pos: nat, t: string) {
    pos + |t| <= |js| && js[pos..pos + |t|] == t
  }

  lemma SitsSplit(js: string, pos: nat, a: string, b: string)
    requires Sits(js, pos, a + b)
    ensures Sits(js, pos, a) && Sits(js, pos + |a|, b)
  {
    var ab := a + b;
    assert js[pos..pos + |a|] == ab[..|a|] by {
      assert js[pos..pos + |ab|][..|a|] == js[pos..pos + |a|];
    }
    assert js[pos + |a|..pos + |ab|] == ab[|a|..] by {
      assert js[pos..pos + |ab|][|a|..] == js[pos + |a|..pos + |ab|];
    }
  }

  lemma SitsAt(js: string, pos: nat, t: string, i: nat)
    requires Sits(js, pos, t) && i < |t|
    ensures pos + i < |js| && js[pos + i] == t[i]
  {
    assert js[pos..pos + |t|][i] == js[pos + i];
  }

  predicate AllBlank(t: string) {
    forall i: nat | i < |t| :: Blank(t[i])
  }

  lemma {:induction false} ScanBlanks(js: string, st: State, t: string, limit: nat)
    requires Sane(st) && Sits(js, st.pos, t) && AllBlank(t)
    ensures Tokenize(js, st, limit) == Tokenize(js, st.(pos := st.pos + |t|), limit)
    decreases |t|
  {
    if t != "" {
      SitsAt(js, st.pos, t, 0);
      SitsSplit(js, st.pos, t[..1], t[1..]);
      assert t == t[..1] + t[1..];
      ScanBlanks(js, st.(pos := st.pos + 1), t[1..], limit);
    } else {
      assert st.(pos := st.pos + |t|) == st;
    }
  }

  lemma ScanEscapedChar(js: string, i: nat, c: char)
    requires Sits(js, i, EscapeChar(c))
    ensures
      if c == VTAB || c == '\0' then StringEnd(js, i).Err? else StringEnd(js, i) == StringEnd(js, i + |EscapeChar(c)|)
  {
    SitsAt(js, i, EscapeChar(c), 0);
    if |EscapeChar(c)| == 2 { SitsAt(js, i, EscapeChar(c), 1); }
    hide Sits;
  }

  lemma QuoteEnds(js: string, i: nat)
    requires i < |js| && js[i] == '\"'
    ensures StringEnd(js, i) == Ok(i) && CleanText("")
  {
  }

  lemma {:induction false} ScanEscaped(js: string, i: nat, s: string)
    requires Sits(js, i, Escape(s) + "\"")
    ensures if CleanText(s) then StringEnd(js, i) == Ok(i + |Escape(s)|) else StringEnd(js, i).Err?
    decreases |s|
  {
    hide EscapeChar, StringEnd, Sits, CleanText;
    if s == "" {
      assert Escape(s) + "\"" == "\"";
      SitsAt(js, i, "\"", 0);
      QuoteEnds(js, i);
    } else {
      var e, rest := EscapeChar(s[0]), Escape(s[1..]);
      assert Escape(s) + "\"" == e + (rest + "\"");
      SitsSplit(js, i, e, rest + "\"");
      ScanEscapedChar(js, i, s[0]);
      ScanEscaped(js, i + |e|, s[1..]);
      CleanSplit(s);
    }
  }

  lemma CleanSplit(s: string)
    requires s != ""
    ensures CleanText(s) <==> s[0] != VTAB && s[0] != '\0' && CleanText(s[1..])
  {
    assert s == [s[0]] + s[1..];
  }

  /** A quoted string becomes one token, or an error. */
  lemma ScanString(js: string, st: State, s: string, limit: nat)
    requires Sane(st) && Sits(js, st.pos, Quoted(s))
    ensures
      var r := Tokenize(js, st, limit);
      var next := Add(st, Token(String, st.pos + 1, st.pos + 1 + |Escape(s)|, 0), st.pos + |Quoted(s)|);
      if CleanText(s) then r == Err(NoMem) || r == Tokenize(js, next, limit) else r.Err?
  {
    hide StringEnd, Escape, Sits, CleanText, Tokenize, Add;
    assert Quoted(s) == "\"" + (Escape(s) + "\"");
    SitsSplit(js, st.pos, "\"", Escape(s) + "\"");
    SitsAt(js, st.pos, "\"", 0);
    ScanEscaped(js, st.pos + 1, s);
    StringRound(js, st, limit);
  }

  lemma StringRound(js: string, st: State, limit: nat)
    requires Sane(st) && st.pos < |js| && js[st.pos] == '\"'
    ensures
      var r := Tokenize(js, st, limit);
      match StringEnd(js, st.pos + 1)
      case Err(e) => r == Err(e)
      case Ok(end) => r == Err(NoMem) || r == Tokenize(js, Add(st, Token(String, st.pos + 1, end, 0), end + 1), limit)
  {
    hide StringEnd, Add;
  }

  lemma {:induction false} PrimitiveScans(js: string, i: nat, s: string)
    requires Sits(js, i, s) && forall c | c in s :: 32 < (c as int) < 127 && !EndsPrimitive(c)
    requires Ended(js, i + |s|) || EndsPrimitive(js[i + |s|])
    ensures PrimitiveEnd(js, i) == Ok(i + |s|)
    decreases |s|
  {
    hide EndsPrimitive, Sits;
    if s != "" {
      SitsAt(js, i, s, 0);
      assert s[0] in s;
      assert s == s[..1] + s[1..];
      SitsSplit(js, i, s[..1], s[1..]);
      assert forall c | c in s[1..] :: c in s;
      PrimitiveScans(js, i + 1, s[1..]);
    }
  }

  lemma ScanPrimitive(js: string, st: State, s: string, limit: nat)
    requires Sane(st) && Sits(js, st.pos, s) && PrimitiveText(s)
    requires Ended(js, st.pos + |s|) || EndsPrimitive(js[st.pos + |s|])
    ensures
      var r := Tokenize(js, st, limit);
      r == Err(NoMem) || r == Tokenize(js, Add(st, Token(Primitive, st.pos, st.pos + |s|, 0), st.pos + |s|), limit)
  {
    SitsAt(js, st.pos, s, 0);
    assert s[0] in s;
    PrimitiveScans(js, st.pos, s);
  }

  // ---- Scanning values ----

  /** The container on top of the stack is the last open one. */
  predicate Topped(st: State) {
    Sane(st) && st.super == LastOpen(st.tokens, |st.tokens|)
  }

  lemma {:induction false} ClosedOnTop(s: seq<Token>, t: seq<Token>)
    requires AllClosed(t)
    ensures LastOpen(s + t, |s + t|) == LastOpen(s, |s|)
    decreases |t|
  {
    if t == [] {
      assert s + t == s;
    } else {
      var init := t[..|t| - 1];
      assert AllClosed(init) by { assert forall k: nat | k < |init| :: init[k] == t[k]; }
      ClosedOnTop(s, init);
      assert s + t == s + init + [t[|t| - 1]];
      LastOpenPrefix(s + init, s + t, |s + init|);
    }
  }

  lemma {:induction false} LastOpenPrefix(s: seq<Token>, t: seq<Token>, n: nat)
    requires n <= |s| && s <= t
    ensures LastOpen(s, n) == LastOpen(t, n)
    decreases n
  {
    if n > 0 { LastOpenPrefix(s, t, n - 1); }
  }

  /** The state behind a value. */
  function After(st: State, d: Data, ind: nat): State
    requires Sane(st)
  {
    State(st.pos + |Text(d, ind)|, Bump(st.tokens, st.super) + TokensOf(d, st.pos, ind), st.super)
  }

  lemma AfterTopped(st: State, ts: seq<Token>, pos: nat)
    requires Topped(st) && AllClosed(ts)
    ensures Topped(State(pos, Bump(st.tokens, st.super) + ts, st.super))
  {
    BumpShape(st.tokens, st.super);
    SameLastOpen(st.tokens, Bump(st.tokens, st.super), |st.tokens|);
    ClosedOnTop(Bump(st.tokens, st.super), ts);
  }

  function BumpBy(tokens: seq<Token>, i: nat, m: nat): (r: seq<Token>)
    requires i < |tokens|
    ensures |r| == |tokens|
  {
    tokens[i := tokens[i].(size := tokens[i].size + m)]
  }

  /** The state behind the entries from `j` on. */
  function AfterEntries(st: State, d: Data, j: nat, ind: nat): State
    requires 0 <= st.super < |st.tokens| && j <= |d.compound|
  {
    State(st.pos + |EntriesText(d, j, ind)|,
          BumpBy(st.tokens, st.super, 2 * (|d.compound| - j)) + EntryTokens(d, j, st.pos, ind), st.super)
  }

  /** A token more, and going on: the outcome of reading a piece of text. */
  predicate LeadsTo(js: string, st: State, clean: bool, next: State, limit: nat)
    requires Sane(st) && Sane(next)
  {
    var r := Tokenize(js, st, limit);
    if clean then r == Err(NoMem) || r == Tokenize(js, next, limit) else r.Err?
  }

  lemma LeadBlank(j: nat, ind: nat)
    ensures AllBlank(Lead(j, ind)) && Lead(j, ind) != ""
  {
  }

  lemma MidBlank(es: seq<Entry>, j: nat)
    requires j < |es|
    ensures AllBlank(Mid(es, j))
  {
  }

  /** Behind a value in a compound comes something that ends a primitive. */
  lemma EntryFollowed(js: string, pos: nat, d: Data, j: nat, ind: nat)
    requires j <= |d.compound| && Sits(js, pos, EntriesText(d, j, ind) + "\n")
    ensures pos < |js| && EndsPrimitive(js[pos])
  {
    var t := EntriesText(d, j, ind) + "\n";
    SitsAt(js, pos, t, 0);
    if j < |d.compound| {
      LeadBlank(j, ind);
      assert t[0] == Lead(j, ind)[0];
    }
  }

  lemma FivePieces(js: string, pos: nat, l: string, q: string, m: string, v: string, r: string)
    requires Sits(js, pos, l + q + m + v + r + "\n")
    ensures Sits(js, pos, l) && Sits(js, pos + |l|, q) && Sits(js, pos + |l| + |q|, m)
    ensures Sits(js, pos + |l| + |q| + |m|, v) && Sits(js, pos + |l| + |q| + |m| + |v|, r + "\n")
  {
    hide Sits;
    assert l + q + m + v + r + "\n" == l + (q + (m + (v + (r + "\n"))));
    SitsSplit(js, pos, l, q + (m + (v + (r + "\n"))));
    SitsSplit(js, pos + |l|, q, m + (v + (r + "\n")));
    SitsSplit(js, pos + |l| + |q|, m, v + (r + "\n"));
    SitsSplit(js, pos + |l| + |q| + |m|, v, r + "\n");
  }

  /** The pieces of an entry, each in its place. */
  lemma EntryPieces(js: string, pos: nat, d: Data, j: nat, ind: nat)
    requires j < |d.compound| && Sits(js, pos, EntriesText(d, j, ind) + "\n")
    ensures
      var e := d.compound[j];
      var key := pos + |Lead(j, ind)|;
      var mid := key + |Quoted(e.key)|;
      var value := mid + |Mid(d.compound, j)|;
      var rest := value + |Text(e.value, ind + 1)|;
      && Sits(js, pos, Lead(j, ind)) && Sits(js, key, Quoted(e.key)) && Sits(js, mid, Mid(d.compound, j))
      && Sits(js, value, Text(e.value, ind + 1)) && Sits(js, rest, EntriesText(d, j + 1, ind) + "\n")
      && |EntriesText(d, j, ind)| == rest - pos + |EntriesText(d, j + 1, ind)|
  {
    hide Sits, Text, Lead, Mid, Quoted;
    var e := d.compound[j];
    FivePieces(js, pos, Lead(j, ind), Quoted(e.key), Mid(d.compound, j), Text(e.value, ind + 1), EntriesText(d, j + 1, ind));
  }

  /** Reading one entry. */
  lemma {:induction false} ScanEntry(js: string, st: State, d: Data, j: nat, ind: nat, limit: nat)
    requires Topped(st) && 0 <= st.super && Plain(d) && j < |d.compound|
    requires Sits(js, st.pos, EntriesText(d, j, ind) + "\n")
    ensures
      var e := d.compound[j];
      var next := AfterEntry(st, d, j, ind);
      Topped(next) && LeadsTo(js, st, CleanText(e.key) && Clean(e.value), next, limit)
    decreases d, |d.compound| - j, 0
  {
    hide Sits, Tokenize, Text, EntriesText, TokensOf, EntryTokens, Lead, Mid, Quoted, AllBlank, CleanText, Escape;
    var e := d.compound[j];
    EntryPieces(js, st.pos, d, j, ind);
    LeadBlank(j, ind);
    MidBlank(d.compound, j);
    ScanBlanks(js, st, Lead(j, ind), limit);
    var s1 := st.(pos := st.pos + |Lead(j, ind)|);
    ScanString(js, s1, e.key, limit);
    var tok := Token(String, s1.pos + 1, s1.pos + 1 + |Escape(e.key)|, 0);
    var s2 := Add(s1, tok, s1.pos + |Quoted(e.key)|);
    AfterTopped(s1, [tok], s2.pos);
    ScanBlanks(js, s2, Mid(d.compound, j), limit);
    var s3 := s2.(pos := s2.pos + |Mid(d.compound, j)|);
    EntryFollowed(js, s3.pos + |Text(e.value, ind + 1)|, d, j + 1, ind);
    ScanValue(js, s3, e.value, ind + 1, limit);
    TokensClosed(e.value, s3.pos, ind + 1);
    AfterTopped(s3, TokensOf(e.value, s3.pos, ind + 1), s3.pos + |Text(e.value, ind + 1)|);
  }

  /** The state behind an entry. */
  function AfterEntry(st: State, d: Data, j: nat, ind: nat): (r: State)
    requires Sane(st) && j < |d.compound|
    ensures Sane(r)
  {
    var e := d.compound[j];
    var s1 := st.(pos := st.pos + |Lead(j, ind)|);
    var s2 := Add(s1, Token(String, s1.pos + 1, s1.pos + 1 + |Escape(e.key)|, 0), s1.pos + |Quoted(e.key)|);
    After(s2.(pos := s2.pos + |Mid(d.compound, j)|), e.value, ind + 1)
  }

  lemma AfterEntryPlace(st: State, d: Data, j: nat, ind: nat)
    requires Sane(st) && j < |d.compound|
    ensures AfterEntry(st, d, j, ind).super == st.super
    ensures AfterEntry(st, d, j, ind).pos == st.pos + |EntriesText(d, j, ind)| - |EntriesText(d, j + 1, ind)|
  {
    hide Text, Lead, Quoted, Mid, TokensOf;
  }

  lemma EntriesCompose(st: State, d: Data, j: nat, ind: nat)
    requires 0 <= st.super < |st.tokens| && j < |d.compound|
    ensures AfterEntries(AfterEntry(st, d, j, ind), d, j + 1, ind) == AfterEntries(st, d, j, ind)
  {
    hide Text, TokensOf, Lead, Mid, Quoted, Escape;
    var e := d.compound[j];
    var s1 := st.(pos := st.pos + |Lead(j, ind)|);
    var tok := Token(String, s1.pos + 1, s1.pos + 1 + |Escape(e.key)|, 0);
    var next := AfterEntry(st, d, j, ind);
    var v := TokensOf(e.value, s1.pos + |Quoted(e.key)| + |Mid(d.compound, j)|, ind + 1);
    var m := 2 * (|d.compound| - j);
    assert next.tokens == BumpBy(st.tokens, st.super, 2) + [tok] + v;
    assert BumpBy(next.tokens, st.super, m - 2) == BumpBy(st.tokens, st.super, m) + [tok] + v;
    var rest := EntryTokens(d, j + 1, next.pos, ind);
    assert BumpBy(st.tokens, st.super, m) + [tok] + v + rest == BumpBy(st.tokens, st.super, m) + ([tok] + v + rest);
  }

  lemma {:induction false} ScanEntries(js: string, st: State, d: Data, j: nat, ind: nat, limit: nat)
    requires Topped(st) && 0 <= st.super && Plain(d) && d.compound != [] && j <= |d.compound|
    requires Sits(js, st.pos, EntriesText(d, j, ind) + "\n")
    ensures LeadsTo(js, st, CleanFrom(d, j), AfterEntries(st, d, j, ind), limit)
    decreases d, |d.compound| - j, 1
  {
    hide Sits, Tokenize, Text, TokensOf, Lead, Mid, Quoted, CleanText, Escape, AfterEntry, Plain, LastOpen;
    if j < |d.compound| {
      ScanEntry(js, st, d, j, ind, limit);
      EntryPieces(js, st.pos, d, j, ind);
      var next := AfterEntry(st, d, j, ind);
      AfterEntryPlace(st, d, j, ind);
      ScanEntries(js, next, d, j + 1, ind, limit);
      EntriesCompose(st, d, j, ind);
    } else {
      assert AfterEntries(st, d, j, ind) == st by {
        assert BumpBy(st.tokens, st.super, 0) == st.tokens;
      }
    }
  }

  lemma {:induction false} ScanValue(js: string, st: State, d: Data, ind: nat, limit: nat)
    requires Topped(st) && Sits(js, st.pos, Text(d, ind)) && Plain(d)
    requires d.compound != [] || d.kind == Verbatim
             || (st.pos + |Text(d, ind)| < |js| && EndsPrimitive(js[st.pos + |Text(d, ind)|]))
    ensures LeadsTo(js, st, Clean(d), After(st, d, ind), limit)
    decreases d, |d.compound| + 1, 1
  {
    hide Sits, Tokenize, Text, TokensOf, EntriesText, CleanFrom, LastOpen, After, EntryTokens, Spaces;
    if d.compound == [] {
      ScanLeaf(js, st, d, ind, limit);
    } else {
      CompoundPieces(js, st.pos, d, ind);
      var s1 := Open(st, '{');
      OpensCompound(js, st, limit);
      ScanEntries(js, s1, d, 0, ind, limit);
      var s2 := AfterEntries(s1, d, 0, ind);
      var tail := "\n" + Spaces(2 * ind + 2);
      ScanBlanks(js, s2, tail, limit);
      var s3 := s2.(pos := s2.pos + |tail|);
      ClosesCompound(st, d, ind, s3);
      ClosesAt(js, s3, After(st, d, ind), limit);
    }
  }

  lemma ClosesAt(js: string, st: State, next: State, limit: nat)
    requires Sane(st) && Sits(js, st.pos, "}") && Close(st, '}') == Ok(next)
    ensures Sane(next) && Tokenize(js, st, limit) == Tokenize(js, next, limit)
  {
    hide Close;
    SitsAt(js, st.pos, "}", 0);
  }

  lemma ScanLeaf(js: string, st: State, d: Data, ind: nat, limit: nat)
    requires Topped(st) && Sits(js, st.pos, Text(d, ind)) && Plain(d) && d.compound == []
    requires d.kind == Verbatim || (st.pos + |Text(d, ind)| < |js| && EndsPrimitive(js[st.pos + |Text(d, ind)|]))
    ensures LeadsTo(js, st, Clean(d), After(st, d, ind), limit)
  {
    hide Tokenize, LastOpen, Sits;
    if d.kind == Verbatim {
      assert Text(d, ind) == Quoted(d.atom);
      ScanString(js, st, d.atom, limit);
    } else {
      assert Text(d, ind) == d.atom;
      ScanPrimitive(js, st, d.atom, limit);
    }
  }

  lemma OpensCompound(js: string, st: State, limit: nat)
    requires Topped(st) && Sits(js, st.pos, "{")
    ensures Topped(Open(st, '{'))
    ensures LeadsTo(js, st, true, Open(st, '{'), limit)
  {
    SitsAt(js, st.pos, "{", 0);
  }

  lemma CompoundPieces(js: string, pos: nat, d: Data, ind: nat)
    requires d.compound != [] && Sits(js, pos, Text(d, ind))
    ensures
      var e, tail := EntriesText(d, 0, ind), "\n" + Spaces(2 * ind + 2);
      && Sits(js, pos, "{") && Sits(js, pos + 1, e + "\n") && Sits(js, pos + 1 + |e|, tail)
      && Sits(js, pos + 1 + |e| + |tail|, "}") && |Text(d, ind)| == 1 + |e| + |tail| + 1 && AllBlank(tail)
  {
    hide EntriesText, Sits;
    var e, spaces := EntriesText(d, 0, ind), Spaces(2 * ind + 2);
    TextCompound(d, ind);
    FourPieces(js, pos, e, spaces);
    FourPiecesOverlap(js, pos, e, spaces);
  }

  lemma FourPieces(js: string, pos: nat, e: string, spaces: string)
    requires Sits(js, pos, "{" + e + "\n" + spaces + "}")
    ensures
      var tail := "\n" + spaces;
      Sits(js, pos, "{") && Sits(js, pos + 1 + |e|, tail) && Sits(js, pos + 1 + |e| + |tail|, "}")
  {
    hide Sits;
    var tail := "\n" + spaces;
    assert "{" + e + "\n" + spaces + "}" == "{" + (e + (tail + "}"));
    SitsSplit(js, pos, "{", e + (tail + "}"));
    SitsSplit(js, pos + 1, e, tail + "}");
    SitsSplit(js, pos + 1 + |e|, tail, "}");
  }

  lemma FourPiecesOverlap(js: string, pos: nat, e: string, spaces: string)
    requires Sits(js, pos, "{" + e + "\n" + spaces + "}")
    ensures Sits(js, pos + 1, e + "\n")
  {
    hide Sits;
    assert "{" + e + "\n" + spaces + "}" == "{" + ((e + "\n") + (spaces + "}"));
    SitsSplit(js, pos, "{", (e + "\n") + (spaces + "}"));
    SitsSplit(js, pos + 1, e + "\n", spaces + "}");
  }

  /** Closing the last open token of a table that has only closed ones behind it. */
  lemma ClosesLast(under: seq<Token>, open: Token, es: seq<Token>, pos: nat)
    requires IsOpen(open) && AllClosed(es)
    ensures
      var tokens := under + [open] + es;
      && LastOpen(tokens, |tokens|) == |under| && tokens[|under|] == open
      && tokens[|under| := open.(end := pos)] == under + ([open.(end := pos)] + es)
      && LastOpen(tokens[|under| := open.(end := pos)], |under|) == LastOpen(under, |under|)
  {
    ClosedOnTop(under + [open], es);
    var tokens := under + [open] + es;
    LastOpenPrefix(under, tokens[|under| := open.(end := pos)], |under|);
  }

  /** The closing brace finds the compound's own token. */
  lemma ClosesCompound(st: State, d: Data, ind: nat, s3: State)
    requires Topped(st) && d.compound != []
    requires s3 == AfterEntries(Open(st, '{'), d, 0, ind).(pos := st.pos + |Text(d, ind)| - 1)
    ensures Close(s3, '}') == Ok(After(st, d, ind))
  {
    hide Text, EntriesText, EntryTokens, LastOpen;
    var n := |d.compound|;
    var under := Bump(st.tokens, st.super);
    var open := Token(Object, st.pos, -1, 2 * n);
    var es := EntryTokens(d, 0, st.pos + 1, ind);
    var first := under + [Token(Object, st.pos, -1, 0)];
    assert BumpBy(first, |under|, 2 * n) == under + [open];
    assert s3.tokens == under + [open] + es;
    EntryTokensClosed(d, 0, st.pos + 1, ind);
    ClosesLast(under, open, es, s3.pos + 1);
    BumpShape(st.tokens, st.super);
    SameLastOpen(st.tokens, under, |under|);
  }

  lemma TokenizeEnds(js: string, st: State, limit: nat)
    requires Sane(st) && Ended(js, st.pos) && AllClosed(st.tokens)
    ensures Tokenize(js, st, limit) == Ok(st.tokens)
  {
  }

  /** What is written tokenizes exactly if it is clean. */
  lemma TextTokenizes(d: Data)
    requires Plain(d) && d.compound != []
    ensures
      var r := Retry(ToJSON(d), 8);
      if Clean(d) then r == Ok(TokensOf(d, 0, 1)) else r.Err?
  {
    hide Tokenize, Text, TokensOf, Plain, Clean;
    var js := ToJSON(d);
    RetryIsEnough(js);
    assert Sits(js, 0, js);
    ScanValue(js, START, d, 1, |js|);
    if Clean(d) {
      var st := After(START, d, 1);
      assert st.tokens == TokensOf(d, 0, 1);
      TokensClosed(d, 0, 1);
      TokenizeEnds(js, st, |js|);
    }
  }

  // ---- Escapes ----

  lemma UnescapeEscapedChar(c: char, rest: string)
    requires c != VTAB
    ensures Unescape(EscapeChar(c) + rest) == [c] + Unescape(rest)
  {
    var t := EscapeChar(c) + rest;
    if |EscapeChar(c)| == 2 {
      assert t[2..] == rest;
    } else {
      assert t[1..] == rest;
    }
  }

  /** Escaping is undone. */
  lemma {:induction false} UnescapeEscape(s: string)
    requires CleanText(s)
    ensures Unescape(Escape(s)) == s
    decreases |s|
  {
    if s != "" {
      CleanSplit(s);
      UnescapeEscapedChar(s[0], Escape(s[1..]));
      UnescapeEscape(s[1..]);
    }
  }

  lemma {:induction false} UnescapeNothing(s: string)
    requires '\\' !in s
    ensures Unescape(s) == s
    decreases |s|
  {
    if s != "" {
      assert s == [s[0]] + s[1..];
      UnescapeNothing(s[1..]);
    }
  }

  // ---- Keys in order ----

  lemma {:induction false} LessAsymmetric(a: string, b: string)
    requires Less(a, b)
    ensures a != b && !Less(b, a)
    decreases |a|
  {
    if a != "" && a[0] == b[0] {
      LessAsymmetric(a[1..], b[1..]);
    }
  }

  /** A key behind all others is new and goes to the end. */
  lemma {:induction false} AssignLast(es: seq<Entry>, key: string, value: Data)
    requires forall i: nat | i < |es| :: Less(es[i].key, key)
    ensures Assign(es, key, value) == es + [Entry(key, value)] && Lookup(es, key) == DEFAULT
    decreases |es|
  {
    if es != [] {
      LessAsymmetric(es[0].key, key);
      assert forall i: nat | i < |es[1..]| :: es[1..][i] == es[i + 1];
      AssignLast(es[1..], key, value);
      assert es == [es[0]] + es[1..];
    }
  }

  // ---- Building ----

  /** The tokens `ts` stand at place `k` of the table. */
  predicate Stands(tokens: seq<Token>, k: nat, ts: seq<Token>) {
    k + |ts| <= |tokens| && tokens[k..k + |ts|] == ts
  }

  lemma StandsSplit(tokens: seq<Token>, k: nat, a: seq<Token>, b: seq<Token>)
    requires Stands(tokens, k, a + b)
    ensures Stands(tokens, k, a) && Stands(tokens, k + |a|, b)
  {
    var ab := a + b;
    assert tokens[k..k + |a|] == ab[..|a|] by {
      assert tokens[k..k + |ab|][..|a|] == tokens[k..k + |a|];
    }
    assert tokens[k + |a|..k + |ab|] == ab[|a|..] by {
      assert tokens[k..k + |ab|][|a|..] == tokens[k + |a|..k + |ab|];
    }
  }

  lemma StandsAt(tokens: seq<Token>, k: nat, ts: seq<Token>)
    requires Stands(tokens, k, ts) && ts != []
    ensures k < |tokens| && TokenAt(tokens, k) == ts[0]
  {
    assert tokens[k..k + |ts|][0] == tokens[k];
  }

  lemma SliceSits(text: string, pos: nat, t: string, kind: TokenType)
    requires Sits(text, pos, t)
    ensures Slice(text, Token(kind, pos, pos + |t|, 0)) == t
  {
  }

  /** The next token is behind everything up to `end`, or there is none. */
  predicate Behind(tokens: seq<Token>, k: nat, end: int) {
    TokenAt(tokens, k).end == 0 || TokenAt(tokens, k).end > end
  }

  /** A compound with its first `j` entries. */
  function Begun(d: Data, j: nat): Data
    requires j <= |d.compound|
  {
    Data(d.compound[..j], "", Interpreted)
  }

  lemma TextVerbatim(d: Data, ind: nat)
    requires d.compound == [] && d.kind == Verbatim
    ensures Text(d, ind) == Quoted(d.atom)
  {
  }

  lemma BuildLeaf(text: string, tokens: seq<Token>, frames: seq<Data>, keys: seq<string>, open: seq<Token>,
                  cur: nat, d: Data, pos: nat, ind: nat)
    requires |keys| == |frames| && frames != [] && d.compound == []
    requires Plain(d) && Clean(d) && Sits(text, pos, Text(d, ind)) && Stands(tokens, cur, TokensOf(d, pos, ind))
    ensures
      Loop(text, tokens, Stacks(frames + [DEFAULT], keys, open), cur)
      == Continue(text, tokens, Pop(Stacks(frames + [d], keys, open)), cur + 1)
  {
    hide Continue, Sits, Stands, Escape, Unescape, Slice, Pop;
    var b := Stacks(frames + [DEFAULT], keys, open);
    var t := TokenAt(tokens, cur);
    StandsAt(tokens, cur, TokensOf(d, pos, ind));
    if d.kind == Verbatim {
      TextVerbatim(d, ind);
      assert Quoted(d.atom) == "\"" + (Escape(d.atom) + "\"");
      SitsSplit(text, pos, "\"", Escape(d.atom) + "\"");
      SitsSplit(text, pos + 1, Escape(d.atom), "\"");
      SliceSits(text, pos + 1, Escape(d.atom), String);
      UnescapeEscape(d.atom);
    } else {
      assert Text(d, ind) == d.atom;
      SliceSits(text, pos, d.atom, Primitive);
      assert '\\' !in d.atom;
      UnescapeNothing(d.atom);
    }
    assert Unescape(Slice(text, t)) == d.atom;
    assert SetLeaf(DEFAULT, d.atom, t) == d;
    assert (frames + [DEFAULT])[..|frames|] + [d] == frames + [d];
  }

  /** The place in the text where entry `j` starts, and that of its value. */
  function ValueAt(d: Data, j: nat, pos: nat, ind: nat): nat
    requires j < |d.compound|
  {
    pos + |Lead(j, ind)| + |Quoted(d.compound[j].key)| + |Mid(d.compound, j)|
  }

  function KeyToken(d: Data, j: nat, pos: nat, ind: nat): Token
    requires j < |d.compound|
  {
    var key := pos + |Lead(j, ind)|;
    Token(String, key + 1, key + 1 + |Escape(d.compound[j].key)|, 0)
  }

  lemma EntryTokensStand(tokens: seq<Token>, cur: nat, d: Data, j: nat, pos: nat, ind: nat)
    requires j < |d.compound| && Stands(tokens, cur, EntryTokens(d, j, pos, ind))
    ensures
      var value := ValueAt(d, j, pos, ind);
      var v := d.compound[j].value;
      var next := value + |Text(v, ind + 1)|;
      && cur < |tokens| && TokenAt(tokens, cur) == KeyToken(d, j, pos, ind)
      && Stands(tokens, cur + 1, TokensOf(v, value, ind + 1))
      && Stands(tokens, cur + 1 + |TokensOf(v, value, ind + 1)|, EntryTokens(d, j + 1, next, ind))
      && |EntryTokens(d, j, pos, ind)| == 1 + |TokensOf(v, value, ind + 1)| + |EntryTokens(d, j + 1, next, ind)|
  {
    hide Stands, Text, Lead, Mid, Quoted, Escape, TokensOf;
    var value, v := ValueAt(d, j, pos, ind), d.compound[j].value;
    StandsThree(tokens, cur, KeyToken(d, j, pos, ind), TokensOf(v, value, ind + 1),
                EntryTokens(d, j + 1, value + |Text(v, ind + 1)|, ind));
  }

  lemma StandsThree(tokens: seq<Token>, cur: nat, k: Token, ts: seq<Token>, rest: seq<Token>)
    requires Stands(tokens, cur, [k] + ts + rest)
    ensures cur < |tokens| && TokenAt(tokens, cur) == k
    ensures Stands(tokens, cur + 1, ts) && Stands(tokens, cur + 1 + |ts|, rest)
  {
    hide Stands;
    StandsAt(tokens, cur, [k] + ts + rest);
    StandsSplit(tokens, cur, [k] + ts, rest);
    StandsSplit(tokens, cur, [k], ts);
  }

  lemma FirstBehind(d: Data, tokens: seq<Token>, cur: nat, j: nat, pos: nat, ind: nat, end: nat)
    requires j < |d.compound| && Stands(tokens, cur, EntryTokens(d, j, pos, ind)) && end <= pos
    ensures Behind(tokens, cur, end)
  {
    EntryTokensStand(tokens, cur, d, j, pos, ind);
  }

  /** What a compound's own frame is when `j` of its entries are in. */
  lemma EntryDone(frames: seq<Data>, keys: seq<string>, open: seq<Token>, d: Data, j: nat)
    requires |keys| == |frames| && j < |d.compound| && Sorted(d.compound)
    ensures Lookup(Begun(d, j).compound, d.compound[j].key) == DEFAULT
    ensures
      Pop(Stacks(frames + [Begun(d, j)] + [d.compound[j].value], keys + [d.compound[j].key], open))
      == Stacks(frames + [Begun(d, j + 1)], keys, open)
  {
    var e := d.compound[j];
    AssignLast(d.compound[..j], e.key, e.value);
    assert d.compound[..j + 1] == d.compound[..j] + [e];
    var b := Stacks(frames + [Begun(d, j)] + [e.value], keys + [e.key], open);
    assert b.frames[..|b.frames| - 2] == frames && b.keys[..|b.frames| - 2] == keys;
  }

  /** Going on after a key. */
  lemma TakesKey(text: string, tokens: seq<Token>, frames: seq<Data>, keys: seq<string>, open: seq<Token>, t: Token,
                 cur: nat, d: Data, j: nat, pos: nat, ind: nat)
    requires |keys| == |frames| && j < |d.compound| && Sorted(d.compound) && CleanText(d.compound[j].key)
    requires t.kind == Object && KeyToken(d, j, pos, ind).end <= t.end
    requires cur < |tokens| && TokenAt(tokens, cur) == KeyToken(d, j, pos, ind)
    requires Sits(text, pos + |Lead(j, ind)|, Quoted(d.compound[j].key))
    ensures
      Continue(text, tokens, Stacks(frames + [Begun(d, j)], keys, open + [t]), cur)
      == Loop(text, tokens,
              Stacks(frames + [Begun(d, j)] + [DEFAULT], keys + [d.compound[j].key], open + [t]), cur + 1)
  {
    hide Loop, Sits, Escape, Unescape, Slice, Lookup, Lead;
    var key, k := d.compound[j].key, KeyToken(d, j, pos, ind);
    assert Quoted(key) == "\"" + (Escape(key) + "\"");
    SitsSplit(text, k.start - 1, "\"", Escape(key) + "\"");
    SitsSplit(text, k.start, Escape(key), "\"");
    SliceSits(text, k.start, Escape(key), String);
    UnescapeEscape(key);
    EntryDone(frames, keys, open, d, j);
    var b := Stacks(frames + [Begun(d, j)], keys, open + [t]);
    assert Leave(b, k.end) == Some(b);
    assert Push(b, key) == Stacks(frames + [Begun(d, j)] + [DEFAULT], keys + [key], open + [t]);
  }

  /** Leaving a finished compound, or ending inside it, comes to the same. */
  lemma LeavesCompound(text: string, tokens: seq<Token>, frames: seq<Data>, keys: seq<string>, open: seq<Token>, t: Token,
                       cur: nat, d: Data)
    requires |keys| == |frames| && frames != [] && open != [] && 0 <= t.end && Behind(tokens, cur, t.end)
    ensures
      Continue(text, tokens, Stacks(frames + [d], keys, open + [t]), cur)
      == Continue(text, tokens, Pop(Stacks(frames + [d], keys, open)), cur)
  {
    hide Loop, Unescape, Slice, Assign;
    var b := Stacks(frames + [d], keys, open + [t]);
    var p := Pop(Stacks(frames + [d], keys, open));
    assert Pop(b).(open := open) == p;
    CollapseIgnoresOpen(Pop(b), open);
    assert (open + [t])[..|open|] == open;
    if TokenAt(tokens, cur).end != 0 {
      assert Leave(b, TokenAt(tokens, cur).end) == Leave(p, TokenAt(tokens, cur).end);
    }
  }

  lemma {:induction false} CollapseIgnoresOpen(b: Stacks, open: seq<Token>)
    requires Paired(b)
    ensures Collapse(b) == Collapse(b.(open := open))
    decreases |b.frames|
  {
    if |b.frames| > 1 {
      assert Pop(b.(open := open)) == Pop(b).(open := open);
      CollapseIgnoresOpen(Pop(b), open);
    }
  }

  lemma {:induction false} BuildEntries(text: string, tokens: seq<Token>, frames: seq<Data>, keys: seq<string>,
                                        open: seq<Token>, t: Token, cur: nat, d: Data, j: nat, pos: nat, ind: nat)
    requires |keys| == |frames| && Plain(d) && d.compound != [] && j <= |d.compound| && CleanFrom(d, j)
    requires Sits(text, pos, EntriesText(d, j, ind) + "\n") && Stands(tokens, cur, EntryTokens(d, j, pos, ind))
    requires t.kind == Object && pos + |EntriesText(d, j, ind)| <= t.end && Behind(tokens, cur + |EntryTokens(d, j, pos, ind)|, t.end)
    ensures
      Continue(text, tokens, Stacks(frames + [Begun(d, j)], keys, open + [t]), cur)
      == Continue(text, tokens, Stacks(frames + [d], keys, open + [t]), cur + |EntryTokens(d, j, pos, ind)|)
    decreases d, |d.compound| - j, 0
  {
    hide Loop, Continue, Sits, Stands, Text, EntriesText, EntryTokens, TokensOf, Lead, Mid, Quoted, Escape, Pop, CleanText, Less,
         Plain, Clean, Sorted, Begun, KeyToken, ValueAt, Behind;
    if j == |d.compound| {
      BegunAll(d);
      NoMoreEntries(d, pos, ind);
    } else {
      var e := d.compound[j];
      var value := ValueAt(d, j, pos, ind);
      var ts := TokensOf(e.value, value, ind + 1);
      var next, after := value + |Text(e.value, ind + 1)|, cur + 1 + |ts|;
      PlainEntry(d, j);
      EntryPieces(text, pos, d, j, ind);
      ValueAtIs(d, j, pos, ind);
      EntryTokensStand(tokens, cur, d, j, pos, ind);
      KeyInside(d, j, pos, ind);
      TakesKey(text, tokens, frames, keys, open, t, cur, d, j, pos, ind);
      NextBehind(tokens, d, j, after, next, ind, t.end);
      BuildValue(text, tokens, frames + [Begun(d, j)], keys + [e.key], open + [t], cur + 1, e.value, value, ind + 1);
      EntryDone(frames, keys, open + [t], d, j);
      BuildEntries(text, tokens, frames, keys, open, t, after, d, j + 1, next, ind);
    }
  }

  lemma NoMoreEntries(d: Data, pos: nat, ind: nat)
    ensures EntryTokens(d, |d.compound|, pos, ind) == []
  {
  }

  lemma ValueAtIs(d: Data, j: nat, pos: nat, ind: nat)
    requires j < |d.compound|
    ensures ValueAt(d, j, pos, ind) == pos + |Lead(j, ind)| + |Quoted(d.compound[j].key)| + |Mid(d.compound, j)|
  {
  }

  lemma BegunAll(d: Data)
    requires Plain(d) && d.compound != []
    ensures Begun(d, |d.compound|) == d
  {
    assert d.compound[..|d.compound|] == d.compound;
  }

  lemma PlainEntry(d: Data, j: nat)
    requires Plain(d) && j < |d.compound|
    ensures Sorted(d.compound) && Plain(d.compound[j].value)
  {
  }

  /** What follows the value of entry `j` lies behind it. */
  lemma NextBehind(tokens: seq<Token>, d: Data, j: nat, cur: nat, pos: nat, ind: nat, end: int)
    requires j < |d.compound| && pos <= end && Stands(tokens, cur, EntryTokens(d, j + 1, pos, ind))
    requires Behind(tokens, cur + |EntryTokens(d, j + 1, pos, ind)|, end)
    ensures Behind(tokens, cur, pos)
  {
    hide Stands;
    if j + 1 < |d.compound| { FirstBehind(d, tokens, cur, j + 1, pos, ind, pos); }
  }

  lemma KeyInside(d: Data, j: nat, pos: nat, ind: nat)
    requires j < |d.compound|
    ensures KeyToken(d, j, pos, ind).end <= pos + |EntriesText(d, j, ind)|
  {
  }

  lemma {:induction false} BuildValue(text: string, tokens: seq<Token>, frames: seq<Data>, keys: seq<string>,
                                      open: seq<Token>, cur: nat, d: Data, pos: nat, ind: nat)
    requires |keys| == |frames| && frames != [] && open != [] && Plain(d) && Clean(d)
    requires Sits(text, pos, Text(d, ind)) && Stands(tokens, cur, TokensOf(d, pos, ind))
    requires Behind(tokens, cur + |TokensOf(d, pos, ind)|, pos + |Text(d, ind)|)
    ensures
      Loop(text, tokens, Stacks(frames + [DEFAULT], keys, open), cur)
      == Continue(text, tokens, Pop(Stacks(frames + [d], keys, open)), cur + |TokensOf(d, pos, ind)|)
    decreases d, |d.compound| + 1, 1
  {
    hide Loop, Continue, Sits, Stands, Text, Plain, Clean, Pop, Behind;
    if d.compound == [] {
      assert |TokensOf(d, pos, ind)| == 1;
      hide TokensOf;
      BuildLeaf(text, tokens, frames, keys, open, cur, d, pos, ind);
    } else {
      hide TokensOf;
      BuildCompound(text, tokens, frames, keys, open, cur, d, pos, ind);
      var t := Token(Object, pos, pos + |Text(d, ind)|, 2 * |d.compound|);
      LeavesCompound(text, tokens, frames, keys, open, t, cur + |TokensOf(d, pos, ind)|, d);
    }
  }

  lemma {:induction false} BuildCompound(text: string, tokens: seq<Token>, frames: seq<Data>, keys: seq<string>,
                                         open: seq<Token>, cur: nat, d: Data, pos: nat, ind: nat)
    requires |keys| == |frames| && d.compound != [] && Plain(d) && Clean(d)
    requires Sits(text, pos, Text(d, ind)) && Stands(tokens, cur, TokensOf(d, pos, ind))
    requires Behind(tokens, cur + |TokensOf(d, pos, ind)|, pos + |Text(d, ind)|)
    ensures
      var t := Token(Object, pos, pos + |Text(d, ind)|, 2 * |d.compound|);
      Loop(text, tokens, Stacks(frames + [DEFAULT], keys, open), cur)
      == Continue(text, tokens, Stacks(frames + [d], keys, open + [t]), cur + |TokensOf(d, pos, ind)|)
    decreases d, |d.compound| + 1, 0
  {
    hide Continue, Sits, Stands, Text, EntriesText, EntryTokens;
    var t := Token(Object, pos, pos + |Text(d, ind)|, 2 * |d.compound|);
    var es := EntryTokens(d, 0, pos + 1, ind);
    StandsAt(tokens, cur, [t] + es);
    StandsSplit(tokens, cur, [t], es);
    CompoundPieces(text, pos, d, ind);
    assert Begun(d, 0) == DEFAULT;
    BuildEntries(text, tokens, frames, keys, open, t, cur + 1, d, 0, pos + 1, ind);
  }

  // ---- The round trip ----

  lemma TrimKeeps(s: string)
    requires s != "" && !IsSpace(s[0]) && !IsSpace(s[|s| - 1])
    ensures Trim(s) == s
  {
  }

  lemma TextEnds(d: Data, ind: nat)
    requires d.compound != []
    ensures |Text(d, ind)| >= 2 && Text(d, ind)[0] == '{' && Text(d, ind)[|Text(d, ind)| - 1] == '}'
  {
  }

  lemma TokensOfFirst(d: Data, pos: nat, ind: nat)
    requires d.compound != []
    ensures TokensOf(d, pos, ind) != []
    ensures TokensOf(d, pos, ind)[0] == Token(Object, pos, pos + |Text(d, ind)|, 2 * |d.compound|)
  {
  }

  lemma ContinueEnds(text: string, tokens: seq<Token>, d: Data, t: Token)
    ensures Continue(text, tokens, Stacks([d], [], [t]), |tokens|) == Value(d)
  {
  }

  /** Data made of non-empty compounds, quoted strings and primitives is read back
      from its JSON as it was exactly if no key and no quoted string holds a vertical
      tab or a NUL; otherwise reading fails with an error. */
  lemma RoundTrip(d: Data)
    requires Plain(d) && d.compound != []
    ensures FromJSON(ToJSON(d)) == Value(d) <==> Clean(d)
    ensures !Clean(d) ==> FromJSON(ToJSON(d)).Thrown?
  {
    hide Text, TokensOf, Plain, Clean, Retry, Loop, Continue;
    var js := ToJSON(d);
    TextEnds(d, 1);
    TrimKeeps(js);
    TextTokenizes(d);
    if Clean(d) {
      var tokens := TokensOf(d, 0, 1);
      var t := Token(Object, 0, |js|, 2 * |d.compound|);
      TokensOfFirst(d, 0, 1);
      BuildCompound(js, tokens, [], [], [], 0, d, 0, 1);
      assert [] + [DEFAULT] == [DEFAULT] && [] + [d] == [d] && [] + [t] == [t];
      ContinueEnds(js, tokens, d, t);
    }
  }
}
