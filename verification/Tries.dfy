/** The prefix index over dotted names.  Nodes live in one growing table and point
    to one another by position. */
module Tries {
  datatype Option<T> = None | Some(value: T)

  // ---- Tokens ----

  predicate Occurs(word: string, sep: string, k: nat) {
    k + |sep| <= |word| && word[k..k + |sep|] == sep
  }

  /** The first occurrence of `sep` in `word` at or after `i`. */
  function Find(word: string, sep: string, i: nat): (r: Option<nat>)
    ensures r.Some? ==> i <= r.value && Occurs(word, sep, r.value) && forall k: nat | i <= k < r.value :: !Occurs(word, sep, k)
    ensures r.None? ==> forall k: nat | i <= k :: !Occurs(word, sep, k)
    decreases |word| - i
  {
    if i + |sep| > |word| then None
    else if Occurs(word, sep, i) then Some(i)
    else Find(word, sep, i + 1)
  }

  /** The next token at or after `offset`, and where to go on. */
  function NextToken(sep: string, word: string, offset: nat): (r: (string, Option<nat>))
    ensures r.1.Some? ==> offset < |word| && offset < r.1.value && r.0 != ""
    decreases |word| - offset
  {
    if offset >= |word| then ("", None)
    else if sep == "" then ([word[offset]], Some(offset + 1))
    else
      match Find(word, sep, offset)
      case None => (word[offset..], None)
      case Some(p) =>
        if p == offset then NextToken(sep, word, offset + |sep|) else (word[offset..p], Some(p + |sep|))
  }

  function TokensFrom(sep: string, word: string, offset: nat): seq<string>
    decreases |word| - offset
  {
    var (token, next) := NextToken(sep, word, offset);
    if next.Some? then [token] + TokensFrom(sep, word, next.value)
    else if token == "" then [] else [token]
  }

  /** The tokens after the next one. */
  function Later(sep: string, word: string, offset: nat): seq<string> {
    var next := NextToken(sep, word, offset).1;
    if next.Some? then TokensFrom(sep, word, next.value) else []
  }

  lemma TokensStep(sep: string, word: string, offset: nat, before: seq<string>)
    ensures
      var (token, next) := NextToken(sep, word, offset);
      before + TokensFrom(sep, word, offset)
      == (if token == "" then before else before + [token]) + Later(sep, word, offset)
  {
    var (token, next) := NextToken(sep, word, offset);
    assert before + ([token] + Later(sep, word, offset)) == before + [token] + Later(sep, word, offset);
    assert [token] + [] == [token];
  }

  function Tokens(sep: string, word: string): seq<string> {
    TokensFrom(sep, word, 0)
  }

  // ---- What tokens are ----

  /** No separator begins inside `t`, even when one follows. */
  predicate Clean(sep: string, t: string) {
    forall k: nat | k < |t| :: !Occurs(t + sep, sep, k)
  }

  ghost predicate Free(sep: string, t: string) {
    forall k: nat :: !Occurs(t, sep, k)
  }

  /** Pieces between which the separators of a word stand. */
  ghost predicate ArePieces(sep: string, ts: seq<string>) {
    ts != [] && (forall i | 0 <= i < |ts| - 1 :: Clean(sep, ts[i])) && Free(sep, ts[|ts| - 1])
  }

  function Joined(sep: string, ts: seq<string>): string {
    if ts == [] then "" else if |ts| == 1 then ts[0] else ts[0] + sep + Joined(sep, ts[1..])
  }

  function NonEmpty(ts: seq<string>): seq<string> {
    if ts == [] then [] else (if ts[0] == "" then [] else [ts[0]]) + NonEmpty(ts[1..])
  }

  /** With a separator of one character the pieces are the strings without it. */
  lemma CleanOne(sep: string, t: string)
    requires |sep| == 1
    ensures Clean(sep, t) <==> sep[0] !in t
    ensures Free(sep, t) <==> sep[0] !in t
  {
    forall k: nat | k < |t| ensures Occurs(t + sep, sep, k) <==> t[k] == sep[0] {
      assert (t + sep)[k..k + 1] == [t[k]] && sep == [sep[0]];
    }
    forall k: nat | k < |t| ensures Occurs(t, sep, k) <==> t[k] == sep[0] {
      assert t[k..k + 1] == [t[k]] && sep == [sep[0]];
    }
    if sep[0] in t {
      var k: nat :| k < |t| && t[k] == sep[0];
      assert Occurs(t, sep, k) && Occurs(t + sep, sep, k);
    }
  }

  lemma OccursInRest(word: string, sep: string, offset: nat, k: nat)
    requires offset <= |word|
    ensures Occurs(word, sep, offset + k) <==> Occurs(word[offset..], sep, k)
  {
    if offset + k + |sep| <= |word| {
      assert word[offset..][k..k + |sep|] == word[offset + k..offset + k + |sep|];
    }
  }

  lemma OccursInFront(a: string, b: string, sep: string, k: nat)
    requires k + |sep| <= |a|
    ensures Occurs(a + b, sep, k) <==> Occurs(a, sep, k)
  {
    assert (a + b)[k..k + |sep|] == a[k..k + |sep|];
  }

  /** The first separator from `offset` on ends the first piece. */
  lemma FirstSeparator(sep: string, word: string, offset: nat, t: string, rest: string)
    requires sep != "" && offset <= |word| && word[offset..] == t + sep + rest && Clean(sep, t)
    ensures offset < |word| && Find(word, sep, offset) == Some(offset + |t|)
  {
    hide Find;
    var end := |t|;
    assert (t + sep)[end..end + |sep|] == sep;
    OccursInFront(t + sep, rest, sep, end);
    OccursInRest(word, sep, offset, end);
    assert Occurs(word, sep, offset + end);
    forall k: nat | offset <= k < offset + end ensures !Occurs(word, sep, k) {
      OccursInFront(t + sep, rest, sep, k - offset);
      OccursInRest(word, sep, offset, k - offset);
    }
    assert |word[offset..]| == |t| + |sep| + |rest|;
  }

  lemma SecondPart(sep: string, word: string, offset: nat, t: string, rest: string)
    requires offset <= |word| && word[offset..] == t + sep + rest
    ensures offset + |t| + |sep| <= |word|
    ensures word[offset..offset + |t|] == t && word[offset + |t| + |sep|..] == rest
  {
    var tail := word[offset..];
    assert tail[..|t|] == t && tail[|t| + |sep|..] == rest;
    assert word[offset..offset + |t|] == tail[..|t|];
    assert word[offset + |t| + |sep|..] == tail[|t| + |sep|..];
  }

  lemma LastPiece(sep: string, word: string, offset: nat, t: string)
    requires sep != "" && offset <= |word| && word[offset..] == t && Free(sep, t)
    ensures TokensFrom(sep, word, offset) == if t == "" then [] else [t]
  {
    forall k: nat | offset <= k ensures !Occurs(word, sep, k) {
      OccursInRest(word, sep, offset, k - offset);
    }
  }

  lemma FirstToken(sep: string, word: string, offset: nat, p: nat)
    requires sep != "" && offset < |word| && Find(word, sep, offset) == Some(p)
    ensures p + |sep| <= |word|
    ensures TokensFrom(sep, word, offset) == (if p == offset then [] else [word[offset..p]]) + TokensFrom(sep, word, p + |sep|)
  {
    hide Find;
    var more := TokensFrom(sep, word, p + |sep|);
    assert [] + more == more;
  }

  lemma PiecesBehind(sep: string, ts: seq<string>)
    requires ArePieces(sep, ts) && |ts| > 1
    ensures ArePieces(sep, ts[1..]) && Clean(sep, ts[0])
  {
    forall i | 0 <= i < |ts[1..]| - 1 ensures Clean(sep, ts[1..][i]) {
      assert ts[1..][i] == ts[i + 1];
    }
    assert ts[1..][|ts| - 2] == ts[|ts| - 1];
  }

  /** From any place on, the tokens are the non-empty pieces of the rest. */
  lemma {:induction false} TokensOfRest(sep: string, word: string, offset: nat, ts: seq<string>)
    requires sep != "" && offset <= |word| && ArePieces(sep, ts) && word[offset..] == Joined(sep, ts)
    ensures TokensFrom(sep, word, offset) == NonEmpty(ts)
    decreases |ts|
  {
    hide TokensFrom, Find, Clean, Free;
    if |ts| == 1 {
      LastPiece(sep, word, offset, ts[0]);
      assert NonEmpty(ts[1..]) == [];
    } else {
      var t, rest := ts[0], Joined(sep, ts[1..]);
      PiecesBehind(sep, ts);
      FirstSeparator(sep, word, offset, t, rest);
      SecondPart(sep, word, offset, t, rest);
      FirstToken(sep, word, offset, offset + |t|);
      TokensOfRest(sep, word, offset + |t| + |sep|, ts[1..]);
    }
  }

  /** Splitting undoes joining: the tokens of pieces put together with separators are
      the pieces that are not empty, so leading, doubled and trailing separators do not
      matter. */
  lemma TokensOfJoined(sep: string, ts: seq<string>)
    requires sep != "" && ArePieces(sep, ts)
    ensures Tokens(sep, Joined(sep, ts)) == NonEmpty(ts)
  {
    var word := Joined(sep, ts);
    assert word[0..] == word;
    TokensOfRest(sep, word, 0, ts);
  }

  /** Every word consists of pieces put together with separators. */
  lemma {:induction false} PiecesOf(sep: string, word: string) returns (ts: seq<string>)
    requires sep != ""
    ensures ArePieces(sep, ts) && Joined(sep, ts) == word
    decreases |word|
  {
    var found := Find(word, sep, 0);
    if found.None? {
      ts := [word];
    } else {
      var p := found.value;
      var t := word[..p];
      var us := PiecesOf(sep, word[p + |sep|..]);
      ts := [t] + us;
      assert ts[1..] == us;
      assert word == t + sep + word[p + |sep|..];
      forall k: nat | k < |t| ensures !Occurs(t + sep, sep, k) {
        assert (t + sep)[k..k + |sep|] == word[k..k + |sep|];
        assert !Occurs(word, sep, k);
      }
      assert forall i | 0 < i < |ts| - 1 :: ts[i] == us[i - 1];
    }
  }

  /** Two words count as one exactly if they have the same non-empty pieces. */
  lemma TokenEqual(sep: string, v: string, w: string, ts: seq<string>, us: seq<string>)
    requires sep != "" && ArePieces(sep, ts) && ArePieces(sep, us) && v == Joined(sep, ts) && w == Joined(sep, us)
    ensures Tokens(sep, v) == Tokens(sep, w) <==> NonEmpty(ts) == NonEmpty(us)
  {
    TokensOfJoined(sep, ts);
    TokensOfJoined(sep, us);
  }

  /** Without a separator every character is a token. */
  lemma {:induction false} TokensOfCharacters(word: string, offset: nat)
    requires offset <= |word|
    ensures |TokensFrom("", word, offset)| == |word| - offset
    ensures forall i: nat | i < |word| - offset :: TokensFrom("", word, offset)[i] == [word[offset + i]]
    decreases |word| - offset
  {
    if offset < |word| {
      TokensOfCharacters(word, offset + 1);
    }
  }

  // ---- Words ----

  predicate Known(sep: string, words: seq<string>, w: string) {
    exists v :: v in words && Tokens(sep, v) == Tokens(sep, w)
  }

  /** The words that are not equal, token by token, to an earlier one. */
  function Firsts(sep: string, words: seq<string>): seq<string> {
    if words == [] then []
    else
      var f, w := Firsts(sep, words[..|words| - 1]), words[|words| - 1];
      if Known(sep, f, w) then f else f + [w]
  }

  lemma FirstsNext(sep: string, words: seq<string>, w: string)
    ensures Firsts(sep, words + [w]) == if Known(sep, Firsts(sep, words), w) then Firsts(sep, words) else Firsts(sep, words) + [w]
  {
    assert (words + [w])[..|words|] == words;
  }

  /** Every added word has exactly one representative, one of the added words. */
  lemma {:induction false} FirstsRepresent(sep: string, words: seq<string>)
    ensures forall w | w in words :: Known(sep, Firsts(sep, words), w)
    ensures forall w | w in Firsts(sep, words) :: w in words
    ensures forall i: nat, j: nat | i < j < |Firsts(sep, words)| ::
              Tokens(sep, Firsts(sep, words)[i]) != Tokens(sep, Firsts(sep, words)[j])
    decreases |words|
  {
    hide Tokens;
    if words != [] {
      FirstsRepresent(sep, words[..|words| - 1]);
      var f, w := Firsts(sep, words[..|words| - 1]), words[|words| - 1];
      assert words == words[..|words| - 1] + [w];
      var g := Firsts(sep, words);
      forall v | v in words ensures Known(sep, g, v) {
        if v != w {
          var u :| u in f && Tokens(sep, u) == Tokens(sep, v);
          assert u in g;
        } else if !Known(sep, f, w) {
          assert w in g;
        }
      }
      if !Known(sep, f, w) {
        forall i: nat | i < |f| ensures Tokens(sep, f[i]) != Tokens(sep, w) { assert f[i] in f; }
      }
    }
  }

  lemma EarlierInFirsts(sep: string, words: seq<string>, v: string, u: string)
    requires words != [] && v in Firsts(sep, words) && u in Firsts(sep, words[..|words| - 1])
    requires Tokens(sep, u) == Tokens(sep, v)
    ensures v in Firsts(sep, words[..|words| - 1])
  {
    hide Tokens;
    var f, w := Firsts(sep, words[..|words| - 1]), words[|words| - 1];
    if v == w { assert Known(sep, f, w); }
  }

  /** The representative is the spelling added first. */
  lemma {:induction false} FirstsEarliest(sep: string, words: seq<string>, k: nat, v: string)
    requires k < |words| && v in Firsts(sep, words) && Tokens(sep, v) == Tokens(sep, words[k])
    ensures exists j: nat :: j <= k && words[j] == v
    decreases |words|
  {
    hide Tokens;
    var init, w := words[..|words| - 1], words[|words| - 1];
    var f := Firsts(sep, init);
    if k < |words| - 1 {
      FirstsRepresent(sep, init);
      assert init[k] in init;
      assert Known(sep, f, init[k]);
      var u :| u in f && Tokens(sep, u) == Tokens(sep, init[k]);
      FirstsRepresent(sep, words);
      EarlierInFirsts(sep, words, v, u);
      FirstsEarliest(sep, init, k, v);
      var j: nat :| j <= k && init[j] == v;
      assert words[j] == v;
    } else {
      FirstsRepresent(sep, words);
      var j :| 0 <= j < |words| && words[j] == v;
    }
  }

  // ---- The table ----

  datatype TrieNode = TrieNode(hasWord: bool, index: nat, value: string, childs: map<string, nat>)

  const EMPTY := TrieNode(false, 0, "", map[])

  /** Every node stands at one path, children one token below their parent. */
  ghost predicate Tree(nodes: seq<TrieNode>, paths: seq<seq<string>>) {
    && |nodes| == |paths| && 0 < |nodes| && paths[0] == []
    && (forall m: nat | m < |nodes| :: ChildsAt(nodes, paths, m))
    && (forall k: nat | k < |nodes| && paths[k] != [] :: HasParent(nodes, paths, k))
    && PathsDiffer(paths)
  }

  predicate ChildsAt(nodes: seq<TrieNode>, paths: seq<seq<string>>, m: nat)
    requires m < |nodes| == |paths|
  {
    forall t | t in nodes[m].childs ::
      t != "" && m < nodes[m].childs[t] < |nodes| && paths[nodes[m].childs[t]] == paths[m] + [t]
  }

  predicate PathsDiffer(paths: seq<seq<string>>) {
    forall m: nat, k: nat | m < |paths| && k < |paths| && paths[m] == paths[k] :: m == k
  }

  /** The child of `m` for `t`. */
  lemma ChildIs(nodes: seq<TrieNode>, paths: seq<seq<string>>, m: nat, t: string)
    requires Tree(nodes, paths) && m < |nodes| && t in nodes[m].childs
    ensures t != "" && m < nodes[m].childs[t] < |nodes| == |paths| && paths[nodes[m].childs[t]] == paths[m] + [t]
  {
    assert ChildsAt(nodes, paths, m);
  }

  predicate IsParent(nodes: seq<TrieNode>, paths: seq<seq<string>>, k: nat, n: nat)
    requires k < |nodes| == |paths| && paths[k] != []
  {
    var t := paths[k][|paths[k]| - 1];
    n < |nodes| && paths[n] == paths[k][..|paths[k]| - 1] && t in nodes[n].childs && nodes[n].childs[t] == k
  }

  ghost predicate HasParent(nodes: seq<TrieNode>, paths: seq<seq<string>>, k: nat)
    requires k < |nodes| == |paths| && paths[k] != []
  {
    exists n: nat :: IsParent(nodes, paths, k, n)
  }

  /** Words sit at the ends of their paths and are numbered in order of arrival. */
  ghost predicate Named(nodes: seq<TrieNode>, paths: seq<seq<string>>, sep: string, firsts: seq<string>)
    requires |nodes| == |paths|
  {
    && (forall m: nat | m < |nodes| && nodes[m].hasWord ::
          nodes[m].index < |firsts| && nodes[m].value == firsts[nodes[m].index] && paths[m] == Tokens(sep, nodes[m].value))
    && (forall i: nat | i < |firsts| :: HasHome(nodes, i))
  }

  ghost predicate HasHome(nodes: seq<TrieNode>, i: nat) {
    exists m: nat :: m < |nodes| && nodes[m].hasWord && nodes[m].index == i
  }

  /** The way down from `m` to a node further below starts with a child of `m`. */
  lemma {:induction false} ChildToward(nodes: seq<TrieNode>, paths: seq<seq<string>>, m: nat, k: nat) returns (c: nat)
    requires Tree(nodes, paths) && m < |nodes| && k < |nodes| && paths[m] < paths[k]
    ensures paths[k][|paths[m]|] in nodes[m].childs && c == nodes[m].childs[paths[k][|paths[m]|]]
    ensures c < |nodes| == |paths| && paths[c] <= paths[k]
    decreases |paths[k]|
  {
    assert HasParent(nodes, paths, k);
    var n: nat :| IsParent(nodes, paths, k, n);
    if |paths[n]| == |paths[m]| {
      assert paths[n] == paths[m];
      c := k;
    } else {
      c := ChildToward(nodes, paths, m, n);
    }
  }

  /** With a node, all shorter paths have nodes. */
  lemma {:induction false} PrefixHasNode(nodes: seq<TrieNode>, paths: seq<seq<string>>, k: nat, p: seq<string>) returns (m: nat)
    requires Tree(nodes, paths) && k < |nodes| && p <= paths[k]
    ensures m < |nodes| && paths[m] == p
    decreases |paths[k]|
  {
    if p == paths[k] {
      m := k;
    } else {
      assert HasParent(nodes, paths, k);
      var n: nat :| IsParent(nodes, paths, k, n);
      m := PrefixHasNode(nodes, paths, n, p);
    }
  }

  // ---- What tokens are ----

  /** Tokens are not empty and contain no separator. */
  lemma {:induction false} TokensArePieces(sep: string, word: string, offset: nat)
    ensures forall t | t in TokensFrom(sep, word, offset) ::
              t != "" && (if sep == "" then |t| == 1 else forall k: nat :: !Occurs(t, sep, k))
    decreases |word| - offset
  {
    NextIsPiece(sep, word, offset);
    var (token, next) := NextToken(sep, word, offset);
    if next.Some? { TokensArePieces(sep, word, next.value); }
  }

  lemma OccursInPart(word: string, sep: string, offset: nat, end: nat, k: nat)
    requires offset <= end <= |word|
    ensures Occurs(word[offset..end], sep, k) <==> k + |sep| <= end - offset && Occurs(word, sep, offset + k)
  {
    var t := word[offset..end];
    if k + |sep| <= |t| {
      var part := word[offset + k..offset + k + |sep|];
      assert t[k..k + |sep|] == part by {
        assert forall i | 0 <= i < |sep| :: t[k..k + |sep|][i] == t[k + i] == word[offset + (k + i)] == part[i];
      }
    }
  }

  lemma {:induction false} NextIsPiece(sep: string, word: string, offset: nat)
    ensures
      var t := NextToken(sep, word, offset).0;
      t != "" ==> if sep == "" then |t| == 1 else forall k: nat :: !Occurs(t, sep, k)
    decreases |word| - offset
  {
    if offset < |word| && sep != "" {
      var p := Find(word, sep, offset);
      if p == Some(offset) {
        NextIsPiece(sep, word, offset + |sep|);
      } else {
        var t := NextToken(sep, word, offset).0;
        var end := if p.None? then |word| else p.value;
        assert t == word[offset..end];
        forall k: nat ensures !Occurs(t, sep, k) {
          OccursInPart(word, sep, offset, end, k);
        }
      }
    }
  }

  // ---- How the table changes ----

  function WithChild(nodes: seq<TrieNode>, m: nat, token: string): seq<TrieNode>
    requires m < |nodes|
  {
    nodes[m := nodes[m].(childs := nodes[m].childs[token := |nodes|])] + [EMPTY]
  }

  lemma PathMeansChild(nodes: seq<TrieNode>, paths: seq<seq<string>>, m: nat, token: string, k: nat)
    requires Tree(nodes, paths) && m < |nodes| && k < |nodes| && paths[k] == paths[m] + [token]
    ensures token in nodes[m].childs
  {
    assert HasParent(nodes, paths, k);
    var n: nat :| IsParent(nodes, paths, k, n);
    assert paths[n] == paths[m];
  }

  lemma GrowsTree(nodes: seq<TrieNode>, paths: seq<seq<string>>, m: nat, token: string)
    requires Tree(nodes, paths) && m < |nodes| && token != "" && token !in nodes[m].childs
    ensures Tree(WithChild(nodes, m, token), paths + [paths[m] + [token]])
  {
    hide ChildsAt, PathsDiffer, HasParent;
    var next, at := WithChild(nodes, m, token), paths + [paths[m] + [token]];
    forall k: nat | k < |next| && at[k] != [] ensures HasParent(next, at, k) { GrowsParent(nodes, paths, m, token, k); }
    forall k: nat | k < |next| ensures ChildsAt(next, at, k) { GrowsChilds(nodes, paths, m, token, k); }
    GrowsApart(nodes, paths, m, token);
  }

  lemma GrowsParent(nodes: seq<TrieNode>, paths: seq<seq<string>>, m: nat, token: string, k: nat)
    requires Tree(nodes, paths) && m < |nodes| && token !in nodes[m].childs && k <= |nodes|
    requires k < |nodes| ==> paths[k] != []
    ensures HasParent(WithChild(nodes, m, token), paths + [paths[m] + [token]], k)
  {
    var next, at := WithChild(nodes, m, token), paths + [paths[m] + [token]];
    if k < |nodes| {
      assert HasParent(nodes, paths, k);
      var n: nat :| IsParent(nodes, paths, k, n);
      assert IsParent(next, at, k, n);
    } else {
      assert at[k][..|at[k]| - 1] == paths[m];
      assert IsParent(next, at, k, m);
    }
  }

  lemma GrowsChilds(nodes: seq<TrieNode>, paths: seq<seq<string>>, m: nat, token: string, k: nat)
    requires Tree(nodes, paths) && m < |nodes| && token != "" && token !in nodes[m].childs && k <= |nodes|
    ensures ChildsAt(WithChild(nodes, m, token), paths + [paths[m] + [token]], k)
  {
    if k < |nodes| { assert ChildsAt(nodes, paths, k); }
  }

  lemma GrowsApart(nodes: seq<TrieNode>, paths: seq<seq<string>>, m: nat, token: string)
    requires Tree(nodes, paths) && m < |nodes| && token !in nodes[m].childs
    ensures PathsDiffer(paths + [paths[m] + [token]])
  {
    var made := paths[m] + [token];
    forall k: nat | k < |nodes| ensures paths[k] != made {
      if paths[k] == made { PathMeansChild(nodes, paths, m, token, k); }
    }
  }

  lemma GrowsNamed(nodes: seq<TrieNode>, paths: seq<seq<string>>, m: nat, token: string, sep: string, firsts: seq<string>)
    requires |nodes| == |paths| && m < |nodes| && Named(nodes, paths, sep, firsts)
    ensures Named(WithChild(nodes, m, token), paths + [paths[m] + [token]], sep, firsts)
  {
    hide Tokens;
    var next := WithChild(nodes, m, token);
    forall i: nat | i < |firsts| ensures HasHome(next, i) {
      assert HasHome(nodes, i);
      var k: nat :| k < |nodes| && nodes[k].hasWord && nodes[k].index == i;
      assert next[k].hasWord && next[k].index == i;
    }
  }

  function WithWord(nodes: seq<TrieNode>, k: nat, index: nat, word: string): seq<TrieNode>
    requires k < |nodes|
  {
    nodes[k := nodes[k].(hasWord := true, index := index, value := word)]
  }

  /** A node holds a word exactly if an equal one has been added. */
  lemma HasWordKnown(nodes: seq<TrieNode>, paths: seq<seq<string>>, sep: string, firsts: seq<string>, word: string, k: nat)
    requires Tree(nodes, paths) && Named(nodes, paths, sep, firsts) && k < |nodes| && paths[k] == Tokens(sep, word)
    ensures nodes[k].hasWord <==> Known(sep, firsts, word)
  {
    hide Tokens;
    if nodes[k].hasWord {
      assert firsts[nodes[k].index] in firsts;
    }
    if Known(sep, firsts, word) {
      var v :| v in firsts && Tokens(sep, v) == Tokens(sep, word);
      var i: nat :| i < |firsts| && firsts[i] == v;
      assert HasHome(nodes, i);
      var m: nat :| m < |nodes| && nodes[m].hasWord && nodes[m].index == i;
      assert paths[m] == paths[k];
    }
  }

  lemma NamesTree(nodes: seq<TrieNode>, paths: seq<seq<string>>, index: nat, word: string, k: nat)
    requires Tree(nodes, paths) && k < |nodes|
    ensures Tree(WithWord(nodes, k, index, word), paths)
  {
    var next := WithWord(nodes, k, index, word);
    hide PathsDiffer;
    forall j: nat | j < |next| && paths[j] != [] ensures HasParent(next, paths, j) {
      assert HasParent(nodes, paths, j);
      var n: nat :| IsParent(nodes, paths, j, n);
      assert IsParent(next, paths, j, n);
    }
    forall j: nat | j < |next| ensures ChildsAt(next, paths, j) { assert ChildsAt(nodes, paths, j); }
  }

  lemma NamesNode(nodes: seq<TrieNode>, paths: seq<seq<string>>, sep: string, firsts: seq<string>, word: string, k: nat)
    requires |nodes| == |paths| && Named(nodes, paths, sep, firsts) && k < |nodes| && paths[k] == Tokens(sep, word)
    requires !nodes[k].hasWord
    ensures Named(WithWord(nodes, k, |firsts|, word), paths, sep, firsts + [word])
  {
    hide Tokens;
    var next, more := WithWord(nodes, k, |firsts|, word), firsts + [word];
    forall i: nat | i < |more| ensures HasHome(next, i) {
      if i < |firsts| {
        assert HasHome(nodes, i);
        var m: nat :| m < |nodes| && nodes[m].hasWord && nodes[m].index == i;
        assert next[m].hasWord && next[m].index == i;
      } else {
        assert next[k].hasWord && next[k].index == i;
      }
    }
  }

  // ---- The index ----

  class Trie {
    const seperator: string
    var nodes: seq<TrieNode>
    var lastIndex: nat
    /** The path of every node, and all words added so far. */
    ghost var paths: seq<seq<string>>
    ghost var words: seq<string>

    ghost predicate Valid()
      reads this
    {
      && Tree(nodes, paths) && Named(nodes, paths, seperator, Firsts(seperator, words))
      && lastIndex == |Firsts(seperator, words)|
    }

    constructor (sep: string)
      ensures Valid() && seperator == sep && words == []
    {
      seperator := sep;
      nodes, lastIndex := [EMPTY], 0;
      paths, words := [[]], [];
    }

    /** The child of `m` for `token`, made if there is none. */
    method Descend(m: nat, token: string, ghost firsts: seq<string>) returns (k: nat)
      requires Tree(nodes, paths) && m < |nodes| == |paths| && token != "" && Named(nodes, paths, seperator, firsts)
      modifies this`nodes, this`paths
      ensures Tree(nodes, paths) && k < |nodes| == |paths| && paths[k] == old(paths[m]) + [token]
      ensures Named(nodes, paths, seperator, firsts)
    {
      hide Named, Tree;
      if token !in nodes[m].childs {
        GrowsTree(nodes, paths, m, token);
        GrowsNamed(nodes, paths, m, token, seperator, firsts);
        k := |nodes|;
        ghost var made := paths[m] + [token];
        nodes := nodes[m := nodes[m].(childs := nodes[m].childs[token := k])] + [EMPTY];
        paths := paths + [made];
      } else {
        ChildIs(nodes, paths, m, token);
        k := nodes[m].childs[token];
      }
    }

    /** The node at the end of the word's path, made if there is none. */
    method NodeFor(word: string, ghost firsts: seq<string>) returns (currNode: nat)
      requires Tree(nodes, paths) && |nodes| == |paths| && Named(nodes, paths, seperator, firsts)
      modifies this`nodes, this`paths
      ensures Tree(nodes, paths) && |nodes| == |paths| && Named(nodes, paths, seperator, firsts)
      ensures currNode < |nodes| && paths[currNode] == Tokens(seperator, word)
    {
      assert 0 < |nodes| && paths[0] == [];
      hide Tree, Named, TokensFrom, NextToken;
      currNode := 0;
      var offset: nat := 0;
      while true
        invariant Tree(nodes, paths) && |nodes| == |paths| && Named(nodes, paths, seperator, firsts)
        invariant currNode < |nodes| && paths[currNode] + TokensFrom(seperator, word, offset) == Tokens(seperator, word)
        decreases |word| - offset
      {
        var (prefix, next) := NextToken(seperator, word, offset);
        TokensStep(seperator, word, offset, paths[currNode]);
        if prefix != "" {
          currNode := Descend(currNode, prefix, firsts);
        }
        assert paths[currNode] + Later(seperator, word, offset) == Tokens(seperator, word);
        if next.None? {
          break;
        }
        offset := next.value;
      }
    }

    method AddWord(word: string)
      requires Valid()
      modifies this
      ensures Valid() && words == old(words) + [word]
    {
      hide Named, Firsts, Tokens;
      ghost var firsts := Firsts(seperator, words);
      FirstsNext(seperator, words, word);
      var currNode := NodeFor(word, firsts);
      hide Tree;
      HasWordKnown(nodes, paths, seperator, firsts, word, currNode);
      if !nodes[currNode].hasWord {
        NamesNode(nodes, paths, seperator, firsts, word, currNode);
        NamesTree(nodes, paths, |firsts|, word, currNode);
        nodes := nodes[currNode := nodes[currNode].(hasWord := true, index := lastIndex, value := word)];
        lastIndex := lastIndex + 1;
      }
      words := words + [word];
    }

    /** The node at the path of `prefix`, if there is one. */
    method GetNodeWithPrefix(prefix: string) returns (node: Option<nat>)
      requires Valid()
      ensures node.Some? ==> node.value < |nodes| == |paths| && paths[node.value] == Tokens(seperator, prefix)
      ensures node.None? ==> forall k: nat | k < |nodes| :: !(Tokens(seperator, prefix) <= paths[k])
    {
      assert 0 < |nodes| && paths[0] == [];
      hide Named, Firsts, Tree;
      var currNode: nat := 0;
      var offset: nat := 0;
      while true
        invariant currNode < |nodes| == |paths|
        invariant paths[currNode] + TokensFrom(seperator, prefix, offset) == Tokens(seperator, prefix)
        decreases |prefix| - offset
      {
        var (token, next) := NextToken(seperator, prefix, offset);
        TokensStep(seperator, prefix, offset, paths[currNode]);
        if token !in nodes[currNode].childs {
          if token != "" {
            forall k: nat | k < |nodes| ensures !(Tokens(seperator, prefix) <= paths[k]) {
              NoWayDown(nodes, paths, currNode, token, Tokens(seperator, prefix), k);
            }
            return None;
          }
          break;
        }
        ChildIs(nodes, paths, currNode, token);
        currNode := nodes[currNode].childs[token];
        if next.None? {
          break;
        }
        offset := next.value;
      }
      node := Some(currNode);
    }

    /** The nodes with words at or below `node`. */
    method GetChildsWithWords(node: nat) returns (list: seq<nat>)
      requires Tree(nodes, paths) && node < |nodes|
      ensures Lists(nodes, paths, paths[node], list)
      decreases |nodes| - node
    {
      list := [];
      if nodes[node].hasWord {
        list := list + [node];
      }
      ListsItself(nodes, paths, node, list);
      hide Tree, ListsAllBut, Lists;
      var rest := nodes[node].childs.Keys;
      while rest != {}
        invariant rest <= nodes[node].childs.Keys
        invariant ListsAllBut(nodes, paths, node, rest, list)
        decreases rest
      {
        var token :| token in rest;
        ChildIs(nodes, paths, node, token);
        var others := GetChildsWithWords(nodes[node].childs[token]);
        MergesChild(nodes, paths, node, rest, token, nodes[node].childs[token], list, others);
        list := list + others;
        rest := rest - {token};
      }
      ListsWhole(nodes, paths, node, list);
    }

    /** One node for every class of equal words that extend the prefix. */
    method GetWordsWithPrefix(prefix: string) returns (list: seq<nat>)
      requires Valid()
      ensures Lists(nodes, paths, Tokens(seperator, prefix), list)
      ensures FindsWords(nodes, seperator, words, prefix, list)
    {
      var node := GetNodeWithPrefix(prefix);
      if node.Some? {
        list := GetChildsWithWords(node.value);
      } else {
        list := [];
      }
      FindsExactly(nodes, paths, seperator, words, prefix, list);
    }
  }

  // ---- What a search finds ----

  predicate Distinct(list: seq<nat>) {
    forall i, j | 0 <= i < j < |list| :: list[i] != list[j]
  }

  /** Exactly the nodes with words whose paths extend `path`, each once. */
  ghost predicate Lists(nodes: seq<TrieNode>, paths: seq<seq<string>>, path: seq<string>, list: seq<nat>) {
    && |nodes| == |paths| && Distinct(list)
    && forall k: nat :: k in list <==> k < |nodes| && nodes[k].hasWord && path <= paths[k]
  }

  /** As far as the children under `rest` are concerned, nothing is listed yet. */
  ghost predicate ListsAllBut(nodes: seq<TrieNode>, paths: seq<seq<string>>, node: nat, rest: set<string>, list: seq<nat>) {
    && node < |nodes| == |paths| && Distinct(list)
    && forall k: nat :: k in list <==>
         k < |nodes| && nodes[k].hasWord && paths[node] <= paths[k]
         && (paths[k] == paths[node] || paths[k][|paths[node]|] !in rest)
  }

  /** What `getWordsWithPrefix` promises, in terms of the words added. */
  ghost predicate FindsWords(nodes: seq<TrieNode>, sep: string, words: seq<string>, prefix: string, list: seq<nat>) {
    var firsts := Firsts(sep, words);
    && (forall k: nat | k in list ::
          k < |nodes| && nodes[k].index < |firsts| && nodes[k].value == firsts[nodes[k].index]
          && Tokens(sep, prefix) <= Tokens(sep, nodes[k].value))
    && (forall i: nat | i < |firsts| && Tokens(sep, prefix) <= Tokens(sep, firsts[i]) :: Listed(nodes, list, i))
    && (forall i, j | 0 <= i < j < |list| && list[i] < |nodes| && list[j] < |nodes| :: nodes[list[i]].index != nodes[list[j]].index)
  }

  ghost predicate Listed(nodes: seq<TrieNode>, list: seq<nat>, i: nat) {
    exists k: nat :: k in list && k < |nodes| && nodes[k].index == i
  }

  lemma NoWayDown(nodes: seq<TrieNode>, paths: seq<seq<string>>, m: nat, token: string, path: seq<string>, k: nat)
    requires Tree(nodes, paths) && m < |nodes| && token !in nodes[m].childs && paths[m] + [token] <= path && k < |nodes|
    ensures !(path <= paths[k])
  {
    if path <= paths[k] {
      assert paths[k][|paths[m]|] == path[|paths[m]|] == token;
      var c := ChildToward(nodes, paths, m, k);
    }
  }

  lemma MergesChild(nodes: seq<TrieNode>, paths: seq<seq<string>>, node: nat, rest: set<string>, token: string, child: nat,
                    list: seq<nat>, others: seq<nat>)
    requires ListsAllBut(nodes, paths, node, rest, list) && token in rest
    requires child < |nodes| && paths[child] == paths[node] + [token] && Lists(nodes, paths, paths[child], others)
    ensures ListsAllBut(nodes, paths, node, rest - {token}, list + others)
  {
    var p := paths[node];
    var below := paths[child];
    forall k: nat | k < |nodes|
      ensures below <= paths[k] <==> p <= paths[k] && paths[k] != p && paths[k][|p|] == token
    {
      if p <= paths[k] && paths[k] != p && paths[k][|p|] == token {
        assert paths[k][..|p| + 1] == p + [token];
      }
    }
    forall i, j | 0 <= i < |list| && 0 <= j < |others| ensures list[i] != others[j] {
      assert list[i] in list && others[j] in others;
    }
  }

  lemma ListsItself(nodes: seq<TrieNode>, paths: seq<seq<string>>, node: nat, list: seq<nat>)
    requires Tree(nodes, paths) && node < |nodes| && list == if nodes[node].hasWord then [node] else []
    ensures ListsAllBut(nodes, paths, node, nodes[node].childs.Keys, list)
  {
    forall k: nat | k < |nodes| && paths[node] < paths[k] ensures paths[k][|paths[node]|] in nodes[node].childs.Keys {
      var c := ChildToward(nodes, paths, node, k);
    }
    forall k: nat | k < |nodes| && paths[node] <= paths[k] && paths[k] != paths[node] ensures paths[node] < paths[k] { }
  }

  lemma ListsWhole(nodes: seq<TrieNode>, paths: seq<seq<string>>, node: nat, list: seq<nat>)
    requires Tree(nodes, paths) && ListsAllBut(nodes, paths, node, {}, list)
    ensures Lists(nodes, paths, paths[node], list)
  {
  }

  lemma SameIndex(nodes: seq<TrieNode>, paths: seq<seq<string>>, sep: string, firsts: seq<string>, a: nat, b: nat)
    requires Tree(nodes, paths) && Named(nodes, paths, sep, firsts) && a < |nodes| && b < |nodes|
    requires nodes[a].hasWord && nodes[b].hasWord && nodes[a].index == nodes[b].index
    ensures a == b
  {
    hide Tokens;
    assert paths[a] == paths[b];
  }

  lemma FindsExactly(nodes: seq<TrieNode>, paths: seq<seq<string>>, sep: string, words: seq<string>, prefix: string, list: seq<nat>)
    requires Tree(nodes, paths) && Named(nodes, paths, sep, Firsts(sep, words)) && Lists(nodes, paths, Tokens(sep, prefix), list)
    ensures FindsWords(nodes, sep, words, prefix, list)
  {
    hide Tokens, Firsts;
    var firsts := Firsts(sep, words);
    forall i: nat | i < |firsts| && Tokens(sep, prefix) <= Tokens(sep, firsts[i]) ensures Listed(nodes, list, i) {
      assert HasHome(nodes, i);
      var m: nat :| m < |nodes| && nodes[m].hasWord && nodes[m].index == i;
      assert m in list;
    }
    forall i, j | 0 <= i < j < |list| && list[i] < |nodes| && list[j] < |nodes|
      ensures nodes[list[i]].index != nodes[list[j]].index
    {
      assert list[i] in list && list[j] in list;
      if nodes[list[i]].index == nodes[list[j]].index { SameIndex(nodes, paths, sep, firsts, list[i], list[j]); }
    }
  }
}
