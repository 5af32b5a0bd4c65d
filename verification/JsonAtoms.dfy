/** Reading text that is no compound, and reading escapes. */
module JsonAtoms {
  import opened Jsmn
  import opened Json

  predicate AllSpace(s: string) {
    forall x | x in s :: IsSpace(x)
  }

  lemma {:induction false} TrimsLeft(s: string, p: nat)
    requires p <= |s| && AllSpace(s[..p]) && (p < |s| ==> !IsSpace(s[p]))
    ensures TrimLeft(s) == s[p..]
    decreases p
  {
    if p > 0 {
      assert s[0] in s[..p];
      assert s[1..][..p - 1] == s[1..p];
      TrimsLeft(s[1..], p - 1);
    }
  }

  lemma {:induction false} TrimsRight(s: string)
    requires s != "" && !IsSpace(s[0])
    ensures TrimRight(s) != "" && TrimRight(s)[0] == s[0]
    decreases |s|
  {
    if IsSpace(s[|s| - 1]) { TrimsRight(s[..|s| - 1]); }
  }

  /** `n` is where the first NUL stands, or the end. */
  predicate EndsAt(s: string, n: nat) {
    n <= |s| && '\0' !in s[..n] && (n < |s| ==> s[n] == '\0')
  }

  /** Only digits, points and minus signs come before the first NUL. */
  lemma {:induction false} NumbersOnly(s: string, n: nat)
    requires EndsAt(s, n)
    ensures IsNumeric(s) <==> forall x | x in s[..n] :: x in "0123456789.-"
    decreases n
  {
    if n > 0 {
      assert s[1..][..n - 1] == s[1..n] && s[..n] == [s[0]] + s[1..n];
      NumbersOnly(s[1..], n - 1);
      DigitOrSign(s[0]);
      assert s[0] in s[..n];
    }
  }

  lemma DigitOrSign(x: char)
    ensures x in "0123456789.-" <==> x in ".-" || '0' <= x <= '9'
  {
  }

  /** Text that is blank is read as the default. */
  lemma BlankRead(s: string)
    requires AllSpace(s)
    ensures FromJSON(s) == Value(DEFAULT)
  {
    assert s[..|s|] == s;
    TrimsLeft(s, |s|);
  }

  /** Text whose first character behind blanks, at `p`, opens no compound is read as an
      atom: the whole text, blanks included, and a number exactly if only digits, points
      and minus signs come before the first NUL. */
  lemma AtomRead(s: string, p: nat, n: nat)
    requires p < |s| && AllSpace(s[..p]) && !IsSpace(s[p]) && s[p] != '{' && s[p] != '[' && EndsAt(s, n)
    ensures
      var numeric := forall x | x in s[..n] :: x in "0123456789.-";
      FromJSON(s) == Value(Data([], s, if numeric then Interpreted else Verbatim))
  {
    TrimsLeft(s, p);
    TrimsRight(s[p..]);
    NumbersOnly(s, n);
  }

  // ---- Escapes ----

  lemma {:induction false} UnescapePrefix(p: string, rest: string)
    requires '\\' !in p
    ensures Unescape(p + rest) == p + Unescape(rest)
    decreases |p|
  {
    if p == "" {
      assert p + rest == rest;
    } else {
      assert (p + rest)[1..] == p[1..] + rest;
      UnescapePrefix(p[1..], rest);
    }
  }

  /** An escape stands for one character: the control characters of section 7 of RFC
      8259 for b, t, n, f and r, and the escaped character itself for all others, so
      that `\u` is no more than the letter. */
  lemma EscapeRead(p: string, x: char, rest: string)
    requires '\\' !in p
    ensures
      var r := Unescape(p + ['\\', x] + rest);
      var i := |p|;
      && |r| == i + 1 + |Unescape(rest)| && r[..i] == p && r[i + 1..] == Unescape(rest)
      && (x == 'b' ==> r[i] as int == 8) && (x == 't' ==> r[i] as int == 9) && (x == 'n' ==> r[i] as int == 10)
      && (x == 'f' ==> r[i] as int == 12) && (x == 'r' ==> r[i] as int == 13)
      && (x !in "btnfr" ==> r[i] == x)
  {
    var more := ['\\', x] + rest;
    assert p + ['\\', x] + rest == p + more;
    UnescapePrefix(p, more);
    assert more[2..] == rest;
  }

  /** A single backslash at the end is dropped. */
  lemma OpenEscape(p: string)
    requires '\\' !in p
    ensures Unescape(p + "\\") == p
  {
    UnescapePrefix(p, "\\");
  }

  /** Escaped text holds no quotation mark without a backslash before it and none of the
      control characters with an escape of their own. */
  lemma {:induction false} EscapedIsSafe(s: string, k: nat)
    requires k < |Escape(s)|
    ensures Escape(s)[k] as int !in {8, 9, 10, 11, 12, 13}
    ensures Escape(s)[k] == '\"' ==> k > 0 && Escape(s)[k - 1] == '\\'
    decreases |s|
  {
    if s != "" {
      var first := EscapeChar(s[0]);
      if k >= |first| {
        EscapedIsSafe(s[1..], k - |first|);
        assert Escape(s)[k] == Escape(s[1..])[k - |first|];
      } else {
        assert Escape(s)[k] == first[k];
      }
    }
  }
}
