/** Scanning an argument vector for options while moving the non-options behind
    them: the bookkeeping of getopt with permutation. */
module Getopt {
  import opened Rotation

  // ---- Options as written ----

  datatype Option<T> = None | Some(value: T)

  /** What the table of long options says about a name, with the value behind `=`. */
  datatype LongMatch = NoMatch | Match(needsNext: bool, code: int, given: Option<string>)

  const BADCH: int := 63

  /** What one call reports: the code and `optarg`. */
  datatype Report = Report(code: int, optarg: Option<string>)

  /** `longTable` answers for a name and whether a short option is possible too. */
  datatype Grammar = Grammar(options: string, longTable: Option<(string, bool) -> LongMatch>, longOnly: bool)

  function BadArg(g: Grammar): int {
    if g.options != "" && g.options[0] == ':' then 58 else 63
  }

  datatype ArgKind = NoArg | Required | Optional

  function KindAt(options: string, i: nat): ArgKind
    requires i < |options|
  {
    if i + 1 < |options| && options[i + 1] == ':' then
      if i + 2 < |options| && options[i + 2] == ':' then Optional else Required
    else NoArg
  }

  /** The first place of `ch` at or after `i`, or the length. */
  function IndexFrom(options: string, ch: char, i: nat): (r: nat)
    requires i <= |options|
    ensures i <= r <= |options| && (r < |options| ==> options[r] == ch)
    ensures r == |options| <==> ch !in options[i..]
    decreases |options| - i
  {
    if i == |options| || options[i] == ch then i else IndexFrom(options, ch, i + 1)
  }

  predicate NonOption(g: Grammar, arg: string) {
    arg == "" || arg[0] != '-' || (arg == "-" && '-' !in g.options)
  }

  /** The character cannot be an option here. */
  predicate Unknown(g: Grammar, p: string)
    requires p != ""
  {
    p[0] == ':' || (p[0] == '-' && p[1..] != "") || p[0] !in g.options
  }

  /** What happens at the next character of an option argument. */
  datatype Outcome =
    | Stay(code: int)               // more characters follow in this argument
    | Leave(code: int, next: bool, given: Option<string>)  // the argument is used up, possibly with the next one
    | GiveUp                        // a last dash that is no option: report no more options

  function LongName(p: string): string
    requires p != ""
  {
    if p[0] == '-' then p[1..] else p
  }

  predicate ShortToo(g: Grammar, p: string)
    requires p != ""
  {
    p[0] != '-' && p[0] != ':' && p[0] in g.options
  }

  /** Whether the rest of the argument is taken as a long option. */
  predicate TakenAsLong(g: Grammar, p: string, moved: bool)
    requires p != ""
  {
    && g.longTable.Some? && moved && (p[0] == '-' || g.longOnly)
    && !(ShortToo(g, p) && g.longTable.value(LongName(p), true) == NoMatch)
  }

  /** The rest of an argument as the option's own. */
  function Given(rest: string): Option<string> {
    if rest == "" then None else Some(rest)
  }

  function ShortOutcome(g: Grammar, p: string): Outcome
    requires p != ""
  {
    var ch, rest := p[0], p[1..];
    if Unknown(g, p) then
      if ch == '-' && rest == "" then GiveUp
      else if rest == "" then Leave(BADCH, false, None)
      else Stay(BADCH)
    else
      match KindAt(g.options, IndexFrom(g.options, ch, 0))
      case NoArg => if rest == "" then Leave(ch as int, false, None) else Stay(ch as int)
      case Optional => Leave(ch as int, false, Given(rest))
      case Required => Leave(ch as int, rest == "", Given(rest))
  }

  function OutcomeAt(g: Grammar, p: string, moved: bool): Outcome
    requires p != ""
  {
    if TakenAsLong(g, p, moved) then
      match g.longTable.value(LongName(p), ShortToo(g, p))
      case NoMatch => Leave(BADCH, false, None)
      case Match(needsNext, code, given) => Leave(code, needsNext, given)
    else ShortOutcome(g, p)
  }

  // ---- Which arguments are skipped ----

  datatype Stop = AtEnd | AtDashes | AtLastDash

  /** Which arguments from `i` on are non-options to be skipped, where scanning stops,
      and what is reported for the options found on the way. */
  datatype Plan = Plan(skips: seq<bool>, stop: Stop, reports: seq<Report>)

  function Prefix(s: seq<bool>, p: Plan): Plan {
    p.(skips := s + p.skips)
  }

  function Emits(cs: seq<Report>, p: Plan): Plan {
    p.(reports := cs + p.reports)
  }

  /** What is reported for an outcome at argument `i`. */
  function ReportOf(g: Grammar, args: seq<string>, i: nat, o: Outcome): Report
    requires !o.GiveUp?
  {
    if o.Stay? then Report(o.code, None)
    else if !o.next then Report(o.code, o.given)
    else if i + 1 >= |args| then Report(BadArg(g), None)
    else Report(o.code, Some(args[i + 1]))
  }

  /** Whether the next argument is taken along, if there is one. */
  function Taken(n: nat, i: nat, next: bool): nat {
    if next && i + 1 < n then 2 else 1
  }

  /** Marks for `k` arguments that are not skipped. */
  function Kept(k: nat): (marks: seq<bool>)
    ensures |marks| == k && forall i | 0 <= i < k :: !marks[i]
  {
    seq(k, _ => false)
  }

  function PlanFrom(g: Grammar, args: seq<string>, i: nat): Plan
    decreases |args| - i, 0, 1
  {
    if i >= |args| then Plan([], AtEnd, [])
    else if NonOption(g, args[i]) then Prefix([true], PlanFrom(g, args, i + 1))
    else if args[i] == "--" then Plan([false], AtDashes, [])
    else if |args[i]| > 1 then PlanInside(g, args, i, args[i][1..], true)
    else PlanInside(g, args, i, args[i], false)
  }

  /** The plan when `p` is what is left of argument `i`. */
  function PlanInside(g: Grammar, args: seq<string>, i: nat, p: string, moved: bool): Plan
    requires i < |args| && p != ""
    decreases |args| - i, 0, 0, |p|
  {
    match OutcomeAt(g, p, moved)
    case GiveUp => Plan([], AtLastDash, [])
    case Stay(code) => if p[1..] == "" then Plan([], AtLastDash, []) else Emits([Report(code, None)], PlanInside(g, args, i, p[1..], true))
    case Leave(code, next, given) =>
      var k := Taken(|args|, i, next);
      Emits([ReportOf(g, args, i, Leave(code, next, given))], Prefix(Kept(k), PlanFrom(g, args, i + k)))
  }

  /** The plan when argument `i` is used up, perhaps with the next one. */
  function AfterLeaving(g: Grammar, args: seq<string>, i: nat, next: bool): Plan {
    Prefix(Kept(Taken(|args|, i, next)), PlanFrom(g, args, i + Taken(|args|, i, next)))
  }

  /** The elements marked `mark`, in order. */
  function Marked<T>(s: seq<T>, marks: seq<bool>, mark: bool): seq<T>
    requires |s| == |marks|
  {
    if s == [] then [] else (if marks[0] == mark then [s[0]] else []) + Marked(s[1..], marks[1..], mark)
  }

  lemma {:induction false} MarkedJoins<T>(s: seq<T>, t: seq<T>, a: seq<bool>, b: seq<bool>, mark: bool)
    requires |s| == |a| && |t| == |b|
    ensures Marked(s + t, a + b, mark) == Marked(s, a, mark) + Marked(t, b, mark)
    decreases |s|
  {
    if s == [] {
      assert s + t == t && a + b == b;
    } else {
      MarkedJoins(s[1..], t, a[1..], b, mark);
      assert (s + t)[1..] == s[1..] + t && (a + b)[1..] == a[1..] + b;
      var first := if a[0] == mark then [s[0]] else [];
      assert Marked(s + t, a + b, mark) == first + (Marked(s[1..], a[1..], mark) + Marked(t, b, mark));
    }
  }

  lemma {:induction false} MarkedAll<T>(s: seq<T>, k: nat)
    requires |s| == k
    ensures Marked(s, Kept(k), false) == s && Marked(s, Kept(k), true) == []
  {
    if k > 0 {
      assert Kept(k)[1..] == Kept(k - 1);
      MarkedAll(s[1..], k - 1);
    }
  }

  /** The prefix of the vector that has been dealt with: the options found so far,
      with the skipped non-options as one block among them. */
  ghost predicate Arranged(argv: seq<string>, orig: seq<string>, skips: seq<bool>, optind: nat, start: int, end: int) {
    && |argv| == |orig| && optind == |skips| <= |argv|
    && argv[optind..] == orig[optind..]
    && (if start == -1 then
          end == -1 && argv[..optind] == Marked(orig[..optind], skips, false) && Marked(orig[..optind], skips, true) == []
        else if end == -1 then
          && 0 <= start < optind
          && argv[start..optind] == Marked(orig[..optind], skips, true)
          && argv[..start] == Marked(orig[..optind], skips, false)
        else
          && 0 <= start < end <= optind
          && argv[start..end] == Marked(orig[..optind], skips, true)
          && argv[..start] + argv[end..optind] == Marked(orig[..optind], skips, false))
  }

  /** Taking in `k` arguments of the same kind. */
  lemma ArrangedGrows(argv: seq<string>, orig: seq<string>, skips: seq<bool>, optind: nat, start: int, end: int, k: nat)
    requires Arranged(argv, orig, skips, optind, start, end) && optind + k <= |argv|
    requires start == -1 || end != -1
    ensures Arranged(argv, orig, skips + Kept(k), optind + k, start, end)
  {
    hide Marked;
    var more := orig[optind..optind + k];
    assert orig[..optind + k] == orig[..optind] + more;
    assert argv[optind..optind + k] == more by {
      assert forall x | 0 <= x < k :: argv[optind + x] == argv[optind..][x] == orig[optind..][x];
    }
    assert argv[..optind + k] == argv[..optind] + more;
    MarkedAll(more, k);
    MarkedJoins(orig[..optind], more, skips, Kept(k), false);
    MarkedJoins(orig[..optind], more, skips, Kept(k), true);
    assert argv[optind + k..] == argv[optind..][k..];
    assert orig[optind + k..] == orig[optind..][k..];
    if end != -1 {
      assert argv[end..optind + k] == argv[end..optind] + more;
      assert argv[..start] + argv[end..optind + k] == (argv[..start] + argv[end..optind]) + more;
    }
  }

  /** Skipping one non-option onto the open block. */
  lemma ArrangedSkips(argv: seq<string>, orig: seq<string>, skips: seq<bool>, optind: nat, start: int)
    requires Arranged(argv, orig, skips, optind, start, -1) && optind < |argv|
    ensures Arranged(argv, orig, skips + [true], optind + 1, if start == -1 then optind else start, -1)
  {
    var one := [orig[optind]];
    assert argv[optind] == argv[optind..][0] == orig[optind..][0];
    assert orig[..optind + 1] == orig[..optind] + one;
    assert one[1..] == [];
    assert Marked(one, [true], true) == one && Marked(one, [true], false) == [] by {
      assert Marked<string>([], [], true) == [] && Marked<string>([], [], false) == [];
      assert [true][1..] == [];
    }
    MarkedJoins(orig[..optind], one, skips, [true], false);
    MarkedJoins(orig[..optind], one, skips, [true], true);
    assert argv[optind + 1..] == argv[optind..][1..];
    assert orig[optind + 1..] == orig[optind..][1..];
    var s := if start == -1 then optind else start;
    assert argv[s..optind + 1] == argv[s..optind] + one;
  }

  /** Exchanging the block with the options behind it. */
  lemma ArrangedMoves(argv: seq<string>, after: seq<string>, orig: seq<string>, skips: seq<bool>, optind: nat, start: nat, end: nat)
    requires Arranged(argv, orig, skips, optind, start, end)
    requires after == argv[..start] + argv[end..optind] + argv[start..end] + argv[optind..]
    ensures Arranged(after, orig, skips, optind, optind - (end - start), -1)
  {
    var s := optind - (end - start);
    assert after[..s] == argv[..start] + argv[end..optind];
    assert after[s..optind] == argv[start..end];
    assert after[optind..] == argv[optind..];
  }

  lemma PrefixPermutes(argv: seq<string>, orig: seq<string>, skips: seq<bool>, optind: nat, start: int, end: int)
    requires Arranged(argv, orig, skips, optind, start, end)
    ensures multiset(argv[..optind])
            == multiset(Marked(orig[..optind], skips, true)) + multiset(Marked(orig[..optind], skips, false))
  {
    hide Marked;
    if start == -1 {
    } else if end == -1 {
      assert argv[..optind] == argv[..start] + argv[start..optind];
    } else {
      MultisetMiddle(argv, start, end, optind);
    }
  }

  /** However far scanning has come, the vector holds the original arguments. */
  lemma PermutationOfParts(argv: seq<string>, orig: seq<string>, skips: seq<bool>, optind: nat, start: int, end: int)
    requires Arranged(argv, orig, skips, optind, start, end)
    ensures multiset(argv) == multiset(orig)
  {
    hide Marked;
    ArrangedBounds(argv, orig, skips, optind, start, end);
    MarkedPermutes(orig[..optind], skips);
    PrefixPermutes(argv, orig, skips, optind, start, end);
    assert orig == orig[..optind] + orig[optind..];
    assert argv == argv[..optind] + argv[optind..];
  }

  lemma ArrangedBounds(argv: seq<string>, orig: seq<string>, skips: seq<bool>, optind: nat, start: int, end: int)
    requires Arranged(argv, orig, skips, optind, start, end)
    ensures |argv| == |orig| && optind == |skips| <= |argv| && argv[optind..] == orig[optind..]
    ensures -1 <= end <= optind && (end != -1 ==> 0 <= start < end) && (end == -1 ==> -1 <= start <= optind)
    ensures start == -1 ==> end == -1
  {
  }

  /** Finding an option closes the block. */
  lemma ArrangedCloses(argv: seq<string>, orig: seq<string>, skips: seq<bool>, optind: nat, start: int)
    requires Arranged(argv, orig, skips, optind, start, -1) && start != -1
    ensures Arranged(argv, orig, skips, optind, start, optind)
  {
    assert argv[..start] + argv[optind..optind] == argv[..start];
  }

  /** Once the block is last, the vector falls into three parts. */
  lemma ArrangedDone(argv: seq<string>, orig: seq<string>, skips: seq<bool>, optind: nat, start: int)
    requires Arranged(argv, orig, skips, optind, start, -1)
    ensures |skips| <= |orig|
    ensures |Marked(orig[..|skips|], skips, false)| == if start == -1 then optind else start
    ensures argv == Marked(orig[..|skips|], skips, false) + Marked(orig[..|skips|], skips, true) + orig[|skips|..]
  {
    hide Marked;
    if start == -1 {
      assert argv == argv[..optind] + [] + argv[optind..];
    } else {
      assert argv == argv[..start] + argv[start..optind] + argv[optind..];
    }
  }

  lemma {:induction false} MarkedNone<T>(s: seq<T>, marks: seq<bool>)
    requires |s| == |marks|
    ensures Marked(s, marks, true) == [] <==> true !in marks
    ensures |Marked(s, marks, true)| + |Marked(s, marks, false)| == |s|
    decreases |s|
  {
    if s != [] {
      MarkedNone(s[1..], marks[1..]);
      assert marks == [marks[0]] + marks[1..];
    }
  }

  /** While the options behind the block have not been moved, `optind` counts both. */
  lemma ArrangedOpen(argv: seq<string>, orig: seq<string>, skips: seq<bool>, optind: nat, start: int, end: int)
    requires Arranged(argv, orig, skips, optind, start, end) && (start == -1 || end != -1)
    ensures |skips| <= |orig|
    ensures start == -1 <==> true !in skips
    ensures optind == |Marked(orig[..|skips|], skips, false)| <==> true !in skips
    ensures start == -1 ==> argv == Marked(orig[..|skips|], skips, false) + Marked(orig[..|skips|], skips, true) + orig[|skips|..]
  {
    hide Marked;
    MarkedNone(orig[..optind], skips);
    if start == -1 {
      assert argv == argv[..optind] + [] + argv[optind..];
    }
  }

  /** A cluster that ends in a dash: scanning is given up at argument 2, and however the
      two arguments before it are arranged the option is still behind the skipped one. */
  lemma LastDash()
    ensures
      var g := Grammar("a", None, false);
      var args := ["prog", "file", "-a-"];
      && Prefix([false], PlanFrom(g, args, 1)) == Plan([false, true], AtLastDash, [Report('a' as int, None)])
      && forall argv: seq<string>, start: int, end: int | Arranged(argv, args, [false, true], 2, start, end) ::
           argv[2] == "-a-" && "file" in argv[..2]
  {
    var g := Grammar("a", None, false);
    var args := ["prog", "file", "-a-"];
    forall argv: seq<string>, start: int, end: int | Arranged(argv, args, [false, true], 2, start, end)
      ensures argv[2] == "-a-" && "file" in argv[..2]
    {
      assert argv[2] == argv[2..][0];
      PrefixPermutes(argv, args, [false, true], 2, start, end);
      MarkedPermutes(args[..2], [false, true]);
      assert args[..2][1] == "file";
      assert "file" in multiset(argv[..2]);
    }
    PlanSteps(g, args, 1);
    PlanSteps(g, args, 2);
    assert args[2][1..] == "a-" && "a-"[1..] == "-" && "-"[1..] == "";
    assert OutcomeAt(g, "a-", true) == Stay('a' as int);
    assert Unknown(g, "-");
    assert OutcomeAt(g, "-", true) == GiveUp;
    PlanInsideSteps(g, args, 2, "a-", true);
    PlanInsideSteps(g, args, 2, "-", true);
  }

  /** An argument that could be a cluster with a last dash. */
  predicate EndsInDash(arg: string) {
    |arg| > 2 && arg[0] == '-' && arg[|arg| - 1] == '-'
  }

  /** Scanning is only given up without a table of long options, if a dash is no option,
      at an argument of more than two characters that begins and ends with a dash. */
  lemma {:induction false} LastDashOnly(g: Grammar, args: seq<string>, i: nat)
    requires PlanFrom(g, args, i).stop == AtLastDash
    ensures g.longTable.None? && '-' !in g.options && exists k: nat :: k < |args| && EndsInDash(args[k])
    decreases |args| - i, 0, 1
  {
    PlanSteps(g, args, i);
    if NonOption(g, args[i]) {
      LastDashOnly(g, args, i + 1);
    } else if |args[i]| > 1 {
      LastDashInside(g, args, i, args[i][1..], true);
    } else {
      LastDashInside(g, args, i, args[i], false);
    }
  }

  lemma {:induction false} LastDashInside(g: Grammar, args: seq<string>, i: nat, p: string, moved: bool)
    requires i < |args| && p != "" && !NonOption(g, args[i]) && args[i] != "--"
    requires if moved then |p| < |args[i]| && p == args[i][|args[i]| - |p|..] else p == args[i] == "-"
    requires PlanInside(g, args, i, p, moved).stop == AtLastDash
    ensures g.longTable.None? && '-' !in g.options && exists k: nat :: k < |args| && EndsInDash(args[k])
    decreases |args| - i, 0, 0, |p|
  {
    match OutcomeAt(g, p, moved)
    case GiveUp =>
      assert EndsInDash(args[i]);
    case Stay(code) =>
      assert p[1..] == args[i][|args[i]| - |p[1..]|..];
      LastDashInside(g, args, i, p[1..], true);
    case Leave(code, next, given) =>
      LastDashOnly(g, args, i + Taken(|args|, i, next));
  }

  lemma LongNeverGivesUp(g: Grammar, args: seq<string>, i: nat)
    requires g.longTable.Some?
    ensures PlanFrom(g, args, i).stop != AtLastDash
  {
    if PlanFrom(g, args, i).stop == AtLastDash {
      LastDashOnly(g, args, i);
    }
  }

  lemma MultisetMiddle(s: seq<string>, i: nat, j: nat, k: nat)
    requires i <= j <= k <= |s|
    ensures multiset(s[..k]) == multiset(s[i..j]) + multiset(s[..i] + s[j..k])
  {
    assert s[..k] == s[..i] + s[i..j] + s[j..k];
  }

  lemma {:induction false} MarkedPermutes(s: seq<string>, marks: seq<bool>)
    requires |s| == |marks|
    ensures multiset(Marked(s, marks, true)) + multiset(Marked(s, marks, false)) == multiset(s)
    decreases |s|
  {
    if s != [] {
      MarkedPermutes(s[1..], marks[1..]);
      assert s == [s[0]] + s[1..];
    }
  }

  // ---- The plan from the option string ----

  /** `ch` stands in the option string, first followed by `post`. */
  predicate Listed(options: string, ch: char, pre: string, post: string) {
    options == pre + [ch] + post && ch !in pre
  }

  lemma {:induction false} FirstIndex(options: string, ch: char, pre: string, post: string, i: nat)
    requires Listed(options, ch, pre, post) && i <= |pre|
    ensures IndexFrom(options, ch, i) == |pre|
    decreases |pre| - i
  {
    if i < |pre| {
      assert options[i] == pre[i];
      FirstIndex(options, ch, pre, post, i + 1);
    }
  }

  lemma Behind(options: string, ch: char, pre: string, post: string)
    requires Listed(options, ch, pre, post)
    ensures ch in options && forall k: nat | k < |post| :: options[|pre| + 1 + k] == post[k]
    ensures IndexFrom(options, ch, 0) == |pre|
  {
    FirstIndex(options, ch, pre, post, 0);
    assert options[|pre|] == ch;
  }

  /** A letter followed by no colon: it is reported without an argument, and the rest of
      the cluster is read as options. */
  lemma PlainLetter(g: Grammar, args: seq<string>, i: nat, ch: char, rest: string, moved: bool, pre: string, post: string)
    requires i < |args| && Listed(g.options, ch, pre, post) && ch != ':' && (ch == '-' ==> rest == "")
    requires !TakenAsLong(g, [ch] + rest, moved) && (post == "" || post[0] != ':')
    ensures PlanInside(g, args, i, [ch] + rest, moved)
            == Emits([Report(ch as int, None)],
                     if rest == "" then Prefix([false], PlanFrom(g, args, i + 1)) else PlanInside(g, args, i, rest, true))
  {
    var p := [ch] + rest;
    assert p[1..] == rest;
    Behind(g.options, ch, pre, post);
    assert Kept(1) == [false];
  }

  /** A letter followed by exactly one colon takes the rest of its argument, or else the
      next argument, which is kept; without a next one the missing argument is reported. */
  lemma RequiredLetter(g: Grammar, args: seq<string>, i: nat, ch: char, rest: string, moved: bool, pre: string, post: string)
    requires i < |args| && Listed(g.options, ch, pre, ":" + post) && ch != ':' && (ch == '-' ==> rest == "")
    requires !TakenAsLong(g, [ch] + rest, moved) && (post == "" || post[0] != ':')
    ensures PlanInside(g, args, i, [ch] + rest, moved)
            == if rest != "" then Emits([Report(ch as int, Some(rest))], Prefix([false], PlanFrom(g, args, i + 1)))
               else if i + 1 < |args| then
                 Emits([Report(ch as int, Some(args[i + 1]))], Prefix([false, false], PlanFrom(g, args, i + 2)))
               else
                 Emits([Report(if g.options[0] == ':' then ':' as int else '?' as int, None)],
                       Prefix([false], PlanFrom(g, args, i + 1)))
  {
    var p := [ch] + rest;
    assert p[1..] == rest;
    Behind(g.options, ch, pre, ":" + post);
    assert (":" + post)[0] == ':' && (post != "" ==> (":" + post)[1] == post[0]);
    assert g.options[|pre| + 1] == ':';
    assert Kept(1) == [false] && Kept(2) == [false, false];
  }

  /** A letter followed by two colons takes the rest of its argument and never the next
      argument. */
  lemma OptionalLetter(g: Grammar, args: seq<string>, i: nat, ch: char, rest: string, moved: bool, pre: string, post: string)
    requires i < |args| && Listed(g.options, ch, pre, "::" + post) && ch != ':' && (ch == '-' ==> rest == "")
    requires !TakenAsLong(g, [ch] + rest, moved)
    ensures PlanInside(g, args, i, [ch] + rest, moved)
            == Emits([Report(ch as int, if rest == "" then None else Some(rest))], Prefix([false], PlanFrom(g, args, i + 1)))
  {
    var p := [ch] + rest;
    assert p[1..] == rest;
    Behind(g.options, ch, pre, "::" + post);
    assert ("::" + post)[0] == ':' && ("::" + post)[1] == ':';
    assert g.options[|pre| + 1] == ':' && g.options[|pre| + 2] == ':';
    assert Kept(1) == [false];
  }

  /** A letter that is not in the option string, a colon, and a dash inside a cluster are
      reported as unknown; the rest of the cluster is read on. */
  lemma UnknownLetter(g: Grammar, args: seq<string>, i: nat, ch: char, rest: string, moved: bool)
    requires i < |args| && !TakenAsLong(g, [ch] + rest, moved) && (ch == '-' ==> rest != "")
    requires ch !in g.options || ch == ':' || ch == '-'
    ensures PlanInside(g, args, i, [ch] + rest, moved)
            == Emits([Report('?' as int, None)],
                     if rest == "" then Prefix([false], PlanFrom(g, args, i + 1)) else PlanInside(g, args, i, rest, true))
  {
    var p := [ch] + rest;
    assert p[1..] == rest;
    assert Kept(1) == [false];
  }

  /** An argument that does not begin with a dash, or is
      a dash alone that is no option, is skipped; two dashes end the options; any other
      argument is read behind its dash. */
  lemma ArgumentKinds(g: Grammar, args: seq<string>, i: nat)
    requires i < |args|
    ensures
      var a := args[i];
      PlanFrom(g, args, i)
      == if a == "" || a[0] != '-' || (a == "-" && '-' !in g.options) then Prefix([true], PlanFrom(g, args, i + 1))
         else if a == "--" then Plan([false], AtDashes, [])
         else if a == "-" then PlanInside(g, args, i, "-", false)
         else PlanInside(g, args, i, a[1..], true)
  {
  }

  lemma PlanSteps(g: Grammar, args: seq<string>, i: nat)
    ensures i >= |args| ==> PlanFrom(g, args, i) == Plan([], AtEnd, [])
    ensures i < |args| ==>
      var p := PlanFrom(g, args, i);
      && (NonOption(g, args[i]) ==> p == Prefix([true], PlanFrom(g, args, i + 1)))
      && (!NonOption(g, args[i]) && args[i] == "--" ==> p == Plan([false], AtDashes, []))
      && (!NonOption(g, args[i]) && args[i] != "--" ==>
            p == if |args[i]| > 1 then PlanInside(g, args, i, args[i][1..], true) else PlanInside(g, args, i, args[i], false))
  {
  }

  lemma PlanInsideSteps(g: Grammar, args: seq<string>, i: nat, p: string, moved: bool)
    requires i < |args| && p != ""
    ensures OutcomeAt(g, p, moved).GiveUp? ==> PlanInside(g, args, i, p, moved) == Plan([], AtLastDash, [])
    ensures OutcomeAt(g, p, moved).Stay? && p[1..] != "" ==>
              PlanInside(g, args, i, p, moved) == Emits([Report(OutcomeAt(g, p, moved).code, None)], PlanInside(g, args, i, p[1..], true))
    ensures OutcomeAt(g, p, moved).Leave? ==>
              PlanInside(g, args, i, p, moved)
              == Emits([ReportOf(g, args, i, OutcomeAt(g, p, moved))], AfterLeaving(g, args, i, OutcomeAt(g, p, moved).next))
  {
  }

  lemma PrefixJoins(a: seq<bool>, b: seq<bool>, cs: seq<Report>, p: Plan)
    ensures Prefix(a, Emits(cs, Prefix(b, p))) == Prefix(a + b, Emits(cs, p))
  {
    assert a + (b + p.skips) == (a + b) + p.skips;
  }

  lemma EmitsJoins(cs: seq<Report>, c: Report, p: Plan)
    ensures Emits(cs, Emits([c], p)) == Emits(cs + [c], p)
  {
    assert cs + ([c] + p.reports) == (cs + [c]) + p.reports;
  }

  lemma EndsHere(skips: seq<bool>, reports: seq<Report>, more: seq<bool>, stop: Stop)
    ensures Prefix(skips, Emits(reports, Plan(more, stop, []))) == Plan(skips + more, stop, reports)
    ensures more == [] ==> skips + more == skips
  {
    assert reports + [] == reports;
  }

  class Scanner {
    const nargv: array<string>
    const grammar: Grammar
    var optind: nat
    /** The rest of the current argument, and whether a first character was consumed. */
    var place: string
    var moved: bool
    var nonoptStart: int
    var nonoptEnd: int
    var optarg: Option<string>
    /** The vector as it was, and which of the arguments dealt with were skipped. */
    ghost const orig: seq<string>
    ghost var skips: seq<bool>
    /** What has been reported so far. */
    ghost var reports: seq<Report>

    /** The plan for what is still to be scanned. */
    ghost function Remaining(): Plan
      reads this, nargv
      requires place != "" ==> optind < |orig|
    {
      if place == "" then PlanFrom(grammar, orig, optind) else PlanInside(grammar, orig, optind, place, moved)
    }

    ghost predicate Valid()
      reads this, nargv
    {
      && Arranged(nargv[..], orig, skips, optind, nonoptStart, nonoptEnd)
      && (place != "" ==> optind < |orig| && !NonOption(grammar, orig[optind]) && (nonoptStart == -1 || nonoptEnd != -1))
      && (nonoptEnd == optind ==> optind < |orig| && !NonOption(grammar, orig[optind]) && orig[optind] != "--")
      && Prefix(skips, Emits(reports, Remaining())) == Whole()
    }

    /** The plan for the whole vector: the program's name is kept, then the rest. */
    ghost function Whole(): Plan {
      Prefix([false], PlanFrom(grammar, orig, 1))
    }

    constructor (argv: array<string>, g: Grammar)
      requires 1 <= argv.Length
      ensures nargv == argv && grammar == g && orig == argv[..] && Valid() && optind == 1 && reports == []
    {
      nargv, grammar, orig := argv, g, argv[..];
      optind, place, moved := 1, "", false;
      nonoptStart, nonoptEnd, optarg := -1, -1, None;
      skips, reports := [false], [];
      new;
      FirstKept(orig);
      assert [] + PlanFrom(grammar, orig, 1).reports == PlanFrom(grammar, orig, 1).reports;
    }

    /** Moves the skipped block behind the options that follow it. */
    method Permute()
      requires Arranged(nargv[..], orig, skips, optind, nonoptStart, nonoptEnd)
      requires nonoptEnd != -1 && nonoptEnd < optind
      modifies nargv, this`nonoptStart, this`nonoptEnd
      ensures Arranged(nargv[..], orig, skips, optind, nonoptStart, nonoptEnd)
      ensures nonoptEnd == -1 && nonoptStart == optind - old(nonoptEnd - nonoptStart)
    {
      hide Marked;
      ArrangedBounds(nargv[..], orig, skips, optind, nonoptStart, nonoptEnd);
      ghost var before := nargv[..];
      PermuteArgs(nargv, nonoptStart, nonoptEnd, optind);
      assert before[optind..] == nargv[optind..];
      ArrangedMoves(before, nargv[..], orig, skips, optind, nonoptStart, nonoptEnd);
      nonoptStart := optind - (nonoptEnd - nonoptStart);
      nonoptEnd := -1;
    }

    /** Scanning is over: options in front, then what was skipped, then the rest. */
    ghost predicate Finished()
      reads this, nargv
    {
      var skipped := Whole().skips;
      && |skipped| <= |orig|
      && var kept := Marked(orig[..|skipped|], skipped, false);
         optind == |kept|
         && nargv[..] == kept + Marked(orig[..|skipped|], skipped, true) + orig[|skipped|..]
    }

    /** Scanning was given up: `optind` counts every argument dealt with, and the block of
        skipped ones still stands among the options. */
    ghost predicate GaveUp()
      reads this, nargv
    {
      var skipped := Whole().skips;
      && optind == |skipped| && (nonoptStart == -1 || nonoptEnd != -1)
      && Arranged(nargv[..], orig, skipped, optind, nonoptStart, nonoptEnd)
    }

    method Finish()
      requires Arranged(nargv[..], orig, skips, optind, nonoptStart, nonoptEnd)
      requires nonoptEnd != -1 ==> nonoptEnd < optind
      requires skips == Whole().skips
      modifies this, nargv
      ensures Finished() && multiset(nargv[..]) == multiset(orig) && reports == old(reports)
    {
      hide Marked, Arranged;
      if nonoptEnd != -1 {
        Permute();
      }
      ArrangedBounds(nargv[..], orig, skips, optind, nonoptStart, nonoptEnd);
      PermutationOfParts(nargv[..], orig, skips, optind, nonoptStart, nonoptEnd);
      ArrangedDone(nargv[..], orig, skips, optind, nonoptStart);
      if nonoptStart != -1 {
        optind := nonoptStart;
      }
      nonoptStart, nonoptEnd := -1, -1;
    }

    /** The argument at `optind` is used up, with the next one if that is taken. */
    method Advance(next: bool)
      requires Arranged(nargv[..], orig, skips, optind, nonoptStart, nonoptEnd) && optind < nargv.Length
      requires nonoptStart == -1 || nonoptEnd != -1
      requires Prefix(skips, Emits(reports, AfterLeaving(grammar, orig, optind, next))) == Whole()
      modifies this
      ensures Valid() && reports == old(reports) && place == "" && optind == old(optind) + Taken(nargv.Length, old(optind), next)
      ensures optarg == if next && old(optind) + 1 < nargv.Length then Some(nargv[old(optind) + 1]) else old(optarg)
    {
      hide Arranged, PlanFrom, PlanInside, NonOption, Prefix, Emits;
      ghost var k := Taken(nargv.Length, optind, next);
      ArrangedBounds(nargv[..], orig, skips, optind, nonoptStart, nonoptEnd);
      ArrangedGrows(nargv[..], orig, skips, optind, nonoptStart, nonoptEnd, k);
      PrefixJoins(skips, Kept(k), reports, PlanFrom(grammar, orig, optind + k));
      skips := skips + Kept(k);
      optind := optind + 1;
      if next && optind < nargv.Length {
        optarg := Some(nargv[optind]);
        optind := optind + 1;
      }
      place := "";
    }

    /** Puts the non-option at `optind` into the block, moving the block up to it first. */
    method Skip()
      requires Arranged(nargv[..], orig, skips, optind, nonoptStart, nonoptEnd) && optind < nargv.Length
      requires nonoptEnd < optind
      requires Prefix(skips, Emits(reports, Prefix([true], PlanFrom(grammar, orig, optind + 1)))) == Whole()
      modifies this, nargv
      ensures place == old(place) && optarg == old(optarg) && optind == old(optind) + 1 && nonoptStart != -1 && nonoptEnd == -1
      ensures Arranged(nargv[..], orig, skips, optind, nonoptStart, nonoptEnd)
      ensures reports == old(reports) && Prefix(skips, Emits(reports, PlanFrom(grammar, orig, optind))) == Whole()
    {
      hide Arranged, PlanFrom, PlanInside, Marked, Prefix, Emits;
      ArrangedBounds(nargv[..], orig, skips, optind, nonoptStart, nonoptEnd);
      if nonoptEnd != -1 {
        Permute();
      }
      ArrangedBounds(nargv[..], orig, skips, optind, nonoptStart, nonoptEnd);
      ArrangedSkips(nargv[..], orig, skips, optind, nonoptStart);
      if nonoptStart == -1 {
        nonoptStart := optind;
      }
      PrefixJoins(skips, [true], reports, PlanFrom(grammar, orig, optind + 1));
      skips := skips + [true];
      optind := optind + 1;
    }

    /** Reads the next option.  Not found means there is none left. */
    method Next() returns (found: bool, code: int)
      requires Valid()
      modifies this, nargv
      ensures found ==> Valid()
      ensures found ==> optind <= nargv.Length && reports == old(reports) + [Report(code, optarg)]
      ensures !found ==> reports == old(reports) == Whole().reports
      ensures found ==> optind > old(optind) || (optind == old(optind) && 0 < |place| && (old(place) == "" || |place| < |old(place)|))
      ensures !found ==> (Finished() <==> Whole().stop != AtLastDash || true !in Whole().skips)
      ensures !found ==> multiset(nargv[..]) == multiset(orig)
      ensures !found && Whole().stop == AtLastDash ==> GaveUp()
    {
      hide Arranged, PlanFrom, PlanInside, Marked, Finished, GaveUp, Emits;
      optarg := None;
      while place == ""
        invariant Valid() && reports == old(reports) && optarg == None
        invariant optind >= old(optind)
        invariant old(place) != "" ==> place == old(place) && optind == old(optind)
        decreases nargv.Length - optind, |place| == 0
      {
        ArrangedBounds(nargv[..], orig, skips, optind, nonoptStart, nonoptEnd);
        PlanSteps(grammar, orig, optind);
        if optind >= nargv.Length {
          EndsHere(skips, reports, [], AtEnd);
          Finish();
          return false, -1;
        }
        var arg := nargv[optind];
        assert arg == nargv[..][optind..][0] == orig[optind..][0];
        if NonOption(grammar, arg) {
          Skip();
        } else {
          if nonoptStart != -1 && nonoptEnd == -1 {
            ArrangedCloses(nargv[..], orig, skips, optind, nonoptStart);
            nonoptEnd := optind;
          }
          if |arg| == 2 && arg[1] == '-' {
            ArrangedGrows(nargv[..], orig, skips, optind, nonoptStart, nonoptEnd, 1);
            assert Kept(1) == [false];
            assert arg == "--";
            EndsHere(skips, reports, [false], AtDashes);
            skips := skips + [false];
            optind := optind + 1;
            Finish();
            return false, -1;
          }
          if |arg| > 1 {
            place, moved := arg[1..], true;
          } else {
            place, moved := arg, false;
          }
        }
      }
      found, code := ReadOption();
      if found {
        ArrangedBounds(nargv[..], orig, skips, optind, nonoptStart, nonoptEnd);
      }
    }

    /** Notes what is about to be reported. */
    ghost method Note(r: Report, rest: Plan)
      requires Prefix(skips, Emits(reports, Emits([r], rest))) == Whole()
      modifies this`reports
      ensures reports == old(reports) + [r] && Prefix(skips, Emits(reports, rest)) == Whole()
    {
      EmitsJoins(reports, r, rest);
      reports := reports + [r];
    }

    /** Returns a code for which the argument is used up. */
    method LeaveArgument(code: int, next: bool, given: Option<string>)
      requires Valid() && place != "" && optarg == None
      requires PlanInside(grammar, orig, optind, place, moved)
               == Emits([Report(code, if !next then given else if optind + 1 < |orig| then Some(orig[optind + 1]) else None)],
                        AfterLeaving(grammar, orig, optind, next))
      modifies this
      ensures Valid() && reports == old(reports) + [Report(code, optarg)] && place == "" && optind > old(optind)
    {
      hide Arranged, PlanFrom, PlanInside, NonOption, Prefix, Emits, AfterLeaving;
      ArrangedBounds(nargv[..], orig, skips, optind, nonoptStart, nonoptEnd);
      Note(Report(code, if !next then given else if optind + 1 < |orig| then Some(orig[optind + 1]) else None),
           AfterLeaving(grammar, orig, optind, next));
      if next && optind + 1 < nargv.Length {
        assert nargv[optind + 1] == nargv[..][optind..][1] == orig[optind..][1];
      }
      Advance(next);
      if !next {
        optarg := given;
      }
    }

    /** Returns a code and stays in the argument. */
    method StayAt(code: int, rest: string)
      requires Valid() && place != "" && rest != "" && optarg == None
      requires PlanInside(grammar, orig, optind, place, moved) == Emits([Report(code, None)], PlanInside(grammar, orig, optind, rest, true))
      modifies this
      ensures Valid() && reports == old(reports) + [Report(code, optarg)] && place == rest && moved && optind == old(optind)
    {
      hide Arranged, PlanFrom, PlanInside, NonOption, Prefix, Emits, AfterLeaving;
      Note(Report(code, None), PlanInside(grammar, orig, optind, rest, true));
      place, moved := rest, true;
    }

    /** The next character, or the rest of the argument, as an option. */
    method ReadOption() returns (found: bool, code: int)
      requires Valid() && place != "" && optarg == None
      modifies this
      ensures found ==> Valid() && reports == old(reports) + [Report(code, optarg)]
      ensures found ==> optind > old(optind) || (optind == old(optind) && 0 < |place| < |old(place)|)
      ensures !found ==> reports == old(reports) == Whole().reports && Whole().stop == AtLastDash && multiset(nargv[..]) == multiset(orig)
      ensures !found ==> (Finished() <==> true !in Whole().skips) && GaveUp()
    {
      hide Arranged, PlanFrom, PlanInside, NonOption, Marked;
      found := true;
      ArrangedBounds(nargv[..], orig, skips, optind, nonoptStart, nonoptEnd);
      PlanInsideSteps(grammar, orig, optind, place, moved);
      if grammar.longTable.Some? && moved && (place[0] == '-' || grammar.longOnly) {
        var shortToo := place[0] != '-' && place[0] != ':' && place[0] in grammar.options;
        var name := if place[0] == '-' then place[1..] else place;
        match grammar.longTable.value(name, shortToo) {
          case NoMatch =>
            if !shortToo {
              assert OutcomeAt(grammar, place, moved) == Leave(BADCH, false, None);
              code := BADCH;
              LeaveArgument(code, false, None);
              return;
            }
          case Match(needsNext, c, given) =>
            assert OutcomeAt(grammar, place, moved) == Leave(c, needsNext, given);
            code := if needsNext && optind + 1 >= nargv.Length then BadArg(grammar) else c;
            LeaveArgument(code, needsNext, given);
            return;
        }
      }
      found, code := ReadShort();
    }

    method ReadShort() returns (found: bool, code: int)
      requires Valid() && place != "" && optarg == None && !TakenAsLong(grammar, place, moved)
      modifies this
      ensures found ==> Valid() && reports == old(reports) + [Report(code, optarg)]
      ensures found ==> optind > old(optind) || (optind == old(optind) && 0 < |place| < |old(place)|)
      ensures !found ==> reports == old(reports) == Whole().reports && Whole().stop == AtLastDash && multiset(nargv[..]) == multiset(orig)
      ensures !found ==> (Finished() <==> true !in Whole().skips) && GaveUp()
    {
      hide Arranged, PlanFrom, PlanInside, NonOption, Marked, TakenAsLong, Prefix, Emits, AfterLeaving, Taken, KindAt, IndexFrom, BadArg;
      found := true;
      ArrangedBounds(nargv[..], orig, skips, optind, nonoptStart, nonoptEnd);
      PlanInsideSteps(grammar, orig, optind, place, moved);
      var optchar := place[0];
      var rest := place[1..];
      code := optchar as int;
      if optchar == ':' || (optchar == '-' && rest != "") || optchar !in grammar.options {
        code := BADCH;
        if optchar == '-' && rest == "" {
          PermutationOfParts(nargv[..], orig, skips, optind, nonoptStart, nonoptEnd);
          ArrangedOpen(nargv[..], orig, skips, optind, nonoptStart, nonoptEnd);
          EndsHere(skips, reports, [], AtLastDash);
          place := rest;
          return false, -1;
        }
        if rest == "" {
          LeaveArgument(code, false, None);
        } else {
          StayAt(code, rest);
        }
        return;
      }
      match KindAt(grammar.options, IndexFrom(grammar.options, optchar, 0)) {
        case NoArg =>
          if rest == "" {
            LeaveArgument(code, false, None);
          } else {
            StayAt(code, rest);
          }
        case Optional =>
          LeaveArgument(code, false, Given(rest));
        case Required =>
          if rest == "" && optind + 1 >= nargv.Length {
            code := BadArg(grammar);
          }
          LeaveArgument(code, rest == "", Given(rest));
      }
    }
  }

  /** Reads all options: whether the arguments end up sorted into options and
      non-options depends only on the vector and the grammar. */
  method ReadAll(argv: array<string>, g: Grammar) returns (s: Scanner, reports: seq<Report>)
    requires 1 <= argv.Length
    modifies argv
    ensures fresh(s) && s.nargv == argv && s.orig == old(argv[..]) && s.grammar == g
    ensures s.Finished() <==> s.Whole().stop != AtLastDash || true !in s.Whole().skips
    ensures multiset(argv[..]) == multiset(old(argv[..]))
    ensures s.Whole().stop == AtLastDash ==> s.GaveUp()
    ensures g.longTable.Some? ==> s.Finished()
    ensures reports == s.Whole().reports
  {
    hide *;
    s := new Scanner(argv, g);
    reports := [];
    var found, code := s.Next();
    while found
      invariant fresh(s) && s.nargv == argv && s.orig == old(argv[..]) && s.grammar == g
      invariant found ==> s.Valid()
      invariant !found ==> (s.Finished() <==> s.Whole().stop != AtLastDash || true !in s.Whole().skips)
      invariant !found ==> multiset(argv[..]) == multiset(old(argv[..]))
      invariant !found && s.Whole().stop == AtLastDash ==> s.GaveUp()
      invariant s.optind <= argv.Length || !found
      invariant s.reports == if found then reports + [Report(code, s.optarg)] else reports
      invariant !found ==> reports == s.Whole().reports
      decreases found, argv.Length - s.optind, s.place == "", |s.place|
    {
      reports := reports + [Report(code, s.optarg)];
      found, code := s.Next();
    }
    if g.longTable.Some? {
      LongNeverGivesUp(g, s.orig, 1);
      WholeStop(s);
    }
  }

  lemma WholeStop(s: Scanner)
    ensures s.Whole().stop == PlanFrom(s.grammar, s.orig, 1).stop
  {
  }

  lemma FirstKept(s: seq<string>)
    requires 1 <= |s|
    ensures Arranged(s, s, [false], 1, -1, -1)
  {
    var one := s[..1];
    assert one[1..] == [] && [false][1..] == [];
    assert Marked<string>([], [], true) == [] && Marked<string>([], [], false) == [];
  }
}
