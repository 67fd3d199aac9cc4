/** The regular expressions the Python scripts use: literals, and greedy runs of one
    character class.  `Match` and `Search` are Python's backtracking search, in its
    priority order; `Denotes` is what the expression means as a language. */
module Regex {
  import opened Pal

  datatype Class = Space | Digit | HexDigit | NotColon

  predicate In(cls: Class, ch: char) {
    match cls
    // \s on a str also accepts the four ASCII separators 0x1c..0x1f
    case Space => ch == ' ' || '\t' <= ch <= '\r' || 0x1c <= ch as int <= 0x1f
    case Digit => '0' <= ch <= '9'
    case HexDigit => '0' <= ch <= '9' || 'a' <= ch <= 'f' || 'A' <= ch <= 'F'
    case NotColon => ch != ':'
  }

  predicate All(cls: Class, s: string) {
    forall i :: 0 <= i < |s| ==> In(cls, s[i])
  }

  predicate IsDigits(cls: Class, s: string) {
    s != "" && All(cls, s)
  }

  /** A pattern is a list: a literal, or a run of at least `min` characters of a class
      (a group of the expression when `keep`), then the rest. */
  datatype Pattern =
    | End
    | Lit(text: string, rest: Pattern)
    | Run(cls: Class, min: nat, keep: bool, rest: Pattern)

  function Span(cls: Class, s: string): (n: nat)
    ensures n <= |s| && All(cls, s[..n])
    ensures n < |s| ==> !In(cls, s[n])
  {
    if s == "" || !In(cls, s[0]) then 0
    else
      assert forall i :: 0 < i < |s| ==> s[i] == s[1..][i - 1];
      1 + Span(cls, s[1..])
  }

  function Kept(keep: bool, s: string, groups: seq<string>): seq<string> {
    if keep then [s] + groups else groups
  }

  /** re.match: the first success when every run tries its longest extent first.  Text
      after the matched part is ignored. */
  function Match(p: Pattern, s: string): Option<seq<string>>
    decreases p, 0
  {
    match p
    case End => Some([])
    case Lit(text, rest) => if text <= s then Match(rest, s[|text|..]) else None
    case Run(cls, min, keep, rest) => TryRun(p, s, Span(cls, s))
  }

  function TryRun(p: Pattern, s: string, k: nat): Option<seq<string>>
    requires p.Run? && k <= |s|
    decreases p.rest, k + 1
  {
    if k < p.min then None
    else
      match Match(p.rest, s[k..])
      case Some(groups) => Some(Kept(p.keep, s[..k], groups))
      case None => if k == 0 then None else TryRun(p, s, k - 1)
  }

  /** re.search: the leftmost match. */
  function Search(p: Pattern, s: string): Option<seq<string>> {
    match Match(p, s)
    case Some(groups) => Some(groups)
    case None => if s == "" then None else Search(p, s[1..])
  }

  lemma {:induction false} SearchIsLeftmost(p: Pattern, s: string) returns (i: nat)
    ensures i <= |s| && Search(p, s) == Match(p, s[i..])
    ensures forall j :: 0 <= j < i ==> Match(p, s[j..]) == None
    ensures Search(p, s) == None ==> i == |s|
  {
    assert s[0..] == s;
    if Match(p, s).Some? || s == "" { return 0; }
    var k := SearchIsLeftmost(p, s[1..]);
    forall j | 0 <= j < k + 1 ensures Match(p, s[j..]) == None {
      if j > 0 { assert s[1..][j - 1..] == s[j..]; }
    }
    assert s[1..][k..] == s[k + 1..];
    return k + 1;
  }

  // ---- the language of a pattern ----------------------------------------------

  /** Some prefix of `s` spells the pattern out, with these texts for its groups. */
  ghost predicate Denotes(p: Pattern, s: string, groups: seq<string>)
    decreases p, 1
  {
    match p
    case End => groups == []
    case Lit(text, rest) => text <= s && Denotes(rest, s[|text|..], groups)
    case Run(cls, min, keep, rest) => exists k: nat :: RunOf(p, s, groups, k)
  }

  ghost predicate RunOf(p: Pattern, s: string, groups: seq<string>, k: nat)
    requires p.Run?
    decreases p, 0
  {
    && p.min <= k <= |s| && All(p.cls, s[..k])
    && if p.keep then groups != [] && groups[0] == s[..k] && Denotes(p.rest, s[k..], groups[1..])
       else Denotes(p.rest, s[k..], groups)
  }

  /** Nothing the pattern matches begins with a character of `cls`. */
  predicate Avoids(p: Pattern, cls: Class) {
    match p
    case End => false
    case Lit(text, rest) => text != "" && !In(cls, text[0])
    case Run(cls', min, keep, rest) => Disjoint(cls, cls') && (min > 0 || Avoids(rest, cls))
  }

  predicate Disjoint(a: Class, b: Class) {
    a != b && (a == Space || b == Space) && (a == Digit || b == Digit || a == HexDigit || b == HexDigit)
  }

  /** After every run comes something that cannot continue it. */
  predicate Deterministic(p: Pattern) {
    match p
    case End => true
    case Lit(text, rest) => Deterministic(rest)
    case Run(cls, min, keep, rest) => Avoids(rest, cls) && Deterministic(rest)
  }

  lemma AllAt(cls: Class, s: string, k: nat, i: nat)
    requires i < k <= |s| && All(cls, s[..k])
    ensures In(cls, s[i])
  {
  }

  lemma {:induction false} AvoidsRejects(p: Pattern, cls: Class, s: string, groups: seq<string>)
    requires Avoids(p, cls) && s != "" && In(cls, s[0])
    ensures !Denotes(p, s, groups)
  {
    match p
    case Lit(text, rest) =>
    case Run(cls', min, keep, rest) =>
      forall k: nat | RunOf(p, s, groups, k) ensures false {
        if k > 0 {
          AllAt(cls', s, k, 0);
        } else {
          assert s[k..] == s;
          AvoidsRejects(rest, cls, s, if keep then groups[1..] else groups);
        }
      }
  }

  /** What the backtracking search returns is in the language, whatever the pattern. */
  lemma {:induction false} MatchSound(p: Pattern, s: string)
    ensures Match(p, s).Some? ==> Denotes(p, s, Match(p, s).value)
    decreases p, 0
  {
    match p
    case End =>
    case Lit(text, rest) => if text <= s { MatchSound(rest, s[|text|..]); }
    case Run(cls, min, keep, rest) => TryRunSound(p, s, Span(cls, s));
  }

  lemma {:induction false} TryRunSound(p: Pattern, s: string, k: nat)
    requires p.Run? && k <= |s| && All(p.cls, s[..k])
    ensures TryRun(p, s, k).Some? ==> Denotes(p, s, TryRun(p, s, k).value)
    decreases p.rest, k + 1
  {
    if k >= p.min {
      MatchSound(p.rest, s[k..]);
      if Match(p.rest, s[k..]).Some? {
        var groups := TryRun(p, s, k).value;
        assert p.keep ==> groups[1..] == Match(p.rest, s[k..]).value;
        assert RunOf(p, s, groups, k);
      } else if k > 0 {
        TryRunSound(p, s, k - 1);
      }
    }
  }

  /** It finds something whenever there is something to find. */
  lemma {:induction false} MatchFinds(p: Pattern, s: string, groups: seq<string>)
    requires Denotes(p, s, groups)
    ensures Match(p, s).Some?
    decreases p, 0
  {
    match p
    case End =>
    case Lit(text, rest) => MatchFinds(rest, s[|text|..], groups);
    case Run(cls, min, keep, rest) =>
      var k: nat :| RunOf(p, s, groups, k);
      var n := Span(cls, s);
      if k > n { AllAt(cls, s, k, n); }
      TryRunFinds(p, s, groups, n, k);
  }

  lemma {:induction false} TryRunFinds(p: Pattern, s: string, groups: seq<string>, n: nat, k: nat)
    requires p.Run? && k <= n <= |s| && RunOf(p, s, groups, k)
    ensures TryRun(p, s, n).Some?
    decreases p.rest, n + 1
  {
    if k == n {
      MatchFinds(p.rest, s[k..], if p.keep then groups[1..] else groups);
    } else {
      TryRunFinds(p, s, groups, n - 1, k);
    }
  }

  /** A deterministic pattern has one reading, and the search finds it: backtracking
      can never change the answer. */
  lemma {:induction false} MatchComplete(p: Pattern, s: string, groups: seq<string>)
    requires Deterministic(p) && Denotes(p, s, groups)
    ensures Match(p, s) == Some(groups)
  {
    match p
    case End =>
    case Lit(text, rest) => MatchComplete(rest, s[|text|..], groups);
    case Run(cls, min, keep, rest) =>
      var k: nat :| RunOf(p, s, groups, k);
      var after := if keep then groups[1..] else groups;
      var n := Span(cls, s);
      if k < n {
        AllAt(cls, s, n, k);
        AvoidsRejects(rest, cls, s[k..], after);
      } else if k > n {
        AllAt(cls, s, k, n);
      }
      assert k == n;
      MatchComplete(rest, s[k..], after);
      assert keep ==> groups == [groups[0]] + groups[1..];
  }

  lemma MatchIffDenotes(p: Pattern, s: string, groups: seq<string>)
    requires Deterministic(p)
    ensures Match(p, s) == Some(groups) <==> Denotes(p, s, groups)
  {
    MatchSound(p, s);
    if Denotes(p, s, groups) { MatchComplete(p, s, groups); }
  }

  // ---- groups -------------------------------------------------------------------

  /** The groups are runs of their classes, in pattern order. */
  predicate GroupsFit(p: Pattern, groups: seq<string>) {
    match p
    case End => groups == []
    case Lit(text, rest) => GroupsFit(rest, groups)
    case Run(cls, min, keep, rest) =>
      if keep then
        groups != [] && |groups[0]| >= min && All(cls, groups[0]) && GroupsFit(rest, groups[1..])
      else GroupsFit(rest, groups)
  }

  lemma {:induction false} DenotesFits(p: Pattern, s: string, groups: seq<string>)
    requires Denotes(p, s, groups)
    ensures GroupsFit(p, groups)
  {
    match p
    case End =>
    case Lit(text, rest) => DenotesFits(rest, s[|text|..], groups);
    case Run(cls, min, keep, rest) =>
      var k: nat :| RunOf(p, s, groups, k);
      DenotesFits(rest, s[k..], if keep then groups[1..] else groups);
  }

  lemma {:induction false} SearchFits(p: Pattern, s: string)
    ensures Search(p, s).Some? ==> GroupsFit(p, Search(p, s).value)
  {
    MatchSound(p, s);
    if Match(p, s).Some? {
      DenotesFits(p, s, Match(p, s).value);
    } else if s != "" {
      SearchFits(p, s[1..]);
    }
  }

  // ---- building a member of the language ------------------------------------------

  lemma SpellLit(text: string, rest: Pattern, tail: string, groups: seq<string>)
    requires Denotes(rest, tail, groups)
    ensures Denotes(Lit(text, rest), text + tail, groups)
  {
  }

  lemma SpellRun(cls: Class, min: nat, keep: bool, rest: Pattern, run: string, tail: string, groups: seq<string>)
    requires |run| >= min && All(cls, run) && Denotes(rest, tail, groups)
    ensures Denotes(Run(cls, min, keep, rest), run + tail, Kept(keep, run, groups))
  {
    var s := run + tail;
    assert s[..|run|] == run && s[|run|..] == tail;
    assert keep ==> ([run] + groups)[1..] == groups;
    assert RunOf(Run(cls, min, keep, rest), s, Kept(keep, run, groups), |run|);
  }
}
