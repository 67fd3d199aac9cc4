/** What the extractor sees of a traced access.

    The tracer prints `vfio_region_write  (NAME:regionB+0xOFF, 0xVAL, 4)` and
    `vfio_region_read  (NAME:regionB+0xOFF, 4) = 0xVAL`.  The extractor's expression asks for a
    NAME without a colon, but a PCI address such as 0000:06:01.0 has colons. */
module TraceFormat {
  import opened Pal
  import opened Regex
  import opened Extract

  const WRITE_WORD := "vfio_region_write"
  const READ_WORD := "vfio_region_read"

  const WRITE_MID := ", 0x"
  const READ_MID := ", 4) = 0x"
  const WRITE_TAIL := ", 4)\n"
  const READ_TAIL := "\n"

  /** The shape of both kinds of line. */
  function AccessText(word: string, name: string, bar: string, offset: string, mid: string, value: string,
                      tail: string): string
  {
    word + ("  (" + (name + (":region" + (bar + ("+0x" + (offset + (mid + (value + tail))))))))
  }

  /** The digits of an access. */
  predicate IsAccess(bar: string, offset: string, value: string) {
    IsDigits(Digit, bar) && IsDigits(HexDigit, offset) && IsDigits(HexDigit, value)
  }

  // ---- substrings ---------------------------------------------------------------------------

  lemma ContainsAt(text: string, sub: string, i: nat)
    requires i <= |text| && sub <= text[i..]
    ensures Contains(text, sub)
  {
  }

  lemma ContainsPart(text: string, sub: string, part: string, i: nat)
    requires i <= |sub| && part <= sub[i..]
    ensures Contains(text, sub) ==> Contains(text, part)
  {
    if Contains(text, sub) {
      var k :| 0 <= k <= |text| && sub <= text[k..];
      assert part <= text[k + i..];
    }
  }

  lemma Missing(text: string, sub: string, ch: char)
    requires ch in sub && ch !in text
    ensures !Contains(text, sub)
  {
  }

  lemma TooShort(text: string, sub: string)
    requires |text| < |sub|
    ensures !Contains(text, sub)
  {
  }

  predicate Separates(p: string, sub: string) {
    p != "" && sub != "" && !Contains(p, sub) && p[0] !in sub && p[|p| - 1] !in sub
  }

  /** The words of a line are kept apart by separators that `sub` cannot overlap. */
  lemma Separated(a: string, p: string, b: string, sub: string)
    requires Separates(p, sub)
    ensures Contains(a + (p + b), sub) <==> Contains(a, sub) || Contains(b, sub)
  {
    var s := a + (p + b);
    if Contains(a, sub) {
      var k :| 0 <= k <= |a| && sub <= a[k..];
      assert sub <= s[k..];
    }
    if Contains(b, sub) {
      var k :| 0 <= k <= |b| && sub <= b[k..];
      assert s[|a| + |p| + k..] == b[k..];
      ContainsAt(s, sub, |a| + |p| + k);
    }
    if Contains(s, sub) {
      var k :| 0 <= k <= |s| && sub <= s[k..];
      SeparatedAt(a, p, b, sub, k);
    }
  }

  /** An occurrence that overlaps the separator covers its first or its last character. */
  lemma Straddles(a: string, p: string, b: string, sub: string, k: nat)
    requires p != "" && |a| < k + |sub| && k < |a| + |p|
    requires k + |sub| <= |a + (p + b)| && sub <= (a + (p + b))[k..]
    ensures p[0] in sub || p[|p| - 1] in sub || Contains(p, sub)
  {
    var s := a + (p + b);
    if k <= |a| {
      assert s[k..][|a| - k] == p[0];
    } else if |a| + |p| <= k + |sub| - 1 {
      assert s[k..][|a| + |p| - 1 - k] == p[|p| - 1];
    } else {
      assert sub == s[k..][..|sub|] == p[k - |a|..][..|sub|];
      ContainsAt(p, sub, k - |a|);
    }
  }

  lemma SeparatedAt(a: string, p: string, b: string, sub: string, k: nat)
    requires Separates(p, sub) && k <= |a + (p + b)| && sub <= (a + (p + b))[k..]
    ensures Contains(a, sub) || Contains(b, sub)
  {
    var s := a + (p + b);
    if k + |sub| <= |a| {
      assert sub <= a[k..];
    } else if |a| + |p| <= k {
      assert sub <= b[k - |a| - |p|..];
    } else {
      Straddles(a, p, b, sub, k);
    }
  }

  // ---- matching piece by piece ------------------------------------------------------------

  lemma MatchLit(text: string, rest: Pattern, tail: string)
    ensures Match(Lit(text, rest), text + tail) == Match(rest, tail)
  {
  }

  lemma MatchRun(cls: Class, min: nat, keep: bool, rest: Pattern, run: string, tail: string)
    requires All(cls, run) && |run| >= min && (tail == "" || !In(cls, tail[0])) && Match(rest, tail).Some?
    ensures Match(Run(cls, min, keep, rest), run + tail) == Some(Kept(keep, run, Match(rest, tail).value))
  {
    var s := run + tail;
    var n := Span(cls, s);
    assert forall i :: 0 <= i < |run| ==> s[i] == run[i];
    if n > |run| { AllAt(cls, s, n, |run|); }
    assert n == |run| && s[..n] == run && s[n..] == tail;
  }

  /** A literal, then a run. */
  lemma MatchField(text: string, cls: Class, keep: bool, rest: Pattern, run: string, tail: string)
    requires IsDigits(cls, run) && (tail == "" || !In(cls, tail[0])) && Match(rest, tail).Some?
    ensures Match(Lit(text, Run(cls, 1, keep, rest)), text + (run + tail))
         == Some(Kept(keep, run, Match(rest, tail).value))
  {
    MatchRun(cls, 1, keep, rest, run, tail);
    MatchLit(text, Run(cls, 1, keep, rest), run + tail);
  }

  const VALUE_PART: Pattern := Lit(",", Run(Space, 1, false, VFIO_VALUE))
  const OFFSET_PART: Pattern := Lit("+0x", Run(HexDigit, 1, true, VALUE_PART))
  const READ_ARGS: Pattern := Run(Digit, 1, true, Lit("+0x", Run(HexDigit, 1, true, End)))

  /** What follows the word in both expressions: blanks, a name and its region. */
  function NamePart(args: Pattern): Pattern {
    Run(NotColon, 1, false, Lit(":region", args))
  }

  function Named(word: string, args: Pattern): Pattern {
    Lit(word, Run(Space, 1, false, Lit("(", NamePart(args))))
  }

  lemma BothNamed()
    ensures VFIO_WRITE == Named(WRITE_WORD, VFIO_ARGS) && VFIO_READ == Named(READ_WORD, READ_ARGS)
  {
  }

  lemma MatchValue(value: string, tail: string)
    requires IsDigits(HexDigit, value) && (tail == "" || !In(HexDigit, tail[0]))
    ensures Match(VFIO_VALUE, "0x" + (value + tail)) == Some([value])
  {
    assert Match(End, tail) == Some([]);
    MatchField("0x", HexDigit, true, End, value, tail);
    assert [value] + [] == [value];
  }

  lemma MatchComma(tail: string, groups: seq<string>)
    requires tail != "" && tail[0] == '0' && Match(VFIO_VALUE, tail) == Some(groups)
    ensures Match(VALUE_PART, "," + (" " + tail)) == Some(groups)
  {
    MatchField(",", Space, false, VFIO_VALUE, " ", tail);
  }

  lemma MatchOffset(offset: string, tail: string, groups: seq<string>)
    requires IsDigits(HexDigit, offset) && tail != "" && tail[0] == ',' && Match(VALUE_PART, tail) == Some(groups)
    ensures Match(OFFSET_PART, "+0x" + (offset + tail)) == Some([offset] + groups)
  {
    MatchField("+0x", HexDigit, true, VALUE_PART, offset, tail);
  }

  lemma MatchBar(bar: string, tail: string, groups: seq<string>)
    requires IsDigits(Digit, bar) && tail != "" && tail[0] == '+' && Match(OFFSET_PART, tail) == Some(groups)
    ensures Match(Lit(":region", VFIO_ARGS), ":region" + (bar + tail)) == Some([bar] + groups)
  {
    MatchField(":region", Digit, true, OFFSET_PART, bar, tail);
  }

  lemma MatchName(word: string, args: Pattern, name: string, tail: string, groups: seq<string>)
    requires IsDigits(NotColon, name) && tail != "" && tail[0] == ':'
    requires Match(Lit(":region", args), tail) == Some(groups)
    ensures Match(Named(word, args), word + ("  " + ("(" + (name + tail)))) == Some(groups)
  {
    MatchField("(", NotColon, false, Lit(":region", args), name, tail);
    MatchField(word, Space, false, Lit("(", NamePart(args)), "  ", "(" + (name + tail));
  }

  /** The same line with the literals of the pattern. */
  lemma WriteText(name: string, bar: string, offset: string, value: string, tail: string)
    ensures AccessText(WRITE_WORD, name, bar, offset, WRITE_MID, value, tail)
         == WRITE_WORD + ("  " + ("(" + (name + (":region" + (bar + ("+0x" + (offset
            + ("," + (" " + ("0x" + (value + tail)))))))))))
  {
  }

  lemma MatchNamed(name: string, bar: string, offset: string, value: string, tail: string)
    requires IsDigits(NotColon, name) && IsAccess(bar, offset, value) && (tail == "" || !In(HexDigit, tail[0]))
    ensures Match(VFIO_WRITE, AccessText(WRITE_WORD, name, bar, offset, WRITE_MID, value, tail))
         == Some([bar, offset, value])
  {
    MatchValue(value, tail);
    MatchComma("0x" + (value + tail), [value]);
    var t2 := "," + (" " + ("0x" + (value + tail)));
    MatchOffset(offset, t2, [value]);
    var t1 := "+0x" + (offset + t2);
    MatchBar(bar, t1, [offset] + [value]);
    BothNamed();
    MatchName(WRITE_WORD, VFIO_ARGS, name, ":region" + (bar + t1), [bar] + ([offset] + [value]));
    WriteText(name, bar, offset, value, tail);
    assert [bar] + ([offset] + [value]) == [bar, offset, value];
  }

  lemma MatchReadArgs(bar: string, offset: string, tail: string)
    requires IsDigits(Digit, bar) && IsDigits(HexDigit, offset) && tail != "" && !In(HexDigit, tail[0])
    ensures Match(Lit(":region", READ_ARGS), ":region" + (bar + ("+0x" + (offset + tail)))) == Some([bar, offset])
  {
    assert Match(End, tail) == Some([]);
    MatchField("+0x", HexDigit, true, End, offset, tail);
    MatchField(":region", Digit, true, Lit("+0x", Run(HexDigit, 1, true, End)), bar, "+0x" + (offset + tail));
    assert [bar] + ([offset] + []) == [bar, offset];
  }

  lemma ReadText(name: string, bar: string, offset: string, rest: string)
    ensures READ_WORD + ("  (" + (name + (":region" + (bar + ("+0x" + (offset + rest))))))
         == READ_WORD + ("  " + ("(" + (name + (":region" + (bar + ("+0x" + (offset + rest)))))))
  {
  }

  lemma MatchReadNamed(name: string, bar: string, offset: string, value: string)
    requires IsDigits(NotColon, name) && IsAccess(bar, offset, value)
    ensures Match(VFIO_READ, AccessText(READ_WORD, name, bar, offset, READ_MID, value, READ_TAIL))
         == Some([bar, offset])
  {
    var rest := READ_MID + (value + READ_TAIL);
    MatchReadArgs(bar, offset, rest);
    BothNamed();
    MatchName(READ_WORD, READ_ARGS, name, ":region" + (bar + ("+0x" + (offset + rest))), [bar, offset]);
    ReadText(name, bar, offset, rest);
  }

  // ---- names the expressions reject ---------------------------------------------------------

  /** A name the expression can match. */
  predicate Visible(name: string) {
    name != "" && ':' !in name
  }

  lemma NoColonWithin(s: string, k: nat, j: nat)
    requires k <= |s| && ":region" <= s[k..] && k < j < k + 7
    ensures s[j] != ':'
  {
    assert s[j] == s[k..][j - k];
  }

  lemma RegionInName(name: string, args: string, k: nat)
    requires k < |name| && ":region" <= (name + (":" + args))[k..]
    ensures Contains(name, "region")
  {
    var s := name + (":" + args);
    if |name| < k + 7 {
      NoColonWithin(s, k, |name|);
    } else {
      assert "region" == s[k..][1..7] == name[k + 1..k + 7];
      ContainsAt(name, "region", k + 1);
    }
  }

  lemma WholeName(name: string, args: string)
    ensures name != "" && All(NotColon, (name + (":" + args))[..|name|]) ==> Visible(name)
  {
    assert (name + (":" + args))[..|name|] == name;
  }

  lemma LitDenotes(text: string, rest: Pattern, s: string, groups: seq<string>)
    ensures Denotes(Lit(text, rest), s, groups) ==> text <= s && Denotes(rest, s[|text|..], groups)
  {
  }

  lemma RunDenotes(p: Pattern, s: string, groups: seq<string>) returns (k: nat)
    requires p.Run? && !p.keep && Denotes(p, s, groups)
    ensures p.min <= k <= |s| && All(p.cls, s[..k]) && Denotes(p.rest, s[k..], groups)
  {
    k :| RunOf(p, s, groups, k);
  }

  /** The run stops at the first colon, and `:region` has to follow it there. */
  lemma NameRejected(rest: Pattern, name: string, args: string, groups: seq<string>)
    requires !Contains(name, "region") && !Visible(name)
    ensures !Denotes(NamePart(rest), name + (":" + args), groups)
  {
    var s := name + (":" + args);
    if Denotes(NamePart(rest), s, groups) {
      var k := RunDenotes(NamePart(rest), s, groups);
      LitDenotes(":region", rest, s[k..], groups);
      if k > |name| {
        AllAt(NotColon, s, k, |name|);
      } else if k == |name| {
        WholeName(name, args);
      } else {
        RegionInName(name, args, k);
      }
    }
  }

  lemma NamedRejected(word: string, rest: Pattern, name: string, args: string, groups: seq<string>)
    requires !Contains(name, "region") && !Visible(name)
    ensures !Denotes(Named(word, rest), word + ("  " + ("(" + (name + (":" + args)))), groups)
  {
    var t := "  " + ("(" + (name + (":" + args)));
    assert (word + t)[|word|..] == t;
    LitDenotes(word, Named(word, rest).rest, word + t, groups);
    SpacesRejected(rest, name, args, groups);
  }

  lemma SpacesRejected(rest: Pattern, name: string, args: string, groups: seq<string>)
    requires !Contains(name, "region") && !Visible(name)
    ensures !Denotes(Run(Space, 1, false, Lit("(", NamePart(rest))), "  " + ("(" + (name + (":" + args))), groups)
  {
    var p, t := Run(Space, 1, false, Lit("(", NamePart(rest))), "  " + ("(" + (name + (":" + args)));
    if Denotes(p, t, groups) {
      var k := RunDenotes(p, t, groups);
      LitDenotes("(", NamePart(rest), t[k..], groups);
      assert t[0] == ' ' && t[1] == ' ' && t[2] == '(';
      if k > 2 { AllAt(Space, t, k, 2); }
      assert t[k..][0] == t[k];
      assert t[2..][1..] == name + (":" + args);
      NameRejected(rest, name, args, groups);
    }
  }

  /** The two words of the tracer. */
  predicate IsWord(word: string) {
    word == WRITE_WORD || word == READ_WORD
  }

  /** The word is nowhere else in a line. */
  lemma NoWord(word: string, first: string, name: string, args: string)
    requires IsWord(word) && !Contains(first, word) && !Contains(name, "region") && 'v' !in args
    ensures !Contains(first + ("  (" + (name + (":" + args))), word)
  {
    assert word[0] == 'v' && word[5..11] == "region";
    WordSeparators(word);
    Separated(first, "  (", name + (":" + args), word);
    Separated(name, ":", args, word);
    ContainsPart(name, word, "region", 5);
    Missing(args, word, 'v');
  }

  lemma WordSeparators(word: string)
    requires IsWord(word)
    ensures Separates("  (", word) && Separates(":", word)
  {
    TooShort("  (", word);
    TooShort(":", word);
  }

  lemma {:induction false} MatchHasWord(word: string, rest: Pattern, s: string)
    ensures Search(Lit(word, rest), s).Some? ==> Contains(s, word)
  {
    if word <= s {
      ContainsAt(s, word, 0);
    } else if s != "" {
      MatchHasWord(word, rest, s[1..]);
      ContainsRest(s, word);
    }
  }

  lemma ContainsRest(s: string, sub: string)
    requires s != ""
    ensures Contains(s[1..], sub) ==> Contains(s, sub)
  {
    if Contains(s[1..], sub) {
      var k :| 0 <= k <= |s[1..]| && sub <= s[1..][k..];
      assert s[1..][k..] == s[k + 1..];
    }
  }

  /** What follows the colon of a line. */
  function Args(bar: string, offset: string, mid: string, value: string, tail: string): string {
    "region" + (bar + ("+0x" + (offset + (mid + (value + tail)))))
  }

  lemma LineArgs(word: string, name: string, bar: string, offset: string, mid: string, value: string, tail: string)
    ensures AccessText(word, name, bar, offset, mid, value, tail)
         == word + ("  (" + (name + (":" + Args(bar, offset, mid, value, tail))))
         == word + ("  " + ("(" + (name + (":" + Args(bar, offset, mid, value, tail)))))
  {
  }

  lemma ArgsNoV(bar: string, offset: string, mid: string, value: string, tail: string)
    requires IsAccess(bar, offset, value) && 'v' !in mid && 'v' !in tail
    ensures 'v' !in Args(bar, offset, mid, value, tail)
  {
  }

  lemma NotHere(word: string, rest: Pattern, name: string, args: string)
    requires !Contains(name, "region") && !Visible(name)
    ensures Match(Named(word, rest), word + ("  " + ("(" + (name + (":" + args))))) == None
  {
    var line := word + ("  " + ("(" + (name + (":" + args))));
    MatchSound(Named(word, rest), line);
    if Match(Named(word, rest), line).Some? {
      NamedRejected(word, rest, name, args, Match(Named(word, rest), line).value);
    }
  }

  lemma NotLater(word: string, rest: Pattern, name: string, args: string)
    requires IsWord(word) && !Contains(name, "region") && 'v' !in args
    ensures Search(Named(word, rest), (word + ("  (" + (name + (":" + args))))[1..]) == None
  {
    TooShort(word[1..], word);
    NoWord(word, word[1..], name, args);
    var t := "  (" + (name + (":" + args));
    assert (word + t)[1..] == word[1..] + t;
    MatchHasWord(word, Named(word, rest).rest, word[1..] + t);
  }

  lemma OpenParen(word: string, tail: string)
    ensures word + ("  (" + tail) == word + ("  " + ("(" + tail))
  {
  }

  /** With a name it rejects, the expression finds nothing in the line. */
  lemma NotFound(word: string, rest: Pattern, name: string, args: string)
    requires IsWord(word) && !Contains(name, "region") && !Visible(name) && 'v' !in args
    ensures Search(Named(word, rest), word + ("  (" + (name + (":" + args)))) == None
  {
    NotHere(word, rest, name, args);
    NotLater(word, rest, name, args);
    OpenParen(word, name + (":" + args));
  }

  /** A traced write is seen, with exactly its numbers, iff its device has a name without a colon. */
  lemma SeenIffNoColon(name: string, bar: string, offset: string, value: string, tail: string)
    requires !Contains(name, "region") && IsAccess(bar, offset, value)
    requires 'v' !in tail && (tail == "" || !In(HexDigit, tail[0]))
    ensures Search(VFIO_WRITE, AccessText(WRITE_WORD, name, bar, offset, WRITE_MID, value, tail))
         == if Visible(name) then Some([bar, offset, value]) else None
  {
    var args := Args(bar, offset, WRITE_MID, value, tail);
    if Visible(name) {
      MatchNamed(name, bar, offset, value, tail);
    } else {
      LineArgs(WRITE_WORD, name, bar, offset, WRITE_MID, value, tail);
      ArgsNoV(bar, offset, WRITE_MID, value, tail);
      BothNamed();
      NotFound(WRITE_WORD, VFIO_ARGS, name, args);
    }
  }

  /** A traced read is seen by the read expression, with its region and offset, under the same condition. */
  lemma ReadSeenIffNoColon(name: string, bar: string, offset: string, value: string)
    requires !Contains(name, "region") && IsAccess(bar, offset, value)
    ensures Search(VFIO_READ, AccessText(READ_WORD, name, bar, offset, READ_MID, value, READ_TAIL))
         == if Visible(name) then Some([bar, offset]) else None
  {
    if Visible(name) {
      MatchReadNamed(name, bar, offset, value);
    } else {
      LineArgs(READ_WORD, name, bar, offset, READ_MID, value, READ_TAIL);
      ArgsNoV(bar, offset, READ_MID, value, READ_TAIL);
      BothNamed();
      NotFound(READ_WORD, READ_ARGS, name, Args(bar, offset, READ_MID, value, READ_TAIL));
    }
  }

  /** Neither word is in a line of the other kind. */
  lemma OtherWord(word: string, other: string, rest: Pattern, name: string, bar: string, offset: string, mid: string,
                  value: string, tail: string)
    requires IsWord(word) && IsWord(other) && word != other && !Contains(name, "region") && IsAccess(bar, offset, value)
    requires 'v' !in mid && 'v' !in tail
    ensures !Contains(AccessText(word, name, bar, offset, mid, value, tail), other)
    ensures Search(Lit(other, rest), AccessText(word, name, bar, offset, mid, value, tail)) == None
  {
    LineArgs(word, name, bar, offset, mid, value, tail);
    ArgsNoV(bar, offset, mid, value, tail);
    WordsDiffer();
    NoWord(other, word, name, Args(bar, offset, mid, value, tail));
    MatchHasWord(other, rest, AccessText(word, name, bar, offset, mid, value, tail));
  }

  lemma WordsDiffer()
    ensures !Contains(WRITE_WORD, READ_WORD) && !Contains(READ_WORD, WRITE_WORD)
  {
    Missing(WRITE_WORD, READ_WORD, 'a');
    TooShort(READ_WORD, WRITE_WORD);
  }

  /** A traced read is never taken for a write, nor for the marker. */
  lemma ReadUnseen(name: string, bar: string, offset: string, value: string)
    requires !Contains(name, "region") && IsAccess(bar, offset, value)
    ensures Search(VFIO_WRITE, AccessText(READ_WORD, name, bar, offset, READ_MID, value, READ_TAIL)) == None
    ensures !IsMarker(AccessText(READ_WORD, name, bar, offset, READ_MID, value, READ_TAIL))
  {
    BothNamed();
    OtherWord(READ_WORD, WRITE_WORD, Named(WRITE_WORD, VFIO_ARGS).rest, name, bar, offset, READ_MID, value, READ_TAIL);
  }

  /** Nor a traced write for a read. */
  lemma WriteUnseen(name: string, bar: string, offset: string, value: string)
    requires !Contains(name, "region") && IsAccess(bar, offset, value)
    ensures Search(VFIO_READ, AccessText(WRITE_WORD, name, bar, offset, WRITE_MID, value, WRITE_TAIL)) == None
  {
    BothNamed();
    OtherWord(WRITE_WORD, READ_WORD, Named(READ_WORD, READ_ARGS).rest, name, bar, offset, WRITE_MID, value, WRITE_TAIL);
  }

  // ---- the kick-start test ----------------------------------------------------------------------

  const CODE := "10914221"

  lemma CodeSeparators(p: string)
    requires p == "  (" || p == ":region" || p == "+0x" || p == WRITE_MID || p == READ_MID
          || p == WRITE_TAIL || p == READ_TAIL
    ensures Separates(p, CODE)
  {
    Missing(p, CODE, '9');
  }

  /** The test for the kick-start looks for its value anywhere in the line: that is in the device
      name or in one of the three numbers. */
  lemma KickstartIff(word: string, name: string, bar: string, offset: string, mid: string, value: string, tail: string)
    requires '1' !in word && (mid == WRITE_MID || mid == READ_MID) && (tail == WRITE_TAIL || tail == READ_TAIL)
    ensures IsKickstart(AccessText(word, name, bar, offset, mid, value, tail))
       <==> Contains(name, CODE) || Contains(bar, CODE) || Contains(offset, CODE) || Contains(value, CODE)
  {
    CodeSeparators("  ("); CodeSeparators(":region"); CodeSeparators("+0x"); CodeSeparators(mid); CodeSeparators(tail);
    Missing(word, CODE, '1');
    TooShort("", CODE);
    assert tail == tail + "";
    Separated(value, tail, "", CODE);
    var t4 := value + tail;
    Separated(offset, mid, t4, CODE);
    var t3 := offset + (mid + t4);
    Separated(bar, "+0x", t3, CODE);
    var t2 := bar + ("+0x" + t3);
    Separated(name, ":region", t2, CODE);
    var t1 := name + (":region" + t2);
    Separated(word, "  (", t1, CODE);
  }

  // ---- the marker test ------------------------------------------------------------------------------

  /** With a character that both have only at `i`, an occurrence can only be at the start. */
  lemma OnlyAtStart(text: string, sub: string, i: nat)
    requires i < |sub| && i < |text| && forall j :: 0 <= j < |text| && j != i ==> text[j] != sub[i]
    ensures Contains(text, sub) <==> sub <= text
  {
    if sub <= text { ContainsAt(text, sub, 0); }
    if Contains(text, sub) {
      var k :| 0 <= k <= |text| && sub <= text[k..];
      assert text[k..][i] == text[k + i];
      assert k == 0 && text[k..] == text;
    }
  }

  const UPLOAD_END := "region0+0xb44"
  const UPLOAD_WORD := "0x30000890"

  lemma RegionHas(bar: string, offset: string)
    requires IsDigits(Digit, bar) && IsDigits(HexDigit, offset)
    ensures Contains("region" + (bar + ("+0x" + offset)), UPLOAD_END) <==> bar == "0" && "b44" <= offset
  {
    var s := "region" + (bar + ("+0x" + offset));
    assert s[0] == 'r' && UPLOAD_END[0] == 'r';
    OnlyAtStart(s, UPLOAD_END, 0);
    UploadEndPrefix(bar, offset);
  }

  lemma UploadEndPrefix(bar: string, offset: string)
    requires IsDigits(Digit, bar)
    ensures UPLOAD_END <= "region" + (bar + ("+0x" + offset)) <==> bar == "0" && "b44" <= offset
  {
    var s := "region" + (bar + ("+0x" + offset));
    assert UPLOAD_END == "region" + ("0" + ("+0x" + "b44"));
    assert |bar| > 1 ==> s[7] == bar[1];
    if UPLOAD_END <= s {
      assert s[6] == bar[0] == '0' && s[7] == '+';
      assert bar == "0";
      assert s[10..] == offset && s[10..13] == "b44";
    }
    if bar == "0" && "b44" <= offset {
      assert s[..13] == "region" + ("0" + ("+0x" + offset[..3]));
    }
  }

  lemma WordHas(digits: string)
    requires All(HexDigit, digits)
    ensures Contains("0x" + digits, UPLOAD_WORD) <==> "30000890" <= digits
  {
    var s := "0x" + digits;
    assert s[1] == 'x' && UPLOAD_WORD[1] == 'x';
    OnlyAtStart(s, UPLOAD_WORD, 1);
    assert UPLOAD_WORD == "0x" + "30000890" && s[2..] == digits;
  }

  lemma NameHasNot(name: string)
    requires !Contains(name, "region")
    ensures !Contains(name, UPLOAD_END)
  {
    ContainsPart(name, UPLOAD_END, "region", 0);
  }

  lemma WriteHasWord(rest: string)
    ensures Contains(WRITE_WORD + rest, WRITE_WORD)
  {
    ContainsAt(WRITE_WORD + rest, WRITE_WORD, 0);
  }

  /** The part of a write line after the offset. */
  function WriteRest(value: string): string {
    " " + ("0x" + (value + ("," + " 4)\n")))
  }

  lemma WriteArgs(bar: string, offset: string, value: string)
    ensures Args(bar, offset, WRITE_MID, value, WRITE_TAIL)
         == ("region" + (bar + ("+0x" + offset))) + ("," + WriteRest(value))
         == ("region" + bar) + ("+" + (("0x" + offset) + ("," + WriteRest(value))))
  {
    assert WRITE_TAIL == "," + " 4)\n" && WRITE_MID == "," + (" " + "0x");
  }

  lemma MarkerSeparators(p: string, sub: string)
    requires sub == UPLOAD_END || sub == UPLOAD_WORD
    requires p == "  (" || p == ":" || p == "," || p == " "
    ensures Separates(p, sub)
  {
    TooShort(p, sub);
  }

  lemma EndIff(name: string, bar: string, offset: string, value: string)
    requires !Contains(name, "region") && IsAccess(bar, offset, value)
    ensures Contains(AccessText(WRITE_WORD, name, bar, offset, WRITE_MID, value, WRITE_TAIL), UPLOAD_END)
       <==> bar == "0" && "b44" <= offset
  {
    var args := Args(bar, offset, WRITE_MID, value, WRITE_TAIL);
    LineArgs(WRITE_WORD, name, bar, offset, WRITE_MID, value, WRITE_TAIL);
    MarkerSeparators("  (", UPLOAD_END); MarkerSeparators(":", UPLOAD_END); MarkerSeparators(",", UPLOAD_END);
    Missing(WRITE_WORD, UPLOAD_END, '+');
    Separated(WRITE_WORD, "  (", name + (":" + args), UPLOAD_END);
    NameHasNot(name);
    Separated(name, ":", args, UPLOAD_END);
    WriteArgs(bar, offset, value);
    Missing(WriteRest(value), UPLOAD_END, 'r');
    Separated("region" + (bar + ("+0x" + offset)), ",", WriteRest(value), UPLOAD_END);
    RegionHas(bar, offset);
  }

  lemma RestHas(value: string)
    requires All(HexDigit, value)
    ensures Contains(WriteRest(value), UPLOAD_WORD) <==> "30000890" <= value
  {
    MarkerSeparators(" ", UPLOAD_WORD); MarkerSeparators(",", UPLOAD_WORD);
    TooShort("", UPLOAD_WORD);
    TooShort(" 4)\n", UPLOAD_WORD);
    var rest := "0x" + (value + ("," + " 4)\n"));
    assert WriteRest(value) == "" + (" " + rest) && rest == ("0x" + value) + ("," + " 4)\n");
    Separated("", " ", rest, UPLOAD_WORD);
    Separated("0x" + value, ",", " 4)\n", UPLOAD_WORD);
    WordHas(value);
  }

  lemma WordIff(name: string, bar: string, offset: string, value: string)
    requires IsAccess(bar, offset, value)
    ensures Contains(AccessText(WRITE_WORD, name, bar, offset, WRITE_MID, value, WRITE_TAIL), UPLOAD_WORD)
       <==> Contains(name, UPLOAD_WORD) || "30000890" <= offset || "30000890" <= value
  {
    var args := Args(bar, offset, WRITE_MID, value, WRITE_TAIL);
    LineArgs(WRITE_WORD, name, bar, offset, WRITE_MID, value, WRITE_TAIL);
    MarkerSeparators("  (", UPLOAD_WORD); MarkerSeparators(":", UPLOAD_WORD); MarkerSeparators(",", UPLOAD_WORD);
    Missing(WRITE_WORD, UPLOAD_WORD, 'x');
    Separated(WRITE_WORD, "  (", name + (":" + args), UPLOAD_WORD);
    Separated(name, ":", args, UPLOAD_WORD);
    WriteArgs(bar, offset, value);
    TooShort("+", UPLOAD_WORD);
    Missing("region" + bar, UPLOAD_WORD, 'x');
    Separated("region" + bar, "+", ("0x" + offset) + ("," + WriteRest(value)), UPLOAD_WORD);
    Separated("0x" + offset, ",", WriteRest(value), UPLOAD_WORD);
    WordHas(offset);
    RestHas(value);
  }

  /** The marker is a write to BAR0 with the last offset and the last word of the upload; the test
      compares their digits from the left only, and also finds the word in a device name. */
  lemma MarkerIff(name: string, bar: string, offset: string, value: string)
    requires !Contains(name, "region") && IsAccess(bar, offset, value)
    ensures IsMarker(AccessText(WRITE_WORD, name, bar, offset, WRITE_MID, value, WRITE_TAIL))
       <==> bar == "0" && "b44" <= offset && (Contains(name, UPLOAD_WORD) || "30000890" <= value)
  {
    WriteHasWord("  (" + (name + (":region" + (bar + ("+0x" + (offset + (WRITE_MID + (value + WRITE_TAIL))))))));
    EndIff(name, bar, offset, value);
    WordIff(name, bar, offset, value);
    assert "b44" <= offset ==> offset[0] == 'b';
    assert "30000890" <= offset ==> offset[0] == '3';
  }
}
