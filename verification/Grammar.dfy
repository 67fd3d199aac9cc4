/** Exactly which lines of golden text are calls. */
module Grammar {
  import opened Pal
  import opened Regex
  import opened Golden
  import opened RoundTrip

  // ---- the characters, spelled out --------------------------------------------------------------

  /** What \s matches in ASCII text. */
  predicate Blank(s: string) {
    forall i :: 0 <= i < |s| ==>
      s[i] == ' ' || s[i] == '\t' || s[i] == '\n' || s[i] == '\r' || s[i] as int in {0x0B, 0x0C, 0x1C, 0x1D, 0x1E, 0x1F}
  }

  predicate Decimal(s: string) {
    s != "" && forall i :: 0 <= i < |s| ==> s[i] in "0123456789"
  }

  predicate Hexadecimal(s: string) {
    s != "" && forall i :: 0 <= i < |s| ==> s[i] in "0123456789abcdefABCDEF"
  }

  lemma BlankIsSpace(s: string)
    ensures Blank(s) <==> All(Space, s)
  {
    forall i | 0 <= i < |s| && In(Space, s[i])
      ensures s[i] == ' ' || s[i] == '\t' || s[i] == '\n' || s[i] == '\r'
           || s[i] as int in {0x0B, 0x0C, 0x1C, 0x1D, 0x1E, 0x1F}
    {
      assert s[i] as int == ' ' as int ==> s[i] == ' ';
      assert s[i] as int == 9 ==> s[i] == '\t';
      assert s[i] as int == 10 ==> s[i] == '\n';
      assert s[i] as int == 13 ==> s[i] == '\r';
    }
  }

  lemma DecimalIsDigits(s: string)
    ensures Decimal(s) <==> IsDigits(Digit, s)
  {
    forall i | 0 <= i < |s| ensures In(Digit, s[i]) <==> s[i] in "0123456789" { DigitChars(s[i]); }
  }

  lemma HexadecimalIsDigits(s: string)
    ensures Hexadecimal(s) <==> IsDigits(HexDigit, s)
  {
    forall i | 0 <= i < |s| ensures In(HexDigit, s[i]) <==> s[i] in "0123456789abcdefABCDEF" { HexChars(s[i]); }
  }

  lemma DigitChars(ch: char)
    ensures In(Digit, ch) <==> ch in "0123456789"
  {
    if In(Digit, ch) { assert "0123456789"[ch as int - '0' as int] == ch; }
  }

  lemma HexChars(ch: char)
    ensures In(HexDigit, ch) <==> ch in "0123456789abcdefABCDEF"
  {
    var all := "0123456789abcdefABCDEF";
    if '0' <= ch <= '9' {
      assert all[ch as int - '0' as int] == ch;
    } else if 'a' <= ch <= 'f' {
      assert all[10 + ch as int - 'a' as int] == ch;
    } else if 'A' <= ch <= 'F' {
      assert all[16 + ch as int - 'A' as int] == ch;
    }
  }

  /** The value of a digit, in either case. */
  lemma DigitValues(d: nat)
    requires d < 16
    ensures DigitValue("0123456789abcdef"[d]) == d && DigitValue("0123456789ABCDEF"[d]) == d
  {
  }

  // ---- the calls --------------------------------------------------------------------------------------

  /** A call: blanks of any kind between its tokens, digits in either case, and any text after it. */
  datatype Call = Call(g0: string, g1: string, g2: string, g3: string, g4: string, g5: string, g6: string,
                       g7: string, g8: string, g9: string, bar: string, offset: string, value: string, tail: string)

  predicate IsCall(c: Call) {
    && Blank(c.g0) && Blank(c.g1) && Blank(c.g2) && Blank(c.g3) && Blank(c.g4) && Blank(c.g5) && Blank(c.g6)
    && Blank(c.g7) && Blank(c.g8) && Blank(c.g9)
    && Decimal(c.bar) && Hexadecimal(c.offset) && Hexadecimal(c.value)
  }

  function CallText(c: Call): string {
    c.g0 + ("write_reg" + (c.g1 + ("(" + (c.g2 + ("fd" + FdText(c))))))
  }

  function FdText(c: Call): string {
    c.g3 + ("," + (c.g4 + (c.bar + (c.g5 + ("," + (c.g6 + ("0x" + (c.offset + OffsetText(c)))))))))
  }

  function OffsetText(c: Call): string {
    c.g7 + ("," + (c.g8 + ("0x" + (c.value + (c.g9 + (")" + c.tail))))))
  }

  /** The line is this call, to these numbers. */
  predicate Spells(c: Call, line: string, w: RegWrite) {
    && IsCall(c) && line == CallText(c)
    && w == RegWrite(Number(10, c.bar), Number(16, c.offset), Number(16, c.value))
  }

  // ---- a call is in the language ------------------------------------------------------------------------

  lemma SpellHex(g: string, h: string, after: Pattern, digits: string, tail: string, groups: seq<string>)
    requires Blank(g) && Blank(h) && Hexadecimal(digits) && Denotes(after, tail, groups)
    ensures Denotes(Run(Space, 0, false, Lit(",", Run(Space, 0, false, Lit("0x", Run(HexDigit, 1, true, after))))),
                    g + ("," + (h + ("0x" + (digits + tail)))), [digits] + groups)
  {
    BlankIsSpace(g);
    BlankIsSpace(h);
    HexadecimalIsDigits(digits);
    var p := Run(HexDigit, 1, true, after);
    SpellRun(HexDigit, 1, true, after, digits, tail, groups);
    SpellToken(h, "0x", p, digits + tail, [digits] + groups);
    SpellToken(g, ",", Run(Space, 0, false, Lit("0x", p)), h + ("0x" + (digits + tail)), [digits] + groups);
  }

  lemma SpellBarAt(g: string, h: string, digits: string, tail: string, groups: seq<string>)
    requires Blank(g) && Blank(h) && Decimal(digits) && Denotes(AFTER_BAR, tail, groups)
    ensures Denotes(AFTER_FD, g + ("," + (h + (digits + tail))), [digits] + groups)
  {
    BlankIsSpace(g);
    BlankIsSpace(h);
    DecimalIsDigits(digits);
    var p := Run(Digit, 1, true, AFTER_BAR);
    SpellRun(Digit, 1, true, AFTER_BAR, digits, tail, groups);
    SpellRun(Space, 0, false, p, h, digits + tail, [digits] + groups);
    SpellToken(g, ",", Run(Space, 0, false, p), h + (digits + tail), [digits] + groups);
  }

  lemma SpellOpen(g0: string, g1: string, g2: string, tail: string, groups: seq<string>)
    requires Blank(g0) && Blank(g1) && Blank(g2) && Denotes(AFTER_FD, tail, groups)
    ensures Denotes(WRITE_REG, g0 + ("write_reg" + (g1 + ("(" + (g2 + ("fd" + tail))))), groups)
  {
    BlankIsSpace(g0);
    BlankIsSpace(g1);
    BlankIsSpace(g2);
    SpellToken(g2, "fd", AFTER_FD, tail, groups);
    SpellToken(g1, "(", FD_PART, g2 + ("fd" + tail), groups);
    WriteRegParts();
    SpellToken(g0, "write_reg", PAREN_PART, g1 + ("(" + (g2 + ("fd" + tail))), groups);
  }

  lemma CallDenotes(c: Call)
    requires IsCall(c)
    ensures Denotes(WRITE_REG, CallText(c), [c.bar, c.offset, c.value])
  {
    BlankIsSpace(c.g9);
    SpellToken(c.g9, ")", End, c.tail, []);
    SpellHex(c.g7, c.g8, AFTER_VALUE, c.value, c.g9 + (")" + c.tail), []);
    SpellHex(c.g5, c.g6, AFTER_OFFSET, c.offset, OffsetText(c), [c.value] + []);
    SpellBarAt(c.g3, c.g4, c.bar, c.g5 + ("," + (c.g6 + ("0x" + (c.offset + OffsetText(c))))),
               [c.offset] + ([c.value] + []));
    SpellOpen(c.g0, c.g1, c.g2, FdText(c), [c.bar] + ([c.offset] + ([c.value] + [])));
    assert [c.bar] + ([c.offset] + ([c.value] + [])) == [c.bar, c.offset, c.value];
  }

  // ---- and the language has only calls -----------------------------------------------------------------------

  lemma GapOf(rest: Pattern, s: string, groups: seq<string>) returns (gap: string, tail: string)
    requires Denotes(Run(Space, 0, false, rest), s, groups)
    ensures s == gap + tail && Blank(gap) && Denotes(rest, tail, groups)
  {
    var k: nat :| RunOf(Run(Space, 0, false, rest), s, groups, k);
    gap, tail := s[..k], s[k..];
    BlankIsSpace(gap);
  }

  lemma LiteralOf(text: string, rest: Pattern, s: string, groups: seq<string>) returns (tail: string)
    requires Denotes(Lit(text, rest), s, groups)
    ensures s == text + tail && Denotes(rest, tail, groups)
  {
    tail := s[|text|..];
  }

  lemma TokenOf(text: string, rest: Pattern, s: string, groups: seq<string>) returns (gap: string, tail: string)
    requires Denotes(Run(Space, 0, false, Lit(text, rest)), s, groups)
    ensures s == gap + (text + tail) && Blank(gap) && Denotes(rest, tail, groups)
  {
    var t;
    gap, t := GapOf(Lit(text, rest), s, groups);
    tail := LiteralOf(text, rest, t, groups);
  }

  lemma DigitsAt(cls: Class, rest: Pattern, s: string, groups: seq<string>) returns (tail: string)
    requires Denotes(Run(cls, 1, true, rest), s, groups)
    ensures groups != [] && IsDigits(cls, groups[0]) && s == groups[0] + tail && Denotes(rest, tail, groups[1..])
  {
    var k: nat :| RunOf(Run(cls, 1, true, rest), s, groups, k);
    tail := s[k..];
    assert s == s[..k] + s[k..];
  }

  lemma HexOf(after: Pattern, s: string, groups: seq<string>) returns (g: string, h: string, tail: string)
    requires Denotes(Run(Space, 0, false, Lit(",", Run(Space, 0, false, Lit("0x", Run(HexDigit, 1, true, after))))),
                     s, groups)
    ensures Blank(g) && Blank(h) && groups != [] && Hexadecimal(groups[0]) && Denotes(after, tail, groups[1..])
    ensures s == g + ("," + (h + ("0x" + (groups[0] + tail))))
  {
    var p := Run(HexDigit, 1, true, after);
    var t, u;
    g, t := TokenOf(",", Run(Space, 0, false, Lit("0x", p)), s, groups);
    h, u := TokenOf("0x", p, t, groups);
    tail := DigitsAt(HexDigit, after, u, groups);
    HexadecimalIsDigits(groups[0]);
  }

  lemma DecimalOf(after: Pattern, s: string, groups: seq<string>) returns (g: string, h: string, tail: string)
    requires Denotes(Run(Space, 0, false, Lit(",", Run(Space, 0, false, Run(Digit, 1, true, after)))), s, groups)
    ensures Blank(g) && Blank(h) && groups != [] && Decimal(groups[0]) && Denotes(after, tail, groups[1..])
    ensures s == g + ("," + (h + (groups[0] + tail)))
  {
    var p := Run(Digit, 1, true, after);
    var t, u;
    g, t := TokenOf(",", Run(Space, 0, false, p), s, groups);
    h, u := GapOf(p, t, groups);
    tail := DigitsAt(Digit, after, u, groups);
    DecimalIsDigits(groups[0]);
  }

  // From the end of the pattern to its front.

  lemma ValueTail(s: string, groups: seq<string>) returns (g: string, tail: string)
    requires Denotes(AFTER_VALUE, s, groups)
    ensures s == g + (")" + tail) && Blank(g) && groups == []
  {
    g, tail := TokenOf(")", End, s, groups);
  }

  lemma OffsetTail(s: string, groups: seq<string>) returns (g7: string, g8: string, g9: string, tail: string)
    requires Denotes(AFTER_OFFSET, s, groups)
    ensures Blank(g7) && Blank(g8) && Blank(g9) && |groups| == 1 && Hexadecimal(groups[0])
    ensures s == g7 + ("," + (g8 + ("0x" + (groups[0] + (g9 + (")" + tail))))))
  {
    var t;
    g7, g8, t := HexOf(AFTER_VALUE, s, groups);
    g9, tail := ValueTail(t, groups[1..]);
  }

  lemma BarTail(s: string, groups: seq<string>) returns (g5: string, g6: string, t: string)
    requires Denotes(AFTER_BAR, s, groups)
    ensures Blank(g5) && Blank(g6) && groups != [] && Hexadecimal(groups[0]) && Denotes(AFTER_OFFSET, t, groups[1..])
    ensures s == g5 + ("," + (g6 + ("0x" + (groups[0] + t))))
  {
    g5, g6, t := HexOf(AFTER_OFFSET, s, groups);
  }

  lemma FdTail(s: string, groups: seq<string>) returns (g3: string, g4: string, t: string)
    requires Denotes(AFTER_FD, s, groups)
    ensures Blank(g3) && Blank(g4) && groups != [] && Decimal(groups[0]) && Denotes(AFTER_BAR, t, groups[1..])
    ensures s == g3 + ("," + (g4 + (groups[0] + t)))
  {
    g3, g4, t := DecimalOf(AFTER_BAR, s, groups);
  }

  lemma Head(line: string, groups: seq<string>) returns (g0: string, g1: string, g2: string, t: string)
    requires Denotes(WRITE_REG, line, groups)
    ensures Blank(g0) && Blank(g1) && Blank(g2) && Denotes(AFTER_FD, t, groups)
    ensures line == g0 + ("write_reg" + (g1 + ("(" + (g2 + ("fd" + t)))))
  {
    WriteRegParts();
    var t0, t1;
    g0, t0 := TokenOf("write_reg", PAREN_PART, line, groups);
    g1, t1 := TokenOf("(", FD_PART, t0, groups);
    g2, t := TokenOf("fd", AFTER_FD, t1, groups);
  }

  lemma ThreeGroups(groups: seq<string>)
    requires groups != [] && groups[1..] != [] && |groups[1..][1..]| == 1
    ensures groups == [groups[0], groups[1..][0], groups[1..][1..][0]]
  {
  }

  lemma FdIsCall(s: string, groups: seq<string>, g0: string, g1: string, g2: string) returns (c: Call)
    requires Denotes(AFTER_FD, s, groups) && Blank(g0) && Blank(g1) && Blank(g2)
    ensures IsCall(c) && s == FdText(c) && c.g0 == g0 && c.g1 == g1 && c.g2 == g2
    ensures groups == [c.bar, c.offset, c.value]
  {
    var g3, g4, t3 := FdTail(s, groups);
    var g5, g6, t4 := BarTail(t3, groups[1..]);
    var g7, g8, g9, tail := OffsetTail(t4, groups[1..][1..]);
    ThreeGroups(groups);
    c := Call(g0, g1, g2, g3, g4, g5, g6, g7, g8, g9,
              groups[0], groups[1..][0], groups[1..][1..][0], tail);
  }

  lemma DenotedIsCall(line: string, groups: seq<string>) returns (c: Call)
    requires Denotes(WRITE_REG, line, groups)
    ensures IsCall(c) && line == CallText(c) && groups == [c.bar, c.offset, c.value]
  {
    var g0, g1, g2, t := Head(line, groups);
    c := FdIsCall(t, groups, g0, g1, g2);
  }

  /** A line parses to a write iff it begins with a call to these numbers, however it is spaced and
      whatever case its digits have. */
  lemma ParsesIff(line: string, w: RegWrite)
    ensures ParseLine(line) == Some(w) <==> exists c :: Spells(c, line, w)
  {
    if c :| Spells(c, line, w) {
      CallDenotes(c);
      WriteRegDeterministic();
      MatchComplete(WRITE_REG, line, [c.bar, c.offset, c.value]);
    }
    if ParseLine(line) == Some(w) {
      MatchSound(WRITE_REG, line);
      var c := DenotedIsCall(line, Match(WRITE_REG, line).value);
      assert Spells(c, line, w);
    }
  }
}
