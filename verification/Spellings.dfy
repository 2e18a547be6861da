/** Which names are literals as they stand, and what their characters read: no other elements than those of the standard. */
module Spellings {
  import opened Basics
  import opened Numerals
  import opened Lexer
  import opened NameValues
  import opened Escapes

  // ----- every literal is a row of elements

  /** No digits can be added to the last element. */
  predicate Settled(es: Elements) { es.Added? ==> !es.last.OctalNumber? && !es.last.HexNumber? }

  /** What has been read of the element under way. */
  function Begun(m: Mode, d: string): string {
    match m
    case Escape(_) => "\\"
    case HexStart(_) => "\\x"
    case Hex(_, _) => "\\x" + d
    case Octal(_, _, _) => "\\" + d
    case Ucn(_, _, _, long) => (if long then "\\U" else "\\u") + d
    case _ => ""
  }

  /** The digits of the element under way are `d`. */
  predicate HasDigits(m: Mode, d: string) {
    AllHex(d) &&
    match m
    case Hex(_, code) => d != "" && code == NumberOf(d, 16)
    case Octal(_, code, count) => 1 <= |d| == count <= 3 && AllOctal(d) && code == NumberOf(d, 8)
    case Ucn(_, code, count, long) => |d| == count < (if long then 8 else 4) && code == NumberOf(d, 16)
    case _ => d == ""
  }

  /** What the literal under way read before its last element. */
  function ReadBefore(m: Mode): string {
    match m
    case InStr(v) => v
    case Escape(v) => v
    case HexStart(v) => v
    case Hex(v, _) => v
    case Octal(v, _, _) => v
    case Ucn(v, _, _, _) => v
    case _ => ""
  }

  /** The text `s` is the elements `es` and the start of one more, and the lexer knows it. */
  predicate Spells(es: Elements, d: string, m: Mode, s: string) {
    && IsLiteral(es) && IsLiteralMode(m) && !Stuck(m) && HasDigits(m, d)
    && s == SpellingOf(es) + Begun(m, d) && ReadBefore(m) == ReadingOf(es) && (m.InStr? ==> Settled(es))
  }

  lemma {:induction false} NumberEnds(es: Elements, d: string, m: Mode, c: char) returns (e: Element)
    requires (m.Hex? || m.Octal?) && HasDigits(m, d) && Between(m, c)
    ensures WellFormed(e) && Spelling(e) == Begun(m, d) && Spelling(e)[0] == '\\' && CanFollow(e, c)
    ensures ReadBefore(m) + Reads(e) == ReadSoFar(m)
  {
    e := if m.Hex? then HexNumber(d) else OctalNumber(d);
  }

  /** The element under way, when a quote or another element may follow. */
  lemma {:induction false} Complete(es: Elements, d: string, m: Mode, s: string, c: char) returns (es': Elements)
    requires Spells(es, d, m, s) && Between(m, c)
    ensures IsLiteral(es') && SpellingOf(es') == s && ReadingOf(es') == ReadSoFar(m)
    ensures es'.Added? ==> CanFollow(es'.last, c)
  {
    if m.InStr? {
      es' := es;
      assert s == SpellingOf(es) + "";
    } else {
      var e := NumberEnds(es, d, m, c);
      EscapeFollows(es);
      LiteralSnoc(es, e);
      es' := Added(es, e);
    }
  }

  lemma OneMoreDigit(a: string, b: string, d: string, c: char)
    ensures a + (b + d) + [c] == a + (b + (d + [c]))
  {
  }

  lemma {:induction false} MoreHex(es: Elements, d: string, m: Mode, s: string, c: char)
    requires Spells(es, d, m, s) && (m.HexStart? || m.Hex?) && IsHexDigit(c)
    ensures Spells(es, d + [c], Continue(m, c), s + [c])
  {
    NumberSnoc(d, c, 16);
    OneMoreDigit(SpellingOf(es), "\\x", d, c);
    assert m.HexStart? ==> "\\x" + d == "\\x";
  }

  lemma {:induction false} OneDigit(c: char, base: nat)
    requires IsHexDigit(c)
    ensures AllHex([c]) && NumberOf([c], base) == HexValue(c)
  {
    assert [c][..0] == "" && NumberOf("", base) == 0;
  }

  lemma {:induction false} FirstOctal(es: Elements, m: Mode, s: string, c: char)
    requires Spells(es, "", m, s) && m.Escape? && IsOctalDigit(c)
    ensures Spells(es, [c], Continue(m, c), s + [c])
  {
    OneDigit(c, 8);
    Assoc(SpellingOf(es), "\\", [c]);
  }

  lemma {:induction false} MoreOctal(es: Elements, d: string, m: Mode, s: string, c: char)
    requires Spells(es, d, m, s) && m.Octal? && m.count < 3 && IsOctalDigit(c)
    ensures Spells(es, d + [c], Continue(m, c), s + [c])
  {
    NumberSnoc(d, c, 8);
    OneMoreDigit(SpellingOf(es), "\\", d, c);
  }

  lemma {:induction false} NewElement(es: Elements, e: Element, s: string, v: string)
    requires IsLiteral(es) && WellFormed(e) && (e.Simple? || e.Universal? || e.Character?)
    requires es.Added? ==> CanFollow(es.last, Spelling(e)[0])
    requires s == SpellingOf(es) + Spelling(e) && v == ReadingOf(es) + Reads(e)
    ensures Spells(Added(es, e), "", InStr(v), s)
  {
    LiteralSnoc(es, e);
    assert s == SpellingOf(Added(es, e)) + "";
  }

  lemma {:induction false} EscapeFollows(es: Elements)
    ensures es.Added? ==> CanFollow(es.last, '\\')
  {
  }

  lemma {:induction false} AfterBackslash(es: Elements, m: Mode, s: string, c: char) returns (es': Elements, d: string)
    requires Spells(es, "", m, s) && m.Escape? && c != '"' && !Stuck(Continue(m, c))
    ensures Spells(es', d, Continue(m, c), s + [c])
  {
    es', d := es, "";
    SimpleIsListed(c);
    if c == 'x' || c == 'u' || c == 'U' {
      assert s + [c] == SpellingOf(es) + ("\\" + [c]);
      assert "\\x" + "" == "\\x" && "\\u" + "" == "\\u" && "\\U" + "" == "\\U";
      assert NumberOf("", 16) == 0;
    } else if IsOctalDigit(c) {
      FirstOctal(es, m, s, c);
      d := [c];
    } else {
      EscapeFollows(es);
      assert s + [c] == SpellingOf(es) + ['\\', c];
      NewElement(es, Simple(c), s + [c], m.value + [SIMPLE[c]]);
      es' := Added(es, Simple(c));
    }
  }

  lemma {:induction false} NameGoesOn(es: Elements, d: string, m: Mode, s: string, c: char)
    requires Spells(es, d, m, s) && m.Ucn? && IsHexDigit(c) && m.count + 1 < (if m.long then 8 else 4)
    ensures Spells(es, d + [c], Continue(m, c), s + [c])
  {
    NumberSnoc(d, c, 16);
    OneMoreDigit(SpellingOf(es), if m.long then "\\U" else "\\u", d, c);
  }

  lemma {:induction false} NameEnds(es: Elements, d: string, m: Mode, s: string, c: char)
    requires Spells(es, d, m, s) && m.Ucn? && IsHexDigit(c) && m.count + 1 == (if m.long then 8 else 4)
    requires !Stuck(Continue(m, c))
    ensures Spells(Added(es, Universal(d + [c])), "", Continue(m, c), s + [c])
  {
    NumberSnoc(d, c, 16);
    OneMoreDigit(SpellingOf(es), if m.long then "\\U" else "\\u", d, c);
    EscapeFollows(es);
    NewElement(es, Universal(d + [c]), s + [c], m.value + Utf8(NumberOf(d + [c], 16)));
  }

  lemma {:induction false} BackslashNext(es: Elements, s: string, v: string)
    requires IsLiteral(es) && SpellingOf(es) == s && ReadingOf(es) == v
    ensures Spells(es, "", Escape(v), s + "\\")
  {
  }

  lemma {:induction false} StepBetween(m: Mode, c: char)
    requires Between(m, c) && c != '"' && c != '\n'
    ensures Step(State(m, [], Code), c).mode == if c == '\\' then Escape(ReadSoFar(m)) else InStr(ReadSoFar(m) + [c])
  {
  }

  /** A character between elements. */
  lemma {:induction false} NextElement(es: Elements, d: string, m: Mode, s: string, c: char) returns (es': Elements)
    requires Spells(es, d, m, s) && Between(m, c) && c != '"' && c != '\n'
    ensures Spells(es', "", Step(State(m, [], Code), c).mode, s + [c])
  {
    var done := Complete(es, d, m, s, c);
    StepBetween(m, c);
    if c == '\\' {
      es' := done;
      BackslashNext(done, s, ReadSoFar(m));
    } else {
      NewElement(done, Character(c), s + [c], ReadSoFar(m) + [c]);
      es' := Added(done, Character(c));
    }
  }

  lemma {:induction false} NextCharacter(es: Elements, d: string, m: Mode, s: string, c: char) returns (es': Elements, d': string)
    requires Spells(es, d, m, s) && c != '"' && !Stuck(Step(State(m, [], Code), c).mode)
    ensures Spells(es', d', Step(State(m, [], Code), c).mode, s + [c])
  {
    if Between(m, c) {
      es' := NextElement(es, d, m, s, c);
      d' := "";
    } else if m.Escape? {
      es', d' := AfterBackslash(es, m, s, c);
    } else if m.Ucn? {
      if m.count + 1 < (if m.long then 8 else 4) {
        NameGoesOn(es, d, m, s, c);
        es', d' := es, d + [c];
      } else {
        NameEnds(es, d, m, s, c);
        es', d' := Added(es, Universal(d + [c])), "";
      }
    } else if m.Octal? {
      MoreOctal(es, d, m, s, c);
      es', d' := es, d + [c];
    } else {
      MoreHex(es, d, m, s, c);
      es', d' := es, d + [c];
    }
  }

  lemma {:induction false} StuckInLiteral(m: Mode, s: string)
    requires Stuck(m)
    ensures InLiteral(m, s) == m
    decreases |s|
  {
    if s != "" {
      StuckInLiteral(m, s[1..]);
    }
  }

  lemma {:induction false} EverythingIsSpelled(s: string) returns (es: Elements, d: string)
    requires '"' !in s && !Stuck(InLiteral(InStr(""), s))
    ensures Spells(es, d, InLiteral(InStr(""), s), s)
    decreases |s|
  {
    if s == "" {
      es, d := Empty, "";
    } else {
      var n := |s| - 1;
      var t, c := s[..n], s[n];
      assert s == t + [c];
      InLiteralSnoc(InStr(""), t, c);
      var m := InLiteral(InStr(""), t);
      if Stuck(m) {
        StuckInLiteral(m, [c]);
        InLiteral1(m, c);
      }
      var es0, d0 := EverythingIsSpelled(t);
      es, d := NextCharacter(es0, d0, m, t, c);
    }
  }

  // ----- the law

  /** Some row of elements is spelled `s` and reads `v`. */
  ghost predicate IsSpelled(s: string, v: string) {
    exists es: Elements :: IsLiteral(es) && SpellingOf(es) == s && ReadingOf(es) == v
  }

  /** A name without quotes reads `v` if and only if elements of the standard spell it and read `v`. */
  lemma {:induction false} ReadsIffSpelled(s: string, v: string)
    requires '"' !in s
    ensures NameVerdict(s) == Accepted(v) <==> IsSpelled(s, v)
  {
    VerdictOfClosing(s);
    if NameVerdict(s) == Accepted(v) {
      var es0, d := EverythingIsSpelled(s);
      var es := Complete(es0, d, InLiteral(InStr(""), s), s, '"');
    }
    if IsSpelled(s, v) {
      var es :| IsLiteral(es) && SpellingOf(es) == s && ReadingOf(es) == v;
      LiteralReads(es);
    }
  }
}
