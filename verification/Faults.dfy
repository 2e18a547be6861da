/** What is wrong with a name that is no literal, and examples of what literals read. */
module Faults {
  import opened Basics
  import opened Numerals
  import opened Lexer
  import opened NameValues
  import opened Escapes
  import opened Spellings

  // ----- faults

  datatype Fault =
    | LineEnds                                // a newline
    | NoEscape                                // a backslash with nothing after it on its line
    | Unlisted(c: char)                       // a backslash and a character that is not in the standard
    | NoDigit                                 // \x without a digit
    | LargeOctal(digits: string)              // a number beyond 255, whose value is up to the implementation
    | LargeHex(digits: string)
    | ShortName(digits: string, long: bool)   // \u or \U with too few digits
    | NoCharacter(digits: string)             // \u or \U with the number of no character

  predicate IsFault(f: Fault) {
    match f
    case Unlisted(c) => c != '"' && c != '\n' && c !in SIMPLE && !IsOctalDigit(c) && c != 'x' && c != 'u' && c != 'U'
    case LargeOctal(d) => 1 <= |d| <= 3 && AllOctal(d) && AllHex(d) && NumberOf(d, 8) >= 256
    case LargeHex(d) => d != "" && AllHex(d) && NumberOf(d, 16) >= 256
    case ShortName(d, long) => AllHex(d) && |d| < (if long then 8 else 4)
    case NoCharacter(d) => (|d| == 4 || |d| == 8) && AllHex(d) && !IsCharacter(NumberOf(d, 16))
    case _ => true
  }

  function FaultText(f: Fault): string {
    match f
    case LineEnds => "\n"
    case NoEscape => "\\"
    case Unlisted(c) => ['\\', c]
    case NoDigit => "\\x"
    case LargeOctal(d) => "\\" + d
    case LargeHex(d) => "\\x" + d
    case ShortName(d, long) => (if long then "\\U" else "\\u") + d
    case NoCharacter(d) => (if |d| == 4 then "\\u" else "\\U") + d
  }

  /** The character after the fault, if there is one, does not make it something else. */
  predicate MayFollow(f: Fault, c: char) {
    match f
    case NoEscape => c == '\n'
    case NoDigit => !IsHexDigit(c)
    case LargeOctal(d) => |d| == 3 || !IsOctalDigit(c)
    case LargeHex(_) => !IsHexDigit(c)
    case ShortName(_, _) => !IsHexDigit(c)
    case _ => true
  }

  /** The name starts with elements, a fault comes next, and then anything. */
  predicate FaultyAt(s: string, es: Elements, f: Fault, rest: string) {
    IsLiteral(es) && IsFault(f) && s == SpellingOf(es) + FaultText(f) + rest && (rest != "" ==> MayFollow(f, rest[0]))
  }

  predicate LeftToImplementation(f: Fault) { f.Unlisted? || f.LargeOctal? || f.LargeHex? }

  function VerdictOf(f: Fault): Verdict<string> { if LeftToImplementation(f) then NotModelled else IllFormed }

  // ----- a fault decides

  /** The mode the lexer is in after the text of a fault that follows `v`. */
  function ModeAtFault(v: string, f: Fault): Mode
    requires IsFault(f)
  {
    match f
    case LineEnds => Broken
    case NoEscape => Escape(v)
    case Unlisted(_) => Unknown
    case NoDigit => HexStart(v)
    case LargeOctal(d) => Octal(v, NumberOf(d, 8), |d|)
    case LargeHex(d) => Hex(v, NumberOf(d, 16))
    case ShortName(d, long) => Ucn(v, NumberOf(d, 16), |d|, long)
    case NoCharacter(_) => Broken
  }

  lemma {:induction false} RunLarge(m: Mode, f: Fault)
    requires IsFault(f) && (f.LargeOctal? || f.LargeHex?) && Between(m, '\\')
    ensures InLiteral(m, FaultText(f)) == ModeAtFault(ReadSoFar(m), f)
  {
    if f.LargeHex? {
      InLiteralAppend(m, "\\x", f.digits);
      EscapeStarts(m, 'x');
      HexDigits(ReadSoFar(m), f.digits);
    } else {
      InLiteralAppend(m, "\\", f.digits);
      InLiteral1(m, '\\');
      OctalDigits(ReadSoFar(m), f.digits);
    }
  }

  lemma {:induction false} RunNameStart(m: Mode, d: string, long: bool)
    requires Between(m, '\\')
    ensures InLiteral(m, (if long then "\\U" else "\\u") + d) == InLiteral(Ucn(ReadSoFar(m), 0, 0, long), d)
  {
    InLiteralAppend(m, if long then "\\U" else "\\u", d);
    EscapeStarts(m, if long then 'U' else 'u');
  }

  lemma {:induction false} RunFault(m: Mode, f: Fault)
    requires IsFault(f) && Between(m, FaultText(f)[0])
    ensures InLiteral(m, FaultText(f)) == ModeAtFault(ReadSoFar(m), f)
  {
    match f
    case LineEnds => InLiteral1(m, '\n');
    case NoEscape => InLiteral1(m, '\\');
    case Unlisted(c) => SimpleIsListed(c); EscapeStarts(m, c);
    case NoDigit => EscapeStarts(m, 'x');
    case ShortName(d, long) => RunNameStart(m, d, long); UniversalDigits(ReadSoFar(m), d, long);
    case NoCharacter(d) => RunNameStart(m, d, |d| == 8); UniversalEnds(ReadSoFar(m), d, |d| == 8);
    case _ => RunLarge(m, f);
  }

  lemma {:induction false} FaultSticks(v: string, f: Fault, c: char)
    requires IsFault(f) && MayFollow(f, c) && c != '"'
    ensures Step(State(ModeAtFault(v, f), [], Code), c).mode == if LeftToImplementation(f) then Unknown else Broken
  {
  }

  lemma {:induction false} FaultThenRest(v: string, f: Fault, rest: string)
    requires IsFault(f) && '"' !in rest && (rest != "" ==> MayFollow(f, rest[0]))
    ensures var m := InLiteral(ModeAtFault(v, f), rest);
      !Between(m, '"') && (m.Unknown? || m.Hex? || m.Octal? <==> LeftToImplementation(f))
  {
    if rest != "" {
      FaultSticks(v, f, rest[0]);
      StuckInLiteral(Step(State(ModeAtFault(v, f), [], Code), rest[0]).mode, rest[1..]);
    }
  }

  lemma {:induction false} FaultFollows(es: Elements, f: Fault)
    ensures es.Added? ==> CanFollow(es.last, FaultText(f)[0])
  {
    assert FaultText(f)[0] == '\\' || FaultText(f)[0] == '\n';
  }

  /** Whatever comes after it, the first fault decides. */
  lemma {:induction false} FaultDecides(s: string, es: Elements, f: Fault, rest: string)
    requires '"' !in s && FaultyAt(s, es, f, rest)
    ensures NameVerdict(s) == VerdictOf(f)
  {
    InLiteralAppend(InStr(""), SpellingOf(es) + FaultText(f), rest);
    InLiteralAppend(InStr(""), SpellingOf(es), FaultText(f));
    RunElements(es);
    FaultFollows(es, f);
    ModeReads(es, FaultText(f)[0]);
    RunFault(ModeOf(es), f);
    FaultThenRest(ReadingOf(es), f, rest);
  }

  // ----- every name is a literal or has a fault

  /** The fault stays one, whatever comes next. */
  predicate Decided(f: Fault, rest: string) { rest != "" || f.LineEnds? || f.Unlisted? || f.NoCharacter? }

  lemma {:induction false} FaultInEscape(es: Elements, m: Mode, s: string, c: char) returns (f: Fault, rest: string)
    requires Spells(es, "", m, s) && m.Escape? && c != '"' && Stuck(Continue(m, c))
    ensures FaultyAt(s + [c], es, f, rest) && Decided(f, rest)
  {
    SimpleIsListed(c);
    if c == '\n' {
      f, rest := NoEscape, [c];
    } else {
      f, rest := Unlisted(c), "";
      assert s + [c] == SpellingOf(es) + ['\\', c] + "";
    }
  }

  lemma {:induction false} FaultInName(es: Elements, d: string, m: Mode, s: string, c: char) returns (f: Fault, rest: string)
    requires Spells(es, d, m, s) && m.Ucn? && Stuck(Continue(m, c))
    ensures FaultyAt(s + [c], es, f, rest) && Decided(f, rest)
  {
    if IsHexDigit(c) {
      f, rest := NoCharacter(d + [c]), "";
      NumberSnoc(d, c, 16);
      OneMoreDigit(SpellingOf(es), if m.long then "\\U" else "\\u", d, c);
      assert s + [c] + "" == s + [c];
    } else {
      f, rest := ShortName(d, m.long), [c];
    }
  }

  lemma {:induction false} FaultNow(es: Elements, d: string, m: Mode, s: string, c: char)
    returns (es': Elements, f: Fault, rest: string)
    requires Spells(es, d, m, s) && c != '"' && Stuck(Step(State(m, [], Code), c).mode)
    ensures FaultyAt(s + [c], es', f, rest) && Decided(f, rest)
  {
    es' := es;
    if Between(m, c) {
      es' := Complete(es, d, m, s, c);
      f, rest := LineEnds, "";
      assert s + [c] == SpellingOf(es') + "\n" + "";
    } else if m.Escape? {
      f, rest := FaultInEscape(es, m, s, c);
    } else if m.Ucn? {
      f, rest := FaultInName(es, d, m, s, c);
    } else if m.HexStart? {
      f, rest := NoDigit, [c];
    } else {
      f, rest := if m.Hex? then LargeHex(d) else LargeOctal(d), [c];
    }
  }

  lemma {:induction false} FaultStays(s: string, es: Elements, f: Fault, rest: string, c: char)
    requires FaultyAt(s, es, f, rest) && Decided(f, rest)
    ensures FaultyAt(s + [c], es, f, rest + [c]) && Decided(f, rest + [c])
  {
    assert s + [c] == SpellingOf(es) + FaultText(f) + (rest + [c]);
  }

  lemma {:induction false} StuckHasFault(s: string) returns (es: Elements, f: Fault, rest: string)
    requires '"' !in s && Stuck(InLiteral(InStr(""), s))
    ensures FaultyAt(s, es, f, rest) && Decided(f, rest)
    decreases |s|
  {
    var n := |s| - 1;
    var t, c := s[..n], s[n];
    assert s == t + [c];
    InLiteralSnoc(InStr(""), t, c);
    if Stuck(InLiteral(InStr(""), t)) {
      es, f, rest := StuckHasFault(t);
      FaultStays(t, es, f, rest, c);
      rest := rest + [c];
    } else {
      var es0, d := EverythingIsSpelled(t);
      es, f, rest := FaultNow(es0, d, InLiteral(InStr(""), t), t, c);
    }
  }

  lemma {:induction false} UnfinishedHasFault(s: string, es: Elements, d: string, m: Mode) returns (f: Fault)
    requires Spells(es, d, m, s) && !Between(m, '"')
    ensures FaultyAt(s, es, f, "")
  {
    f := match m
      case Escape(_) => NoEscape
      case HexStart(_) => NoDigit
      case Hex(_, _) => LargeHex(d)
      case Octal(_, _, _) => LargeOctal(d)
      case Ucn(_, _, _, long) => ShortName(d, long)
      case _ => LineEnds;
    assert s + "" == s;
  }

  /** The name has a fault of that kind. */
  ghost predicate HasFault(s: string, left: bool) {
    exists es: Elements, f: Fault, rest: string :: FaultyAt(s, es, f, rest) && LeftToImplementation(f) == left
  }

  lemma {:induction false} RefusedHasFault(s: string) returns (f: Fault)
    requires '"' !in s && !NameVerdict(s).Accepted?
    ensures exists es: Elements, rest: string :: FaultyAt(s, es, f, rest)
    ensures NameVerdict(s) == VerdictOf(f)
  {
    var m := InLiteral(InStr(""), s);
    if Stuck(m) {
      var es, f', rest := StuckHasFault(s);
      f := f';
      FaultDecides(s, es, f, rest);
    } else {
      var es, d := EverythingIsSpelled(s);
      f := UnfinishedHasFault(s, es, d, m);
      FaultDecides(s, es, f, "");
    }
  }

  /**
   * Every name without quotes, with the three verdicts told apart by its text: elements of
   * the standard, a fault that C++ leaves to the implementation, or one that it does not allow.
   */
  lemma {:induction false} VerdictIsBySpelling(s: string)
    requires '"' !in s
    ensures forall v: string :: NameVerdict(s) == Accepted(v) <==> IsSpelled(s, v)
    ensures NameVerdict(s) == NotModelled <==> HasFault(s, true)
    ensures NameVerdict(s) == IllFormed <==> HasFault(s, false)
  {
    forall v: string ensures NameVerdict(s) == Accepted(v) <==> IsSpelled(s, v) {
      ReadsIffSpelled(s, v);
    }
    if !NameVerdict(s).Accepted? {
      var f := RefusedHasFault(s);
    }
    forall es: Elements, f: Fault, rest: string | FaultyAt(s, es, f, rest) ensures NameVerdict(s) == VerdictOf(f) {
      FaultDecides(s, es, f, rest);
    }
  }

  // ----- examples, for all plain text around them

  lemma {:induction false} PlainElements(a: string) returns (es: Elements)
    requires Plain(a)
    ensures IsLiteral(es) && SpellingOf(es) == a && ReadingOf(es) == a && Settled(es)
    decreases |a|
  {
    if a == "" {
      es := Empty;
    } else {
      var n := |a| - 1;
      var es0 := PlainElements(a[..n]);
      LiteralSnoc(es0, Character(a[n]));
      assert a == a[..n] + [a[n]];
      es := Added(es0, Character(a[n]));
    }
  }

  lemma {:induction false} ElementReads(a: string, e: Element)
    requires Plain(a) && WellFormed(e)
    ensures Closes(a + Spelling(e)) && Value(a + Spelling(e)) == a + Reads(e)
  {
    var es := PlainElements(a);
    assert es.Added? ==> CanFollow(es.last, Spelling(e)[0]);
    LiteralSnoc(es, e);
    LiteralReads(Added(es, e));
  }

  /** The letters that may follow a backslash, by the numbers of the characters they stand for. */
  lemma {:induction false} LettersRead(a: string)
    requires Plain(a)
    ensures Value(a + "\\n") == a + [10 as char] && Value(a + "\\t") == a + [9 as char]
    ensures Value(a + "\\v") == a + [11 as char] && Value(a + "\\b") == a + [8 as char]
    ensures Value(a + "\\r") == a + [13 as char] && Value(a + "\\f") == a + [12 as char]
    ensures Value(a + "\\a") == a + [7 as char] && Value(a + "\\\\") == a + "\\"
  {
    ElementReads(a, Simple('n'));
    ElementReads(a, Simple('t'));
    ElementReads(a, Simple('v'));
    ElementReads(a, Simple('b'));
    ElementReads(a, Simple('r'));
    ElementReads(a, Simple('f'));
    ElementReads(a, Simple('a'));
    ElementReads(a, Simple('\\'));
  }

  /** One to three octal digits are a number in base 8. */
  lemma {:induction false} OctalReads(a: string, d: string)
    requires Plain(a) && WellFormed(OctalNumber(d))
    ensures Value(a + ("\\" + d)) == a + [NumberOf(d, 8) as char]
  {
    ElementReads(a, OctalNumber(d));
  }
}
