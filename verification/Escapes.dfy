/**
 * What the characters between two quotes read, by sections 5.3 and 5.13.3 of ISO/IEC
 * 14882:2017: a literal is a row of elements, each with its spelling and its value.
 */
module Escapes {
  import opened Basics
  import opened Numerals
  import opened Lexer

  datatype Element =
    | Character(c: char)
    | Simple(letter: char)              // backslash and a letter of the table
    | OctalNumber(digits: string)       // backslash and one to three digits
    | HexNumber(digits: string)         // \x and digits, as many as there are
    | Universal(digits: string)         // \u and four digits, \U and eight

  /** Elements one after the other. */
  datatype Elements = Empty | Added(front: Elements, last: Element)

  /** The table of simple escape sequences; a double quote cannot stand in a name without quotes. */
  const SIMPLE: map<char, char> :=
    map['n' := 10 as char, 't' := 9 as char, 'v' := 11 as char, 'b' := 8 as char, 'r' := 13 as char,
        'f' := 12 as char, 'a' := 7 as char, '\\' := 92 as char, '?' := 63 as char, '\'' := 39 as char]

  predicate AllHex(d: string) { forall i :: 0 <= i < |d| ==> IsHexDigit(d[i]) }

  predicate AllOctal(d: string) { forall i :: 0 <= i < |d| ==> IsOctalDigit(d[i]) }

  /** The number written with the digits `d`. */
  function NumberOf(d: string, base: nat): nat
    requires AllHex(d)
  {
    if d == "" then 0 else NumberOf(d[..|d| - 1], base) * base + HexValue(d[|d| - 1])
  }

  /** The code points of characters: all up to 10FFFF but the surrogates. */
  predicate IsCharacter(code: nat) { code <= 0x10FFFF && !(0xD800 <= code <= 0xDFFF) }

  predicate WellFormed(e: Element) {
    match e
    case Character(c) => c != '"' && c != '\\' && c != '\n'
    case Simple(l) => l in SIMPLE
    case OctalNumber(d) => 1 <= |d| <= 3 && AllOctal(d) && AllHex(d) && NumberOf(d, 8) < 256
    case HexNumber(d) => d != "" && AllHex(d) && NumberOf(d, 16) < 256
    case Universal(d) => (|d| == 4 || |d| == 8) && AllHex(d) && IsCharacter(NumberOf(d, 16))
  }

  function Spelling(e: Element): string {
    match e
    case Character(c) => [c]
    case Simple(l) => ['\\', l]
    case OctalNumber(d) => "\\" + d
    case HexNumber(d) => "\\x" + d
    case Universal(d) => (if |d| == 4 then "\\u" else "\\U") + d
  }

  function Reads(e: Element): string
    requires WellFormed(e)
  {
    match e
    case Character(c) => [c]
    case Simple(l) => [SIMPLE[l]]
    case OctalNumber(d) => [NumberOf(d, 8) as char]
    case HexNumber(d) => [NumberOf(d, 16) as char]
    case Universal(d) => Utf8(NumberOf(d, 16))
  }

  /** `c` does not go on with the element: digits are taken as long as there are any. */
  predicate CanFollow(e: Element, c: char) {
    match e
    case OctalNumber(d) => |d| == 3 || !IsOctalDigit(c)
    case HexNumber(_) => !IsHexDigit(c)
    case _ => true
  }

  /** Elements one after the other, none of which takes a character of the next. */
  predicate IsLiteral(es: Elements) {
    es.Added? ==>
      WellFormed(es.last) && IsLiteral(es.front) && (es.front.Added? ==> CanFollow(es.front.last, Spelling(es.last)[0]))
  }

  function SpellingOf(es: Elements): string {
    if es.Empty? then "" else SpellingOf(es.front) + Spelling(es.last)
  }

  function ReadingOf(es: Elements): string
    requires IsLiteral(es)
  {
    if es.Empty? then "" else ReadingOf(es.front) + Reads(es.last)
  }

  lemma {:induction false} LiteralSnoc(es: Elements, e: Element)
    requires IsLiteral(es) && WellFormed(e) && (es.Added? ==> CanFollow(es.last, Spelling(e)[0]))
    ensures IsLiteral(Added(es, e))
    ensures SpellingOf(Added(es, e)) == SpellingOf(es) + Spelling(e) && ReadingOf(Added(es, e)) == ReadingOf(es) + Reads(e)
  {
  }

  // ----- digits

  /** Which characters are digits. */
  lemma {:induction false} Digits(c: char)
    ensures IsHexDigit(c) <==> c in "0123456789" + "abcdef" + "ABCDEF"
    ensures IsOctalDigit(c) <==> c in "01234567"
  {
  }

  /** The value of every digit, in both spellings. */
  lemma {:induction false} DigitValues(k: nat)
    requires k < 16
    ensures IsHexDigit("0123456789abcdef"[k]) && HexValue("0123456789abcdef"[k]) == k
    ensures IsHexDigit("0123456789ABCDEF"[k]) && HexValue("0123456789ABCDEF"[k]) == k
  {
  }

  lemma {:induction false} NumberSnoc(d: string, c: char, base: nat)
    requires AllHex(d) && IsHexDigit(c)
    ensures AllHex(d + [c]) && NumberOf(d + [c], base) == NumberOf(d, base) * base + HexValue(c)
  {
    assert (d + [c])[..|d|] == d;
  }

  // ----- UTF-8, read

  predicate IsTrail(c: char) { 0x80 <= c as int < 0xC0 }

  /** The code point that bytes stand for: section 3 of RFC 3629. */
  function Utf8Read(u: string): Option<nat> {
    if |u| == 1 && u[0] as int < 0x80 then Some(u[0] as int)
    else if |u| == 2 && 0xC0 <= u[0] as int < 0xE0 && IsTrail(u[1]) then
      Some((u[0] as int - 0xC0) * 0x40 + (u[1] as int - 0x80))
    else if |u| == 3 && 0xE0 <= u[0] as int < 0xF0 && IsTrail(u[1]) && IsTrail(u[2]) then
      Some(((u[0] as int - 0xE0) * 0x40 + (u[1] as int - 0x80)) * 0x40 + (u[2] as int - 0x80))
    else if |u| == 4 && 0xF0 <= u[0] as int < 0xF8 && IsTrail(u[1]) && IsTrail(u[2]) && IsTrail(u[3]) then
      Some((((u[0] as int - 0xF0) * 0x40 + (u[1] as int - 0x80)) * 0x40 + (u[2] as int - 0x80)) * 0x40 + (u[3] as int - 0x80))
    else None
  }

  lemma {:induction false} Utf8Two(code: nat)
    requires 0x80 <= code < 0x800
    ensures |Utf8(code)| == 2 && Utf8Read(Utf8(code)) == Some(code)
  {
    assert code == code / 0x40 * 0x40 + code % 0x40;
  }

  lemma DivideTwice(code: nat)
    ensures code / 0x40 / 0x40 == code / 0x1000 && code / 0x1000 / 0x40 == code / 0x4_0000
  {
  }

  lemma {:induction false} Utf8Three(code: nat)
    requires 0x800 <= code < 0x1_0000
    ensures |Utf8(code)| == 3 && Utf8Read(Utf8(code)) == Some(code)
  {
    DivideTwice(code);
    var a := code / 0x40;
    assert a == a / 0x40 * 0x40 + a % 0x40;
    assert code == a * 0x40 + code % 0x40;
  }

  lemma {:induction false} Utf8Four(code: nat)
    requires 0x1_0000 <= code < 0x110000
    ensures |Utf8(code)| == 4 && Utf8Read(Utf8(code)) == Some(code)
  {
    DivideTwice(code);
    var a, b := code / 0x40, code / 0x1000;
    assert b == b / 0x40 * 0x40 + b % 0x40;
    assert a == b * 0x40 + a % 0x40;
    assert code == a * 0x40 + code % 0x40;
  }

  /** Every code point is encoded by bytes that stand for it, as few as possible. */
  lemma {:induction false} Utf8Reads(code: nat)
    requires code < 0x110000
    ensures Utf8Read(Utf8(code)) == Some(code)
    ensures |Utf8(code)| == if code < 0x80 then 1 else if code < 0x800 then 2 else if code < 0x1_0000 then 3 else 4
  {
    if 0x80 <= code < 0x800 {
      Utf8Two(code);
    } else if 0x800 <= code < 0x1_0000 {
      Utf8Three(code);
    } else if code >= 0x1_0000 {
      Utf8Four(code);
    }
  }

  // ----- the lexer on one element

  lemma {:induction false} InLiteralAppend(m: Mode, a: string, b: string)
    ensures InLiteral(m, a + b) == InLiteral(InLiteral(m, a), b)
    decreases |a|
  {
    if a == "" {
      assert a + b == b;
    } else {
      assert (a + b)[1..] == a[1..] + b;
      InLiteralAppend(Step(State(m, [], Code), a[0]).mode, a[1..], b);
    }
  }

  lemma {:induction false} InLiteral1(m: Mode, c: char)
    ensures InLiteral(m, [c]) == Step(State(m, [], Code), c).mode
  {
    assert [c][1..] == "";
  }

  lemma {:induction false} InLiteralSnoc(m: Mode, s: string, c: char)
    ensures InLiteral(m, s + [c]) == Step(State(InLiteral(m, s), [], Code), c).mode
  {
    InLiteralAppend(m, s, [c]);
    InLiteral1(InLiteral(m, s), c);
  }

  lemma {:induction false} EscapeStarts(m: Mode, c: char)
    requires Between(m, '\\')
    ensures InLiteral(m, ['\\', c]) == Continue(Escape(ReadSoFar(m)), c)
  {
    assert ['\\', c] == "\\" + [c];
    InLiteralSnoc(m, "\\", c);
    InLiteral1(m, '\\');
  }

  lemma {:induction false} HexDigits(v: string, d: string)
    requires d != "" && AllHex(d)
    ensures InLiteral(HexStart(v), d) == Hex(v, NumberOf(d, 16))
    decreases |d|
  {
    var n := |d| - 1;
    assert d == d[..n] + [d[n]];
    InLiteralSnoc(HexStart(v), d[..n], d[n]);
    NumberSnoc(d[..n], d[n], 16);
    if n > 0 {
      HexDigits(v, d[..n]);
    } else {
      assert d[..n] == "";
    }
  }

  lemma {:induction false} OctalDigits(v: string, d: string)
    requires 1 <= |d| <= 3 && AllOctal(d)
    ensures AllHex(d) && InLiteral(Escape(v), d) == Octal(v, NumberOf(d, 8), |d|)
    decreases |d|
  {
    var n := |d| - 1;
    assert d == d[..n] + [d[n]];
    InLiteralSnoc(Escape(v), d[..n], d[n]);
    NumberSnoc(d[..n], d[n], 8);
    if n > 0 {
      OctalDigits(v, d[..n]);
    } else {
      assert d[..n] == "";
    }
  }

  lemma {:induction false} UniversalDigits(v: string, d: string, long: bool)
    requires |d| < (if long then 8 else 4) && AllHex(d)
    ensures InLiteral(Ucn(v, 0, 0, long), d) == Ucn(v, NumberOf(d, 16), |d|, long)
    decreases |d|
  {
    if d != "" {
      var n := |d| - 1;
      assert d == d[..n] + [d[n]];
      InLiteralSnoc(Ucn(v, 0, 0, long), d[..n], d[n]);
      NumberSnoc(d[..n], d[n], 16);
      UniversalDigits(v, d[..n], long);
    }
  }

  lemma {:induction false} UniversalEnds(v: string, d: string, long: bool)
    requires |d| == (if long then 8 else 4) && AllHex(d)
    ensures InLiteral(Ucn(v, 0, 0, long), d) == if IsCharacter(NumberOf(d, 16)) then InStr(v + Utf8(NumberOf(d, 16))) else Broken
  {
    var n := |d| - 1;
    assert d == d[..n] + [d[n]];
    InLiteralSnoc(Ucn(v, 0, 0, long), d[..n], d[n]);
    NumberSnoc(d[..n], d[n], 16);
    UniversalDigits(v, d[..n], long);
  }

  /** Where the lexer stands after an element that follows `v`. */
  function ModeAfter(v: string, e: Element): Mode
    requires WellFormed(e)
  {
    match e
    case OctalNumber(d) => Octal(v, NumberOf(d, 8), |d|)
    case HexNumber(d) => Hex(v, NumberOf(d, 16))
    case _ => InStr(v + Reads(e))
  }

  lemma {:induction false} SimpleIsListed(l: char)
    ensures l in SIMPLE <==> l != '"' && SimpleEscape(l).Some?
    ensures l in SIMPLE ==> SimpleEscape(l) == Some(SIMPLE[l]) && l != 'x' && l != 'u' && l != 'U' && !IsOctalDigit(l)
  {
  }

  lemma {:induction false} RunHexNumber(m: Mode, d: string)
    requires WellFormed(HexNumber(d)) && Between(m, '\\')
    ensures InLiteral(m, "\\x" + d) == Hex(ReadSoFar(m), NumberOf(d, 16))
  {
    InLiteralAppend(m, "\\x", d);
    EscapeStarts(m, 'x');
    HexDigits(ReadSoFar(m), d);
  }

  lemma {:induction false} RunOctalNumber(m: Mode, d: string)
    requires WellFormed(OctalNumber(d)) && Between(m, '\\')
    ensures InLiteral(m, "\\" + d) == Octal(ReadSoFar(m), NumberOf(d, 8), |d|)
  {
    InLiteralAppend(m, "\\", d);
    InLiteral1(m, '\\');
    OctalDigits(ReadSoFar(m), d);
  }

  lemma {:induction false} RunShortName(m: Mode, d: string)
    requires |d| == 4 && AllHex(d) && IsCharacter(NumberOf(d, 16)) && Between(m, '\\')
    ensures InLiteral(m, "\\u" + d) == InStr(ReadSoFar(m) + Utf8(NumberOf(d, 16)))
  {
    InLiteralAppend(m, "\\u", d);
    EscapeStarts(m, 'u');
    UniversalEnds(ReadSoFar(m), d, false);
  }

  lemma {:induction false} RunLongName(m: Mode, d: string)
    requires |d| == 8 && AllHex(d) && IsCharacter(NumberOf(d, 16)) && Between(m, '\\')
    ensures InLiteral(m, "\\U" + d) == InStr(ReadSoFar(m) + Utf8(NumberOf(d, 16)))
  {
    InLiteralAppend(m, "\\U", d);
    EscapeStarts(m, 'U');
    UniversalEnds(ReadSoFar(m), d, true);
  }

  lemma {:induction false} RunElement(m: Mode, e: Element)
    requires WellFormed(e) && Between(m, Spelling(e)[0])
    ensures InLiteral(m, Spelling(e)) == ModeAfter(ReadSoFar(m), e)
  {
    match e
    case Character(c) => InLiteral1(m, c);
    case Simple(l) => SimpleIsListed(l); EscapeStarts(m, l);
    case Universal(d) => if |d| == 4 { RunShortName(m, d); } else { RunLongName(m, d); }
    case HexNumber(d) => RunHexNumber(m, d);
    case OctalNumber(d) => RunOctalNumber(m, d);
  }

  lemma {:induction false} AfterElement(v: string, e: Element, c: char)
    requires WellFormed(e)
    ensures ReadSoFar(ModeAfter(v, e)) == v + Reads(e)
    ensures CanFollow(e, c) ==> Between(ModeAfter(v, e), c)
  {
  }

  // ----- a whole literal

  function ModeOf(es: Elements): Mode
    requires IsLiteral(es)
  {
    if es.Empty? then InStr("") else ModeAfter(ReadingOf(es.front), es.last)
  }

  lemma {:induction false} ModeReads(es: Elements, c: char)
    requires IsLiteral(es)
    ensures ReadSoFar(ModeOf(es)) == ReadingOf(es)
    ensures es.Empty? || CanFollow(es.last, c) ==> Between(ModeOf(es), c)
  {
    if es.Added? {
      AfterElement(ReadingOf(es.front), es.last, c);
    }
  }

  lemma {:induction false} RunNext(t: string, m: Mode, e: Element)
    requires InLiteral(InStr(""), t) == m && WellFormed(e) && Between(m, Spelling(e)[0])
    ensures InLiteral(InStr(""), t + Spelling(e)) == ModeAfter(ReadSoFar(m), e)
  {
    InLiteralAppend(InStr(""), t, Spelling(e));
    RunElement(m, e);
  }

  lemma {:induction false} RunOneMore(es: Elements, e: Element)
    requires IsLiteral(es) && InLiteral(InStr(""), SpellingOf(es)) == ModeOf(es)
    requires WellFormed(e) && (es.Added? ==> CanFollow(es.last, Spelling(e)[0]))
    ensures InLiteral(InStr(""), SpellingOf(es) + Spelling(e)) == ModeAfter(ReadingOf(es), e)
  {
    ModeReads(es, Spelling(e)[0]);
    RunNext(SpellingOf(es), ModeOf(es), e);
  }

  lemma {:induction false} RunElements(es: Elements)
    requires IsLiteral(es)
    ensures InLiteral(InStr(""), SpellingOf(es)) == ModeOf(es)
    decreases es
  {
    if es.Added? {
      RunElements(es.front);
      RunOneMore(es.front, es.last);
    }
  }

  lemma {:induction false} ElementHasNoQuote(e: Element)
    requires WellFormed(e)
    ensures '"' !in Spelling(e)
  {
    if e.Simple? {
      SimpleIsListed(e.letter);
    } else if !e.Character? {
      assert forall i :: 0 <= i < |e.digits| ==> e.digits[i] != '"';
    }
  }

  lemma {:induction false} SpellingHasNoQuote(es: Elements)
    requires IsLiteral(es)
    ensures '"' !in SpellingOf(es)
    decreases es
  {
    if es.Added? {
      SpellingHasNoQuote(es.front);
      ElementHasNoQuote(es.last);
    }
  }

  /** A literal is read element by element, whatever the elements. */
  lemma {:induction false} LiteralReads(es: Elements)
    requires IsLiteral(es)
    ensures Closes(SpellingOf(es)) && Value(SpellingOf(es)) == ReadingOf(es)
  {
    RunElements(es);
    SpellingHasNoQuote(es);
    ModeReads(es, '"');
  }
}
