/**
 * Characters to preprocessing tokens: section 5.4 to 5.13 of ISO/IEC 14882:2017, as a
 * machine that reads one character at a time. Every rule is maximal munch: a token goes on
 * as long as the next character can extend it. A hexadecimal escape in particular has no
 * bound on its digits. Lines that end in a backslash are spliced before.
 *
 * Two modes are final. `Broken` is text that is no C++: a literal that its line does not end,
 * an escape sequence without its digits, a universal character name that names no character.
 * (Section 5.4 leaves an unmatched quote undefined; since C++23 it is ill-formed.)
 * `Unknown` is what the machine does not know: character literals, raw and prefixed strings,
 * literal suffixes, digraphs, `.`, and escape sequences whose value is left to the
 * implementation. It refuses these and never reads them differently.
 */
module Lexer {
  import opened Basics
  import opened Numerals

  datatype Token =
    | Word(text: string)      // identifier or keyword
    | Number(text: string)    // preprocessing number
    | Str(value: string)      // string literal, escapes decoded, without its final zero
    | Punct(text: string)     // operator or punctuator
    | EndOfDirective          // the newline that ends a directive

  /** What has been read of the token under way. */
  datatype Mode =
    | Space
    | InWord(word: string)
    | InNumber(digits: string)
    | InPunct(op: string)
    | InStr(value: string)
    | Escape(value: string)                        // after a backslash
    | HexStart(value: string)                      // after \x
    | Hex(value: string, code: nat)
    | Octal(value: string, code: nat, count: nat)
    | Ucn(value: string, code: nat, count: nat, long: bool)   // after \u or, when long, \U
    | StrEnd                                       // just after a closing quote
    | Slash
    | LineComment
    | BlockComment
    | BlockStar
    | Broken
    | Unknown

  /** Whether the line so far is blank, holds code, or is a directive. */
  datatype Line = Fresh | Code | Directive

  datatype State = State(mode: Mode, toks: seq<Token>, line: Line)

  const INITIAL := State(Space, [], Fresh)

  // ----- character classes

  predicate IsBlank(c: char) { c == ' ' || c == '\t' || c == '\r' }

  predicate IsWordStart(c: char) { 'a' <= c <= 'z' || 'A' <= c <= 'Z' || c == '_' }

  predicate IsWordChar(c: char) { IsWordStart(c) || IsDigit(c) }

  /** Punctuators that no following character can extend. */
  predicate IsSolo(c: char) {
    c == '{' || c == '}' || c == '(' || c == ')' || c == '[' || c == ']' ||
    c == ';' || c == ',' || c == '?' || c == '~'
  }

  /** Punctuators that may go on; `/` is treated with comments. */
  predicate IsOpStart(c: char) {
    c == ':' || c == '+' || c == '-' || c == '*' || c == '%' || c == '^' ||
    c == '&' || c == '|' || c == '!' || c == '=' || c == '<' || c == '>'
  }

  predicate OpExtends(op: string, c: char) {
    (|op| == 1 && op[0] == c && (c == ':' || c == '+' || c == '-' || c == '&' || c == '|' || c == '=' || c == '<' || c == '>')) ||
    (|op| == 1 && c == '=' && op[0] != ':') ||
    (|op| == 1 && op[0] == '-' && c == '>') ||
    (|op| == 2 && op[0] == op[1] && (op[0] == '<' || op[0] == '>') && c == '=') ||
    (|op| == 2 && op[0] == '-' && op[1] == '>' && c == '*')
  }

  predicate IsDigraph(op: string, c: char) {
    |op| == 1 &&
    ((op[0] == '<' && (c == ':' || c == '%')) || ((op[0] == '%' || op[0] == ':') && c == '>') || (op[0] == '%' && c == ':'))
  }

  /** The character a simple escape sequence stands for. */
  function SimpleEscape(c: char): Option<char> {
    if c == '"' || c == '\\' || c == '\'' || c == '?' then Some(c)
    else if c == 'n' then Some('\n')
    else if c == 't' then Some('\t')
    else if c == 'r' then Some('\r')
    else if c == 'a' then Some(7 as char)
    else if c == 'b' then Some(8 as char)
    else if c == 'v' then Some(11 as char)
    else if c == 'f' then Some(12 as char)
    else None
  }

  /** The code point is that of a character. */
  predicate IsScalar(code: nat) { code < 0xD800 || 0xE000 <= code < 0x110000 }

  /** A character in the execution character set, which is UTF-8. */
  function Utf8(code: nat): string
    requires code < 0x110000
  {
    if code < 0x80 then [code as char]
    else if code < 0x800 then [(0xC0 + code / 0x40) as char, (0x80 + code % 0x40) as char]
    else if code < 0x1_0000 then
      [(0xE0 + code / 0x1000) as char, (0x80 + code / 0x40 % 0x40) as char, (0x80 + code % 0x40) as char]
    else
      [(0xF0 + code / 0x4_0000) as char, (0x80 + code / 0x1000 % 0x40) as char,
       (0x80 + code / 0x40 % 0x40) as char, (0x80 + code % 0x40) as char]
  }

  // ----- physical lines to logical lines

  /** Every backslash at the end of a line is deleted with the newline after it. */
  function Splice(s: string): string
    decreases |s|
  {
    if s == "" then ""
    else if |s| >= 2 && s[0] == '\\' && s[1] == '\n' then Splice(s[2..])
    else [s[0]] + Splice(s[1..])
  }

  // ----- transitions

  /** Starts a token, which makes a blank line a line of code. */
  function Begin(st: State, mode: Mode): State {
    State(mode, st.toks, if st.line.Fresh? then Code else st.line)
  }

  /** Ends a token. */
  function Emit(st: State, t: Token): State { State(Space, st.toks + [t], st.line) }

  function Newline(st: State): State {
    State(Space, if st.line.Directive? then st.toks + [EndOfDirective] else st.toks, Fresh)
  }

  /** One character where no token is under way. */
  function Start(st: State, c: char): State {
    if c == '\n' then Newline(st)
    else if IsBlank(c) then st.(mode := Space)
    else if IsWordStart(c) then Begin(st, InWord([c]))
    else if IsDigit(c) then Begin(st, InNumber([c]))
    else if c == '"' then Begin(st, InStr(""))
    else if IsSolo(c) then Emit(Begin(st, Space), Punct([c]))
    else if IsOpStart(c) then Begin(st, InPunct([c]))
    else if c == '/' then st.(mode := Slash)
    else if c == '#' && st.line.Fresh? then State(Space, st.toks + [Punct("#")], Directive)
    else st.(mode := Unknown)
  }

  /** `c` cannot go on with the token under way, which is complete. */
  predicate Ends(m: Mode, c: char) {
    match m
    case Space => true
    case InWord(_) => !IsWordChar(c) && c != '"' && c != '\''
    case InNumber(_) => !IsWordChar(c) && c != '.' && c != '\''
    case InPunct(op) => !OpExtends(op, c) && !IsDigraph(op, c)
    case StrEnd => !IsWordStart(c)
    case Slash => c != '/' && c != '*' && c != '='
    case LineComment => c == '\n'
    case _ => false
  }

  /** Ends the token under way. */
  function Settle(st: State): State {
    match st.mode
    case InWord(w) => Emit(st, Word(w))
    case InNumber(w) => Emit(st, Number(w))
    case InPunct(op) => Emit(st, Punct(op))
    case Slash => Emit(Begin(st, Space), Punct("/"))
    case _ => st.(mode := Space)
  }

  /** Inside a string literal where `c` goes on with no escape sequence. */
  predicate Between(m: Mode, c: char) {
    match m
    case InStr(_) => true
    case Hex(_, code) => !IsHexDigit(c) && code < 256
    case Octal(_, code, count) => !(IsOctalDigit(c) && count < 3) && code < 256
    case _ => false
  }

  /** What the literal reads so far, a finished numeric escape included. */
  function ReadSoFar(m: Mode): string {
    match m
    case InStr(v) => v
    case Hex(v, code) => if code < 256 then v + [code as char] else v
    case Octal(v, code, _) => if code < 256 then v + [code as char] else v
    case _ => ""
  }

  /** One character inside a string literal that reads `value` so far. */
  function InsideString(st: State, value: string, c: char): State {
    if c == '"' then State(StrEnd, st.toks + [Str(value)], st.line)
    else st.(mode := if c == '\\' then Escape(value) else if c == '\n' then Broken else InStr(value + [c]))
  }

  /** One more digit of a universal character name. */
  function NameDigit(v: string, code: nat, count: nat, long: bool): Mode {
    if count + 1 < (if long then 8 else 4) then Ucn(v, code, count + 1, long)
    else if IsScalar(code) then InStr(v + Utf8(code))
    else Broken
  }

  /** One character that goes on with what is under way, or spoils it. */
  function Continue(m: Mode, c: char): Mode {
    match m
    case InWord(w) => if IsWordChar(c) then InWord(w + [c]) else Unknown
    case InNumber(w) => if IsWordChar(c) then InNumber(w + [c]) else Unknown
    case InPunct(op) => if OpExtends(op, c) then InPunct(op + [c]) else Unknown
    case Escape(v) =>
      if c == 'x' then HexStart(v)
      else if IsOctalDigit(c) then Octal(v, HexValue(c), 1)
      else if SimpleEscape(c).Some? then InStr(v + [SimpleEscape(c).value])
      else if c == 'u' || c == 'U' then Ucn(v, 0, 0, c == 'U')
      else if c == '\n' then Broken
      else Unknown
    case HexStart(v) => if IsHexDigit(c) then Hex(v, HexValue(c)) else Broken
    case Hex(v, code) => if IsHexDigit(c) then Hex(v, code * 16 + HexValue(c)) else Unknown
    case Octal(v, code, count) =>
      if IsOctalDigit(c) && count < 3 then Octal(v, code * 8 + HexValue(c), count + 1) else Unknown
    case Ucn(v, code, count, long) =>
      if IsHexDigit(c) then NameDigit(v, code * 16 + HexValue(c), count, long) else Broken
    case Slash => if c == '/' then LineComment else if c == '*' then BlockComment else InPunct("/=")
    case LineComment => m
    case BlockComment => if c == '*' then BlockStar else m
    case BlockStar => if c == '/' then Space else if c == '*' then m else BlockComment
    case Broken => Broken
    case _ => Unknown
  }

  function Step(st: State, c: char): State {
    if Ends(st.mode, c) then Start(Settle(st), c)
    else if Between(st.mode, c) then InsideString(st, ReadSoFar(st.mode), c)
    else st.(mode := Continue(st.mode, c))
  }

  function Run(st: State, s: string): State
    decreases |s|, st
  {
    if s == "" then st else Run(Step(st, s[0]), s[1..])
  }

  /** The tokens of a text; a last line without a newline counts as ended by one. */
  function Lex(text: string): Verdict<seq<Token>> {
    var st := Step(Run(INITIAL, text), '\n');
    if st.mode.Space? then Accepted(st.toks) else if st.mode.Unknown? then NotModelled else IllFormed
  }

  // ----- reading a text piece by piece

  lemma {:induction false} RunAppend(st: State, a: string, b: string)
    ensures Run(st, a + b) == Run(Run(st, a), b)
    decreases |a|
  {
    if a == "" {
      assert a + b == b;
    } else {
      assert (a + b)[1..] == a[1..] + b;
      RunAppend(Step(st, a[0]), a[1..], b);
    }
  }

  predicate Stuck(m: Mode) { m.Broken? || m.Unknown? }

  lemma {:induction false} StuckForever(st: State, s: string)
    requires Stuck(st.mode)
    ensures Run(st, s) == st
    decreases |s|
  {
    if s != "" {
      StuckForever(st, s[1..]);
    }
  }

  // ----- splicing piece by piece

  lemma {:induction false} SpliceAppend(a: string, b: string)
    requires a == "" || a[|a| - 1] != '\\' || b == "" || b[0] != '\n'
    ensures Splice(a + b) == Splice(a) + Splice(b)
    decreases |a|
  {
    if a == "" {
      assert a + b == b;
    } else if |a| >= 2 && a[0] == '\\' && a[1] == '\n' {
      assert (a + b)[2..] == a[2..] + b;
      SpliceAppend(a[2..], b);
    } else {
      assert (a + b)[1..] == a[1..] + b;
      SpliceAppend(a[1..], b);
    }
  }

  lemma {:induction false} SpliceKeeps(s: string)
    requires '\\' !in s
    ensures Splice(s) == s
    decreases |s|
  {
    if s != "" {
      SpliceKeeps(s[1..]);
    }
  }

  /** No line ends in a backslash. */
  predicate NoSplice(s: string) { forall k :: 0 <= k < |s| - 1 ==> s[k] != '\\' || s[k + 1] != '\n' }

  /** A text is left alone if and as far as no line ends in a backslash. */
  lemma {:induction false} SpliceNone(s: string)
    requires NoSplice(s)
    ensures Splice(s) == s
    decreases |s|
  {
    if s != "" {
      SpliceNone(s[1..]);
    }
  }

  /** The first line that ends in a backslash goes on with the next: both characters are gone. */
  lemma {:induction false} SpliceFirst(a: string, b: string)
    requires NoSplice(a)
    ensures Splice(a + "\\\n" + b) == a + Splice(b)
    decreases |a|
  {
    var s := a + "\\\n" + b;
    if a == "" {
      assert s[2..] == b;
    } else {
      assert s[1..] == a[1..] + "\\\n" + b;
      SpliceFirst(a[1..], b);
    }
  }

  // ----- inside a literal

  /** Modes in a literal in which no token ends before the next quote. */
  predicate IsLiteralMode(m: Mode) {
    m.InStr? || m.Escape? || m.HexStart? || m.Hex? || m.Octal? || m.Ucn? || Stuck(m)
  }

  /** The mode after characters of a literal without a quote among them. */
  function InLiteral(m: Mode, s: string): Mode
    decreases |s|, m
  {
    if s == "" then m else InLiteral(Step(State(m, [], Code), s[0]).mode, s[1..])
  }

  lemma {:induction false} RunInLiteral(st: State, s: string)
    requires IsLiteralMode(st.mode) && '"' !in s
    ensures Run(st, s) == st.(mode := InLiteral(st.mode, s)) && IsLiteralMode(Run(st, s).mode)
    decreases |s|
  {
    if s != "" {
      assert Step(st, s[0]) == st.(mode := Step(State(st.mode, [], Code), s[0]).mode);
      RunInLiteral(Step(st, s[0]), s[1..]);
    }
  }

  /** A quote ends the literal whose characters are `s`. */
  predicate Closes(s: string) { '"' !in s && Between(InLiteral(InStr(""), s), '"') }

  /** What that literal reads. */
  function Value(s: string): string { ReadSoFar(InLiteral(InStr(""), s)) }
}
