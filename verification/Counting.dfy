/**
 * How much text string literals can hold: the lexer reads no more characters into literals
 * than there are in the text. Zeros are not counted, since an array has one more at its end.
 */
module Counting {
  import opened Numerals
  import opened Lexer

  /** The characters of `s` other than zero. */
  function Weight(s: string): nat {
    if s == "" then 0
    else Weight(s[..|s| - 1]) + (if s[|s| - 1] == '\0' then 0 else 1)
  }

  lemma {:induction false} WeightSnoc(s: string, c: char)
    ensures Weight(s + [c]) == Weight(s) + (if c == '\0' then 0 else 1)
  {
    assert (s + [c])[..|s|] == s;
  }

  lemma {:induction false} WeightAppend(a: string, b: string)
    ensures Weight(a + b) == Weight(a) + Weight(b)
    decreases |b|
  {
    if b == "" {
      assert a + b == a;
    } else {
      var n := |b| - 1;
      WeightAppend(a, b[..n]);
      assert a + b == (a + b[..n]) + [b[n]];
      WeightSnoc(a + b[..n], b[n]);
    }
  }

  lemma {:induction false} WeightBound(s: string)
    ensures Weight(s) <= |s|
    ensures '\0' !in s ==> Weight(s) == |s|
    decreases |s|
  {
    if s != "" {
      WeightBound(s[..|s| - 1]);
    }
  }

  // ----- literals among tokens

  function TokenWeight(t: Token): nat { if t.Str? then Weight(t.value) else 0 }

  /** The characters in the literals among `ts`. */
  function Decoded(ts: seq<Token>): nat {
    if ts == [] then 0 else Decoded(ts[..|ts| - 1]) + TokenWeight(ts[|ts| - 1])
  }

  lemma {:induction false} DecodedSnoc(ts: seq<Token>, t: Token)
    ensures Decoded(ts + [t]) == Decoded(ts) + TokenWeight(t)
  {
    assert (ts + [t])[..|ts|] == ts;
  }

  lemma {:induction false} DecodedAppend(a: seq<Token>, b: seq<Token>)
    ensures Decoded(a + b) == Decoded(a) + Decoded(b)
    decreases |b|
  {
    if b == [] {
      assert a + b == a;
    } else {
      var n := |b| - 1;
      DecodedAppend(a, b[..n]);
      assert a + b == (a + b[..n]) + [b[n]];
      DecodedSnoc(a + b[..n], b[n]);
    }
  }

  // ----- one character of text adds at most one

  /** The characters in the literal under way; a numeric escape counts for one, a digit of a universal name for one. */
  function InProgress(m: Mode): nat {
    match m
    case InStr(v) => Weight(v)
    case Escape(v) => Weight(v)
    case HexStart(v) => Weight(v)
    case Hex(v, _) => Weight(v) + 1
    case Octal(v, _, _) => Weight(v) + 1
    case Ucn(v, _, count, _) => Weight(v) + count
    case _ => 0
  }

  function Held(st: State): nat { Decoded(st.toks) + InProgress(st.mode) }

  lemma {:induction false} StartBound(st: State, c: char)
    ensures Held(Start(st, c)) == Decoded(st.toks)
  {
    DecodedSnoc(st.toks, EndOfDirective);
    DecodedSnoc(st.toks, Punct([c]));
    DecodedSnoc(st.toks, Punct("#"));
  }

  lemma {:induction false} SettleBound(st: State)
    ensures Decoded(Settle(st).toks) == Decoded(st.toks)
  {
    match st.mode
    case InWord(w) => DecodedSnoc(st.toks, Word(w));
    case InNumber(w) => DecodedSnoc(st.toks, Number(w));
    case InPunct(op) => DecodedSnoc(st.toks, Punct(op));
    case Slash => DecodedSnoc(st.toks, Punct("/"));
    case _ =>
  }

  lemma {:induction false} ReadBound(m: Mode)
    ensures Weight(ReadSoFar(m)) <= InProgress(m)
  {
    match m
    case Hex(v, code) => if code < 256 { WeightSnoc(v, code as char); }
    case Octal(v, code, _) => if code < 256 { WeightSnoc(v, code as char); }
    case _ =>
  }

  lemma {:induction false} InsideBound(st: State, v: string, c: char)
    ensures Held(InsideString(st, v, c)) <= Decoded(st.toks) + Weight(v) + (if c == '"' || c == '\\' || c == '\n' then 0 else 1)
  {
    if c == '"' {
      DecodedSnoc(st.toks, Str(v));
    } else {
      WeightSnoc(v, c);
    }
  }

  lemma {:induction false} NameDigitBound(v: string, code: nat, count: nat, long: bool)
    ensures InProgress(NameDigit(v, code, count, long)) <= Weight(v) + count + 1
  {
    if IsScalar(code) {
      WeightAppend(v, Utf8(code));
      WeightBound(Utf8(code));
    }
  }

  lemma {:induction false} ContinueBound(m: Mode, c: char)
    ensures InProgress(Continue(m, c)) <= InProgress(m) + 1
  {
    match m
    case Escape(v) => if SimpleEscape(c).Some? { WeightSnoc(v, SimpleEscape(c).value); }
    case Ucn(v, code, count, long) => if IsHexDigit(c) { NameDigitBound(v, code * 16 + HexValue(c), count, long); }
    case _ =>
  }

  /** One character of text adds at most one character to the literals. */
  lemma {:induction false} StepBound(st: State, c: char)
    ensures Held(Step(st, c)) <= Held(st) + 1
  {
    if Ends(st.mode, c) {
      SettleBound(st);
      StartBound(Settle(st), c);
    } else if Between(st.mode, c) {
      ReadBound(st.mode);
      InsideBound(st, ReadSoFar(st.mode), c);
    } else {
      ContinueBound(st.mode, c);
    }
  }

  lemma {:induction false} RunBound(st: State, s: string)
    ensures Held(Run(st, s)) <= Held(st) + |s|
    decreases |s|
  {
    if s != "" {
      StepBound(st, s[0]);
      RunBound(Step(st, s[0]), s[1..]);
    }
  }
}
