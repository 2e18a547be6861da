/** What the text of one definition determines: its parts can be cut and read off again. */
module Injectivity {
  import opened Basics
  import opened Numerals
  import opened HeaderText
  import opened DataLiterals
  import opened Lacking

  // ----- cancelling

  lemma CancelLeft(p: string, a: string, b: string)
    requires p + a == p + b
    ensures a == b
  {
    assert a == (p + a)[|p|..];
    assert b == (p + b)[|p|..];
  }

  lemma CancelRight(a: string, b: string, s: string)
    requires a + s == b + s
    ensures a == b
  {
    assert |a| == |b|;
    assert a == (a + s)[..|a|];
    assert b == (b + s)[..|b|];
  }

  /** A text is cut in one way only at the first place where `c` stands. */
  lemma CutAtFirst(a: string, b: string, c: char, x: string, y: string)
    requires a + ([c] + x) == b + ([c] + y) && c !in a && c !in b
    ensures a == b && x == y
  {
    var s, t := a + ([c] + x), b + ([c] + y);
    assert s[|a|] == c && t[|b|] == c;
    assert forall k :: 0 <= k < |a| ==> s[k] == a[k] != c;
    assert forall k :: 0 <= k < |b| ==> t[k] == b[k] != c;
    assert |a| == |b|;
    assert a == s[..|a|] && b == t[..|b|];
    assert x == s[|a| + 1..] && y == t[|b| + 1..];
  }

  // ----- the bytes of one file

  lemma {:induction false} HexInjective(a: Byte, b: Byte)
    requires EscapedByte(a) == EscapedByte(b)
    ensures a == b
  {
    Hex2Read(a as int);
    Hex2Read(b as int);
    CancelLeft("\\x", Hex2(a as int), Hex2(b as int));
  }

  function SizeOf(n: nat): nat { 4 * n + 5 * ((n + 15) / 16) }

  lemma {:induction false} SizeMonotone(m: nat, n: nat)
    requires m < n
    ensures SizeOf(m) < SizeOf(n)
  {
    assert (m + 15) / 16 <= (n + 15) / 16;
  }

  lemma {:induction false} BodySizeInjective(s: seq<Byte>, t: seq<Byte>)
    requires |DataBody(s)| == |DataBody(t)|
    ensures |s| == |t|
  {
    BodySize(s);
    BodySize(t);
    assert SizeOf(0) == 0;
    if |s| < |t| {
      SizeMonotone(|s|, |t|);
    } else if |t| < |s| {
      SizeMonotone(|t|, |s|);
    }
  }

  lemma {:induction false} BodyInjective(s: seq<Byte>, t: seq<Byte>)
    requires DataBody(s) == DataBody(t)
    ensures s == t
    decreases |s|
  {
    BodySizeInjective(s, t);
    if s != [] {
      var n := |s| - 1;
      var s', a, t', b := s[..n], s[n], t[..n], t[n];
      SnocParts(s, s', a);
      SnocParts(t, t', b);
      BodyEnds(s', a, t', b);
      BodyInjective(s', t');
    }
  }

  lemma SnocParts(s: seq<Byte>, s': seq<Byte>, a: Byte)
    requires s != [] && s' == s[..|s| - 1] && a == s[|s| - 1]
    ensures s == s' + [a]
  {
  }

  lemma {:induction false} BodyEnds(s: seq<Byte>, a: Byte, t: seq<Byte>, b: Byte)
    requires |s| == |t| && DataBody(s + [a]) == DataBody(t + [b])
    ensures DataBody(s) == DataBody(t) && a == b
  {
    BodySnoc(s, a);
    BodySnoc(t, b);
    BodySize(s);
    BodySize(t);
    var sep := Separator(|s|);
    assert |EscapedByte(a)| == |EscapedByte(b)| == 4;
    SameLengthParts(DataBody(s), sep + EscapedByte(a), DataBody(t), sep + EscapedByte(b));
    CancelLeft(sep, EscapedByte(a), EscapedByte(b));
    HexInjective(a, b);
  }

  lemma SameLengthParts(a: string, x: string, b: string, y: string)
    requires a + x == b + y && |a| == |b|
    ensures a == b && x == y
  {
    assert a == (a + x)[..|a|] && b == (b + y)[..|b|];
    assert x == (a + x)[|a|..] && y == (b + y)[|b|..];
  }

  // ----- one definition

  /** A definition and what follows it, cut at the quote after the name. */
  function AfterName(i: nat, contents: seq<Byte>, rest: string): string {
    ";\n" + DataOpen(i) + (DataBody(contents) + DataClose(|contents|) + rest)
  }

  lemma NameShape(p: string, name: string, q: string, s: string, o: string, b: string, c: string, rest: string)
    ensures (p + name + (q + s)) + o + b + c + rest == p + (name + (q + (s + o + (b + c + rest))))
  {
  }

  lemma {:induction false} DefinitionCut(i: nat, f: File, rest: string)
    ensures Definition(i, f) + rest == NamePrefix(i) + (f.name + ("\"" + AfterName(i, f.contents, rest)))
  {
    assert "\";\n" == "\"" + ";\n";
    NameShape(NamePrefix(i), f.name, "\"", ";\n", DataOpen(i), DataBody(f.contents), DataClose(|f.contents|), rest);
  }

  /** The bytes and what follows them, cut at the comma after the last literal. */
  function AfterData(n: nat, rest: string): string { "\n  " + Dec(n) + ");\n\n" + rest }

  lemma DataShape(b: string, close: string, q: string, c: string, l: string, n: string,
    e: string, rest: string)
    requires close == (q + (c + l)) + n + e
    ensures b + close + rest == (b + q) + (c + (l + n + e + rest))
  {
  }

  lemma {:induction false} DataCloseCut(n: nat)
    ensures DataClose(n) == ("\"" + ("," + "\n  ")) + Dec(n) + ");\n\n"
  {
    assert "\",\n  " == "\"" + ("," + "\n  ");
  }

  lemma {:induction false} DataCut(contents: seq<Byte>, rest: string)
    ensures DataBody(contents) + DataClose(|contents|) + rest ==
      (DataBody(contents) + "\"") + ("," + AfterData(|contents|, rest))
  {
    DataCloseCut(|contents|);
    DataShape(DataBody(contents), DataClose(|contents|), "\"", ",", "\n  ", Dec(|contents|), ");\n\n", rest);
  }

  lemma {:induction false} DataUnique(s: seq<Byte>, x: string, t: seq<Byte>, y: string)
    requires DataBody(s) + DataClose(|s|) + x == DataBody(t) + DataClose(|t|) + y
    ensures s == t && x == y
  {
    DataCut(s, x);
    DataCut(t, y);
    BodyLacks(s, ',');
    BodyLacks(t, ',');
    CutAtFirst(DataBody(s) + "\"", DataBody(t) + "\"", ',', AfterData(|s|, x), AfterData(|t|, y));
    CancelRight(DataBody(s), DataBody(t), "\"");
    BodyInjective(s, t);
    CancelLeft("\n  " + Dec(|s|) + ");\n\n", x, y);
  }
}
