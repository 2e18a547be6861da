/** The string literals that carry the bytes of one file. */
module DataLiterals {
  import opened Basics
  import opened Numerals
  import opened HeaderText
  import opened Lexer

  // ----- the bytes in rows of 16

  /** `s` cut into rows of 16 bytes, the last one possibly shorter. */
  function Chunks(s: seq<Byte>): (cs: seq<seq<Byte>>)
    ensures s != [] <==> cs != []
    decreases |s|
  {
    if s == [] then [] else if |s| <= 16 then [s] else [s[..16]] + Chunks(s[16..])
  }

  function Flatten(cs: seq<string>): string {
    if cs == [] then "" else cs[0] + Flatten(cs[1..])
  }

  lemma {:induction false} ChunksFlatten(s: seq<Byte>)
    ensures Flatten(Chunks(s)) == s
    decreases |s|
  {
    if 0 < |s| <= 16 {
      assert Flatten([s]) == s + Flatten([]);
    } else if |s| > 16 {
      ChunksFlatten(s[16..]);
      assert Chunks(s)[1..] == Chunks(s[16..]);
    }
  }

  /** How many rows there are and how long each one is. */
  lemma {:induction false} ChunkSizes(s: seq<Byte>)
    ensures |Chunks(s)| == (|s| + 15) / 16
    ensures forall k :: 0 <= k < |Chunks(s)| - 1 ==> |Chunks(s)[k]| == 16
    ensures s != [] ==> |Chunks(s)[|Chunks(s)| - 1]| == (|s| - 1) % 16 + 1
    decreases |s|
  {
    if |s| > 16 {
      ChunkSizes(s[16..]);
      assert Chunks(s) == [s[..16]] + Chunks(s[16..]);
    }
  }

  /** One byte more opens a row exactly when all rows are full. */
  lemma {:induction false} ChunksSnoc(s: seq<Byte>, b: Byte)
    ensures |s| % 16 == 0 ==> Chunks(s + [b]) == Chunks(s) + [[b]]
    ensures |s| % 16 != 0 ==>
      var k := |Chunks(s)| - 1;
      Chunks(s + [b]) == Chunks(s)[..k] + [Chunks(s)[k] + [b]]
    decreases |s|
  {
    if |s| < 16 {
      assert Chunks(s + [b]) == [s + [b]];
      assert s == [] ==> s + [b] == [b] && Chunks(s) + [[b]] == [[b]];
      assert s != [] ==> Chunks(s)[..0] == [] && Chunks(s)[0] == s;
    } else if |s| == 16 {
      assert (s + [b])[..16] == s && (s + [b])[16..] == [b];
    } else if |s| > 16 {
      assert (s + [b])[..16] == s[..16] && (s + [b])[16..] == s[16..] + [b];
      ChunksSnoc(s[16..], b);
      var rest := Chunks(s[16..]);
      assert Chunks(s) == [s[..16]] + rest && Chunks(s + [b]) == [s[..16]] + Chunks(s[16..] + [b]);
      if |s| % 16 != 0 {
        var k := |rest|;
        assert Chunks(s)[..k] == [s[..16]] + rest[..k - 1] && Chunks(s)[k] == rest[k - 1];
      }
    }
  }

  // ----- their text

  function EscapedBytes(s: seq<Byte>): string {
    if s == [] then "" else EscapedBytes(s[..|s| - 1]) + EscapedByte(s[|s| - 1])
  }

  /** One literal a row, each on a line of its own. */
  function LiteralLines(cs: seq<seq<Byte>>): string {
    if cs == [] then "" else
      var k := |cs| - 1;
      LiteralLines(cs[..k]) + "\n  \"" + EscapedBytes(cs[k]) + "\""
  }

  /** The text of the rows without the last closing quote. */
  function OpenLines(cs: seq<seq<Byte>>): string
    requires cs != []
  {
    var k := |cs| - 1;
    LiteralLines(cs[..k]) + "\n  \"" + EscapedBytes(cs[k])
  }

  lemma {:induction false} OpenLinesNewRow(cs: seq<seq<Byte>>, b: Byte)
    requires cs != []
    ensures OpenLines(cs + [[b]]) == OpenLines(cs) + ("\"" + "\n  \"") + EscapedByte(b)
  {
    assert (cs + [[b]])[..|cs|] == cs;
    assert [b][..0] == [];
    assert EscapedBytes([b]) == "" + EscapedByte(b) == EscapedByte(b);
    assert OpenLines(cs) + "\"" == LiteralLines(cs);
    assert OpenLines(cs) + ("\"" + "\n  \"") == LiteralLines(cs) + "\n  \"";
  }

  lemma {:induction false} OpenLinesSameRow(cs: seq<seq<Byte>>, b: Byte)
    requires cs != []
    ensures var k := |cs| - 1;
      OpenLines(cs[..k] + [cs[k] + [b]]) == OpenLines(cs) + EscapedByte(b)
  {
    var k := |cs| - 1;
    var ds := cs[..k] + [cs[k] + [b]];
    assert ds[..k] == cs[..k];
    assert (cs[k] + [b])[..|cs[k]|] == cs[k];
    assert EscapedBytes(ds[k]) == EscapedBytes(cs[k]) + EscapedByte(b);
  }

  lemma {:induction false} BodySnoc(t: seq<Byte>, b: Byte)
    ensures DataBody(t + [b]) == DataBody(t) + (Separator(|t|) + EscapedByte(b))
  {
    assert (t + [b])[..|t|] == t;
  }

  lemma {:induction false} FirstByte(b: Byte)
    ensures DataBody([b]) == "\n  \"" + EscapedByte(b)
  {
    BodySnoc([], b);
    assert [] + [b] == [b];
    assert Separator(0) == "" + "\n  \"" == "\n  \"";
    assert "" + ("\n  \"" + EscapedByte(b)) == "\n  \"" + EscapedByte(b);
  }

  lemma {:induction false} FirstOpenLine(b: Byte)
    ensures Chunks([b]) == [[b]] && DataBody([b]) == OpenLines([[b]])
  {
    FirstByte(b);
    assert [[b]][..0] == [] && LiteralLines([]) == "";
    assert [b][..0] == [];
    assert EscapedBytes([b]) == "" + EscapedByte(b) == EscapedByte(b);
    assert "" + "\n  \"" == "\n  \"";
  }

  lemma {:induction false} BodyIsOpenLines(s: seq<Byte>)
    requires s != []
    ensures DataBody(s) == OpenLines(Chunks(s))
    decreases |s|
  {
    var n := |s| - 1;
    var t, b := s[..n], s[n];
    assert t + [b] == s;
    ChunksSnoc(t, b);
    BodySnoc(t, b);
    if n == 0 {
      FirstOpenLine(b);
      assert s == [b];
    } else {
      BodyIsOpenLines(t);
      if n % 16 == 0 {
        OpenLinesNewRow(Chunks(t), b);
      } else {
        OpenLinesSameRow(Chunks(t), b);
        assert Separator(n) + EscapedByte(b) == EscapedByte(b);
      }
    }
  }

  /**
   * The loop that opens a literal every 16 bytes prints one closed literal a row, once its
   * last literal is closed.
   */
  lemma {:induction false} BodyIsLiteralLines(s: seq<Byte>)
    requires s != []
    ensures DataBody(s) + "\"" == LiteralLines(Chunks(s))
  {
    BodyIsOpenLines(s);
  }

  lemma RoundUp(n: nat)
    ensures (n + 16) / 16 == (n + 15) / 16 + (if n % 16 == 0 then 1 else 0)
  {
  }

  lemma {:induction false} BodySize(s: seq<Byte>)
    ensures |DataBody(s)| == 4 * |s| + (if s == [] then 0 else 5 * ((|s| + 15) / 16) - 1)
    decreases |s|
  {
    if s != [] {
      var n := |s| - 1;
      BodySize(s[..n]);
      RoundUp(n);
      assert |Separator(n)| == if n == 0 then 4 else if n % 16 == 0 then 5 else 0;
      assert |EscapedByte(s[n])| == 4;
    }
  }

  /** The size of the literals of a file, from the newline before the first to the last quote. */
  lemma {:induction false} LiteralsSize(s: seq<Byte>)
    requires s != []
    ensures |LiteralLines(Chunks(s))| == 4 * |s| + 5 * ((|s| + 15) / 16)
  {
    BodySize(s);
    BodyIsLiteralLines(s);
  }

  // ----- how they are read

  function Literals(cs: seq<string>): (ts: seq<Token>)
    ensures |ts| == |cs| && forall k :: 0 <= k < |ts| ==> ts[k] == Str(cs[k])
  {
    seq(|cs|, k requires 0 <= k < |cs| => Str(cs[k]))
  }

  lemma {:induction false} Run1(st: State, a: char)
    ensures Run(st, [a]) == Step(st, a)
  {
    assert [a][1..] == "";
  }

  lemma {:induction false} Run2(st: State, a: char, b: char)
    ensures Run(st, [a, b]) == Step(Step(st, a), b)
  {
    assert [a, b][1..] == [b];
    Run1(Step(st, a), b);
  }

  lemma {:induction false} Run4(st: State, a: char, b: char, c: char, d: char)
    ensures Run(st, [a, b, c, d]) == Step(Step(Step(Step(st, a), b), c), d)
  {
    assert [a, b, c, d] == [a, b] + [c, d];
    RunAppend(st, [a, b], [c, d]);
    Run2(st, a, b);
    Run2(Step(Step(st, a), b), c, d);
  }

  lemma {:induction false} RunEscapeStart(st: State)
    requires Between(st.mode, '\\')
    ensures Run(st, "\\x") == st.(mode := HexStart(ReadSoFar(st.mode)))
  {
    Run2(st, '\\', 'x');
  }

  lemma {:induction false} RunHexDigits(st: State, v: string, c: char, d: char)
    requires st.mode == HexStart(v) && IsHexDigit(c) && IsHexDigit(d)
    ensures Run(st, [c, d]) == st.(mode := Hex(v, HexValue(c) * 16 + HexValue(d)))
  {
    Run2(st, c, d);
  }

  /** A two-digit escape, once the one before it (if any) has ended. */
  lemma {:induction false} RunEscape(st: State, b: Byte)
    requires Between(st.mode, '\\')
    ensures Run(st, EscapedByte(b)) == st.(mode := Hex(ReadSoFar(st.mode), b as int))
  {
    var h := Hex2(b as int);
    Hex2Read(b as int);
    RunAppend(st, "\\x", h);
    RunEscapeStart(st);
    assert h == [h[0], h[1]];
    RunHexDigits(st.(mode := HexStart(ReadSoFar(st.mode))), ReadSoFar(st.mode), h[0], h[1]);
  }

  /** Opening a literal between tokens. */
  lemma {:induction false} RunOpen(st: State)
    requires st.mode.Space? || st.mode.StrEnd?
    requires st.line.Code?
    ensures Run(st, "\n  \"") == st.(mode := InStr(""))
  {
    Run4(st, '\n', ' ', ' ', '"');
  }

  lemma {:induction false} RunClose(st: State)
    requires Between(st.mode, '"')
    ensures Run(st, "\"") == State(StrEnd, st.toks + [Str(ReadSoFar(st.mode))], st.line)
  {
    Run1(st, '"');
  }

  /** The rows printed so far; none is empty. */
  predicate NonEmptyRows(cs: seq<seq<Byte>>) {
    cs != [] && forall k :: 0 <= k < |cs| ==> cs[k] != []
  }

  /** Where the lexer stands after the rows `cs`: in the escape of the last byte. */
  function AfterRows(st: State, cs: seq<seq<Byte>>): (r: State)
    requires NonEmptyRows(cs)
    ensures Between(r.mode, '\\') && Between(r.mode, '"') && ReadSoFar(r.mode) == cs[|cs| - 1]
  {
    var k := |cs| - 1;
    var n := |cs[k]| - 1;
    assert cs[k][..n] + [cs[k][n]] == cs[k];
    State(Hex(cs[k][..n], cs[k][n] as int), st.toks + Literals(cs[..k]), Code)
  }

  lemma {:induction false} LiteralsSnoc(toks: seq<Token>, cs: seq<string>)
    requires cs != []
    ensures var k := |cs| - 1; toks + Literals(cs[..k]) + [Str(cs[k])] == toks + Literals(cs)
  {
  }

  lemma {:induction false} RunNewRow(st: State, cs: seq<seq<Byte>>, b: Byte)
    requires NonEmptyRows(cs)
    ensures Run(AfterRows(st, cs), "\"" + "\n  \"" + EscapedByte(b)) == AfterRows(st, cs + [[b]])
  {
    var mid := AfterRows(st, cs);
    RunAppend(mid, "\"" + "\n  \"", EscapedByte(b));
    RunAppend(mid, "\"", "\n  \"");
    RunClose(mid);
    var closed := State(StrEnd, st.toks + Literals(cs), Code);
    LiteralsSnoc(st.toks, cs);
    RunOpen(closed);
    RunEscape(closed.(mode := InStr("")), b);
    assert (cs + [[b]])[..|cs|] == cs && [b][..0] == [];
  }

  lemma {:induction false} RunSameRow(st: State, cs: seq<seq<Byte>>, b: Byte)
    requires NonEmptyRows(cs)
    ensures var k := |cs| - 1;
      Run(AfterRows(st, cs), EscapedByte(b)) == AfterRows(st, cs[..k] + [cs[k] + [b]])
  {
    var k := |cs| - 1;
    RunEscape(AfterRows(st, cs), b);
    assert (cs[k] + [b])[..|cs[k]|] == cs[k];
    assert (cs[..k] + [cs[k] + [b]])[..k] == cs[..k];
  }

  lemma {:induction false} RunFirstRow(st: State, b: Byte)
    requires st.mode.Space? && st.line.Code?
    ensures Run(st, "\n  \"" + EscapedByte(b)) == AfterRows(st, [[b]])
  {
    RunAppend(st, "\n  \"", EscapedByte(b));
    RunOpen(st);
    RunEscape(st.(mode := InStr("")), b);
    assert [b][..0] == [] && st.toks + Literals([[b]][..0]) == st.toks;
  }

  lemma {:induction false} ChunksAreRows(s: seq<Byte>)
    requires s != []
    ensures NonEmptyRows(Chunks(s))
    decreases |s|
  {
    if |s| > 16 {
      ChunksAreRows(s[16..]);
    }
  }

  lemma {:induction false} RunByte(st: State, t: seq<Byte>, b: Byte, cs: seq<seq<Byte>>, ds: seq<seq<Byte>>)
    requires cs == Chunks(t) && ds == Chunks(t + [b])
    requires NonEmptyRows(cs) && NonEmptyRows(ds)
    ensures Run(AfterRows(st, cs), Separator(|t|) + EscapedByte(b)) == AfterRows(st, ds)
  {
    ChunksSnoc(t, b);
    if |t| % 16 == 0 {
      assert Separator(|t|) == "\"" + "\n  \"";
      RunNewRow(st, cs, b);
    } else {
      assert Separator(|t|) + EscapedByte(b) == EscapedByte(b);
      RunSameRow(st, cs, b);
    }
  }

  lemma {:induction false} RunFirstByte(st: State, s: seq<Byte>)
    requires st.mode.Space? && st.line.Code? && |s| == 1 && NonEmptyRows(Chunks(s))
    ensures Run(st, DataBody(s)) == AfterRows(st, Chunks(s))
  {
    var b := s[0];
    assert s == [b] && Chunks(s) == [[b]];
    FirstByte(b);
    RunFirstRow(st, b);
  }

  lemma {:induction false} RunMoreBytes(st: State, t: seq<Byte>, b: Byte, cs: seq<seq<Byte>>, ds: seq<seq<Byte>>)
    requires cs == Chunks(t) && ds == Chunks(t + [b])
    requires NonEmptyRows(cs) && NonEmptyRows(ds) && Run(st, DataBody(t)) == AfterRows(st, cs)
    ensures Run(st, DataBody(t + [b])) == AfterRows(st, ds)
  {
    BodySnoc(t, b);
    RunAppend(st, DataBody(t), Separator(|t|) + EscapedByte(b));
    RunByte(st, t, b, cs, ds);
  }

  /**
   * The bytes are read back: after each one the lexer is inside its escape, in a literal
   * that holds the row so far, the full rows being literals already.
   */
  lemma {:induction false} RunBody(st: State, s: seq<Byte>)
    requires st.mode.Space? && st.line.Code? && s != []
    ensures NonEmptyRows(Chunks(s)) && Run(st, DataBody(s)) == AfterRows(st, Chunks(s))
    decreases |s|
  {
    ChunksAreRows(s);
    if |s| == 1 {
      RunFirstByte(st, s);
    } else {
      var t, b := s[..|s| - 1], s[|s| - 1];
      assert t + [b] == s;
      RunBody(st, t);
      RunMoreBytes(st, t, b, Chunks(t), Chunks(s));
    }
  }

  /** Once the last literal is closed there is one literal a row, holding its bytes. */
  lemma {:induction false} RunLiterals(st: State, s: seq<Byte>)
    requires st.mode.Space? && st.line.Code? && s != []
    ensures Run(st, DataBody(s) + "\"") == State(StrEnd, st.toks + Literals(Chunks(s)), Code)
  {
    RunAppend(st, DataBody(s), "\"");
    RunBody(st, s);
    RunClose(AfterRows(st, Chunks(s)));
    LiteralsSnoc(st.toks, Chunks(s));
  }
}
