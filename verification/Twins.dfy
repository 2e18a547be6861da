/** A list that is not tight has a twin, and which headers belong to one list only. */
module Twins {
  import opened Basics
  import opened Numerals
  import opened HeaderText
  import opened Numbering
  import opened Injectivity
  import opened Uniqueness

  // ----- the text between names may stand in an argument

  predicate IsArgument(s: string) { forall i :: 0 <= i < |s| ==> 0 < s[i] as int < 256 }

  function AsName(s: string): (r: CString)
    requires IsArgument(s)
    ensures r == s
  {
    s
  }

  lemma {:induction false} ArgumentAppend(a: string, b: string)
    ensures IsArgument(a + b) <==> IsArgument(a) && IsArgument(b)
  {
    var s := a + b;
    assert forall i :: 0 <= i < |a| ==> s[i] == a[i];
    assert forall i :: 0 <= i < |b| ==> s[|a| + i] == b[i];
  }

  lemma {:induction false} DecIsArgument(n: nat)
    ensures IsArgument(Dec(n))
  {
    DecRead(n);
  }

  lemma {:induction false} BodyIsArgument(s: seq<Byte>)
    ensures IsArgument(DataBody(s))
    decreases |s|
  {
    if s != [] {
      var n := |s| - 1;
      BodyIsArgument(s[..n]);
      var h := Hex2(s[n] as int);
      Hex2Read(s[n] as int);
      assert EscapedByte(s[n]) == ['\\', 'x', h[0], h[1]];
      assert IsArgument(EscapedByte(s[n])) && IsArgument(Separator(n));
    }
  }

  lemma {:induction false} ConstantHead(kind: string, i: nat)
    requires IsArgument(kind)
    ensures IsArgument("static const std::string " + kind + Dec(i))
  {
    assert IsArgument("static const std::string ");
    ArgumentAppend("static const std::string ", kind);
    DecIsArgument(i);
    ArgumentAppend("static const std::string " + kind, Dec(i));
  }

  lemma {:induction false} DataOpenIsArgument(i: nat)
    ensures IsArgument(DataOpen(i))
  {
    assert IsArgument("translation_file_data_");
    ConstantHead("translation_file_data_", i);
    assert "static const std::string translation_file_data_" == "static const std::string " + "translation_file_data_";
    assert IsArgument(" = std::string(");
    ArgumentAppend("static const std::string translation_file_data_" + Dec(i), " = std::string(");
  }

  lemma {:induction false} NamePrefixIsArgument(i: nat)
    ensures IsArgument(NamePrefix(i))
  {
    assert IsArgument("translation_file_name_");
    ConstantHead("translation_file_name_", i);
    assert "static const std::string translation_file_name_" == "static const std::string " + "translation_file_name_";
    assert IsArgument(" = \"");
    ArgumentAppend("static const std::string translation_file_name_" + Dec(i), " = \"");
  }

  lemma {:induction false} DataCloseIsArgument(n: nat)
    ensures IsArgument(DataClose(n))
  {
    DecIsArgument(n);
    assert IsArgument("\",\n  ") && IsArgument(");\n\n");
    ArgumentAppend("\",\n  ", Dec(n));
    ArgumentAppend("\",\n  " + Dec(n), ");\n\n");
  }

  lemma {:induction false} SeamTailIsArgument(i: nat, c: Contents)
    ensures IsArgument(SeamTail(i, c))
  {
    assert IsArgument(";\n");
    DataOpenIsArgument(i);
    ArgumentAppend(";\n", DataOpen(i));
    BodyIsArgument(c);
    DataCloseIsArgument(|c|);
    ArgumentAppend(DataBody(c), DataClose(|c|));
    NamePrefixIsArgument(i + 1);
    ArgumentAppend(DataBody(c) + DataClose(|c|), NamePrefix(i + 1));
    ArgumentAppend(";\n" + DataOpen(i), DataBody(c) + DataClose(|c|) + NamePrefix(i + 1));
  }

  // ----- cutting two definitions in another way

  /** The first two files of `fs` with other names and with the bytes `c` for the first. */
  function Recut(fs: seq<File>, x: CString, c: Contents, y: CString): (gs: seq<File>)
    requires |fs| >= 2
  {
    [File(x, c), File(y, fs[1].contents)] + fs[2..]
  }

  lemma {:induction false} RecutParts(fs: seq<File>, x: CString, c: Contents, y: CString, i: nat)
    requires |fs| >= 2
    ensures var gs := Recut(fs, x, c, y);
      |gs| == |fs| && gs[0] == File(x, c) && gs[1].name == y && After(gs[1..], i) == After(fs[1..], i)
  {
    var gs := Recut(fs, x, c, y);
    assert gs[1..][0] == gs[1] && fs[1..][0] == fs[1];
    assert gs[1..][1..] == fs[2..] == fs[1..][1..];
  }

  lemma TwoNamesShape(p: string, n: string, q: string, b: string, m: string, z: string)
    ensures p + (n + (q + (b + (m + z)))) == p + ((n + (q + b) + m) + z)
  {
  }

  lemma {:induction false} TwoNames(fs: seq<File>, i: nat)
    requires |fs| >= 2
    ensures Definitions(fs, i) ==
      NamePrefix(i) + ((fs[0].name + Seam(i, fs[0].contents) + fs[1].name) + ("\"" + After(fs[1..], i + 1)))
  {
    DefinitionsAfter(fs, i);
    AfterIsSeam(fs, i);
    TwoNamesShape(NamePrefix(i), fs[0].name, "\"", SeamTail(i, fs[0].contents), fs[1].name, "\"" + After(fs[1..], i + 1));
  }

  lemma {:induction false} RecutReads(fs: seq<File>, x: CString, c: Contents, y: CString, i: nat)
    requires |fs| >= 2 && fs[0].name + Seam(i, fs[0].contents) + fs[1].name == x + Seam(i, c) + y
    ensures Definitions(Recut(fs, x, c, y), i) == Definitions(fs, i)
  {
    var gs := Recut(fs, x, c, y);
    RecutParts(fs, x, c, y, i + 1);
    TwoNames(fs, i);
    TwoNames(gs, i);
  }

  lemma {:induction false} OccursAt(t: string, s: string) returns (x: string, y: string)
    requires Occurs(t, s)
    ensures s == x + t + y
    decreases |s|
  {
    if t <= s {
      x, y := "", s[|t|..];
      assert s == t + y && "" + t == t;
    } else {
      var x', y' := OccursAt(t, s[1..]);
      x, y := [s[0]] + x', y';
      assert s == [s[0]] + s[1..];
    }
  }

  lemma CutLeft(left: string, q: string, b: string, right: string, x: string, s: string, y: string)
    requires left + q == x + s + y
    ensures left + (q + b) + right == x + s + (y + b + right)
  {
    assert left + (q + b) + right == (left + q) + (b + right);
    assert (x + s + y) + (b + right) == x + s + (y + b + right);
  }

  lemma CutRight(left: string, q: string, v: string, right: string, x: string, s: string, y: string)
    requires q + right == x + s + y
    ensures left + (q + (v + q)) + right == (left + q + v + x) + s + y
  {
    assert left + (q + (v + q)) + right == (left + q + v) + (q + right);
    assert (left + q + v) + (x + s + y) == (left + q + v + x) + s + y;
  }

  /** The seam stands in the left name: that name is cut before it, the rest goes to the right one. */
  lemma {:induction false} SeamInLeft(i: nat, left: CString, c: Contents, right: CString, d: Contents)
    returns (x: CString, y: CString)
    requires Occurs(Seam(i, d), left + "\"")
    ensures x != left && left + Seam(i, c) + right == x + Seam(i, d) + y
  {
    var x', y' := OccursAt(Seam(i, d), left + "\"");
    CutLeft(left, "\"", SeamTail(i, c), right, x', Seam(i, d), y');
    assert IsArgument(left) && IsArgument(right) && IsArgument("\"");
    SeamTailIsArgument(i, c);
    ArgumentAppend(left, "\"");
    ArgumentAppend(x', Seam(i, d));
    ArgumentAppend(x' + Seam(i, d), y');
    ArgumentAppend(y', SeamTail(i, c));
    ArgumentAppend(y' + SeamTail(i, c), right);
    x, y := AsName(x'), AsName(y' + SeamTail(i, c) + right);
    SeamTailEnds(i, d);
    assert |left + "\""| == |x'| + |Seam(i, d)| + |y'| && |Seam(i, d)| >= 2;
  }

  /** The seam stands in the right name: the left name takes what comes before it. */
  lemma {:induction false} SeamInRight(i: nat, left: CString, c: Contents, right: CString, d: Contents)
    returns (x: CString, y: CString)
    requires Occurs(Seam(i, d), "\"" + right)
    ensures x != left && left + Seam(i, c) + right == x + Seam(i, d) + y
  {
    var x', y' := OccursAt(Seam(i, d), "\"" + right);
    SeamTailEnds(i, c);
    var v := SeamTail(i, c)[..|SeamTail(i, c)| - 1];
    assert SeamTail(i, c) == v + "\"";
    CutRight(left, "\"", v, right, x', Seam(i, d), y');
    assert IsArgument(left) && IsArgument(right) && IsArgument("\"");
    SeamTailIsArgument(i, c);
    ArgumentAppend(v, "\"");
    ArgumentAppend("\"", right);
    ArgumentAppend(x', Seam(i, d));
    ArgumentAppend(x' + Seam(i, d), y');
    ArgumentAppend(left, "\"");
    ArgumentAppend(left + "\"", v);
    ArgumentAppend(left + "\"" + v, x');
    x, y := AsName(left + "\"" + v + x'), AsName(y');
    assert |left + "\"" + v + x'| > |left|;
  }

  lemma {:induction false} SeamCuts(i: nat, left: CString, c: Contents, right: CString, d: Contents)
    returns (x: CString, y: CString)
    requires SeamStands(i, d, left, right)
    ensures x != left && left + Seam(i, c) + right == x + Seam(i, d) + y
  {
    if Occurs(Seam(i, d), left + "\"") {
      x, y := SeamInLeft(i, left, c, right, d);
    } else {
      x, y := SeamInRight(i, left, c, right, d);
    }
  }

  lemma {:induction false} AmbiguousHasTwin(fs: seq<File>, i: nat) returns (gs: seq<File>)
    requires |fs| >= 2 && Ambiguous(i, fs[0].name, fs[1].name)
    ensures |gs| == |fs| && gs != fs && Definitions(gs, i) == Definitions(fs, i)
  {
    var d: Contents :| SeamStands(i, d, fs[0].name, fs[1].name);
    var x, y := SeamCuts(i, fs[0].name, fs[0].contents, fs[1].name, d);
    gs := Recut(fs, x, d, y);
    RecutReads(fs, x, d, y, i);
    assert gs[0].name == x;
  }

  lemma {:induction false} LooseHasTwin(fs: seq<File>, i: nat) returns (gs: seq<File>)
    requires !Tight(fs, i)
    ensures |gs| == |fs| && gs != fs && Definitions(gs, i) == Definitions(fs, i)
    decreases |fs|
  {
    if Ambiguous(i, fs[0].name, fs[1].name) {
      gs := AmbiguousHasTwin(fs, i);
    } else {
      var hs := LooseHasTwin(fs[1..], i + 1);
      gs := [fs[0]] + hs;
      assert gs[1..] == hs;
    }
  }

  // ----- the table tells the number of files

  /** The text up to the rows, and what is printed after them. */
  function BeforeRows(fs: seq<File>): string { Definitions(fs, 1) + TABLE_OPEN }

  lemma HeaderRowsShape(p: string, d: string, o: string, r: string, c: string, l: string, n: string, e: string)
    ensures p + d + (o + r + c + l + n + e) == p + ((d + o + r) + (c + l + n + e))
  {
  }

  const AFTER_ROWS := TABLE_CLOSE + LOOKUP + "\n" + EPILOGUE

  lemma {:induction false} HeaderRows(fs: seq<File>, tail: string)
    requires tail == AFTER_ROWS
    ensures Header(fs) == PROLOGUE + ((BeforeRows(fs) + Rows(1, |fs| + 1)) + tail)
  {
    HeaderRowsShape(PROLOGUE, Definitions(fs, 1), TABLE_OPEN, Rows(1, |fs| + 1), TABLE_CLOSE, LOOKUP, "\n", EPILOGUE);
  }

  lemma CutMiddle(p: string, a: string, b: string, t: string)
    requires p + (a + t) == p + (b + t)
    ensures a == b
  {
    CancelLeft(p, a + t, b + t);
    CancelRight(a, b, t);
  }

  lemma {:induction false} RowsCut(xs: seq<File>, ys: seq<File>)
    requires Header(xs) == Header(ys)
    ensures BeforeRows(xs) + Rows(1, |xs| + 1) == BeforeRows(ys) + Rows(1, |ys| + 1)
  {
    var tail := AFTER_ROWS;
    HeaderRows(xs, tail);
    HeaderRows(ys, tail);
    CutMiddle(PROLOGUE, BeforeRows(xs) + Rows(1, |xs| + 1), BeforeRows(ys) + Rows(1, |ys| + 1), tail);
  }

  lemma LastRowShape(b: string, r: string, h: string, d: string, m: string, u: string, e: string)
    ensures b + (r + (h + d + (m + u) + d + e)) == (b + r + h + d + m) + (u + d) + e
  {
  }

  /** The rows of one file or more end in the number of the last. */
  lemma {:induction false} RowsEnd(b: string, n: nat) returns (x: string)
    requires n > 0
    ensures b + Rows(1, n + 1) == x + ("_" + Dec(n)) + "},\n"
  {
    RowsSnoc(1, n, n + 1);
    assert ", &translation_file_data_" == ", &translation_file_data" + "_";
    LastRowShape(b, Rows(1, n), "  {&translation_file_name_", Dec(n), ", &translation_file_data", "_", "},\n");
    x := b + Rows(1, n) + "  {&translation_file_name_" + Dec(n) + ", &translation_file_data";
  }

  /** Without rows the text ends in the brace of the table. */
  lemma NoRowsEnd(d: string, x: string)
    ensures d + TABLE_OPEN + "" != x + "},\n"
  {
    assert "} embedded_files[] = {\n" == "} embedded_files[] = " + "{\n";
    var fields := "  const std::string *name;\n" + "  const std::string *data;\n";
    LastTwo(d + ("static const struct embedded_file {\n" + fields) + "} embedded_files[] = ", "{\n");
    LastTwo(x + "}", ",\n");
    NoRowsShape(d, "static const struct embedded_file {\n", "  const std::string *name;\n",
      "  const std::string *data;\n", "} embedded_files[] = ", "{\n");
    assert x + "},\n" == (x + "}") + ",\n";
  }

  lemma LastTwo(a: string, e: string)
    requires |e| == 2
    ensures |a + e| >= 2 && (a + e)[|a + e| - 2] == e[0]
  {
  }

  lemma NoRowsShape(d: string, s: string, n: string, t: string, a: string, e: string)
    ensures d + (s + (n + (t + (a + e)))) + "" == (d + (s + (n + t)) + a) + e
  {
  }

  lemma CutAtLast(x: string, a: string, y: string, b: string)
    requires x + ("_" + a) == y + ("_" + b) && '_' !in a && '_' !in b
    ensures a == b
  {
    var s := x + ("_" + a);
    assert s[|x|] == '_' && s[|y|] == '_';
    forall k | |x| < k < |s|
      ensures s[k] != '_'
    {
      assert s[k] == a[k - |x| - 1];
    }
    forall k | |y| < k < |s|
      ensures s[k] != '_'
    {
      assert s[k] == b[k - |y| - 1];
    }
    assert a == s[|x| + 1..] && b == s[|y| + 1..];
  }

  lemma {:induction false} SameRows(b: string, m: nat, d: string, n: nat)
    requires m > 0 && n > 0 && b + Rows(1, m + 1) == d + Rows(1, n + 1)
    ensures m == n
  {
    var x := RowsEnd(b, m);
    var y := RowsEnd(d, n);
    CancelRight(x + ("_" + Dec(m)), y + ("_" + Dec(n)), "},\n");
    DecRead(m);
    DecRead(n);
    CutAtLast(x, Dec(m), y, Dec(n));
    DecInjective(m, n);
  }

  lemma {:induction false} RowsOrNone(d: string, b: string, n: nat)
    requires n > 0
    ensures d + TABLE_OPEN + Rows(1, 1) != b + Rows(1, n + 1)
  {
    var x := RowsEnd(b, n);
    NoRowsEnd(d, x + ("_" + Dec(n)));
    assert Rows(1, 1) == "";
  }

  lemma {:induction false} RowsTellCount(d: string, m: nat, e: string, n: nat)
    requires d + TABLE_OPEN + Rows(1, m + 1) == e + TABLE_OPEN + Rows(1, n + 1)
    ensures m == n
  {
    if m > 0 && n > 0 {
      SameRows(d + TABLE_OPEN, m, e + TABLE_OPEN, n);
    } else if m > 0 {
      RowsOrNone(e, d + TABLE_OPEN, m);
    } else if n > 0 {
      RowsOrNone(d, e + TABLE_OPEN, n);
    }
  }

  lemma {:induction false} FilesCounted(xs: seq<File>, ys: seq<File>)
    requires BeforeRows(xs) + Rows(1, |xs| + 1) == BeforeRows(ys) + Rows(1, |ys| + 1)
    ensures |xs| == |ys|
  {
    RowsTellCount(Definitions(xs, 1), |xs|, Definitions(ys, 1), |ys|);
  }

  lemma {:induction false} CountsAgree(xs: seq<File>, ys: seq<File>)
    requires Header(xs) == Header(ys)
    ensures |xs| == |ys|
  {
    RowsCut(xs, ys);
    FilesCounted(xs, ys);
  }

  lemma {:induction false} SameDefinitions(xs: seq<File>, ys: seq<File>)
    requires Header(xs) == Header(ys)
    ensures |xs| == |ys| && Definitions(xs, 1) == Definitions(ys, 1)
  {
    CountsAgree(xs, ys);
    CancelRight(PROLOGUE + Definitions(xs, 1), PROLOGUE + Definitions(ys, 1), Closing(|xs|));
    CancelLeft(PROLOGUE, Definitions(xs, 1), Definitions(ys, 1));
  }

  // ----- the results

  lemma {:induction false} TightIsUnique(fs: seq<File>, gs: seq<File>)
    requires Tight(fs, 1) && Header(gs) == Header(fs)
    ensures gs == fs
  {
    SameDefinitions(gs, fs);
    if gs != fs {
      DifferentMeansLoose(fs, gs, 1);
    }
  }

  lemma {:induction false} LooseIsNotUnique(fs: seq<File>)
    requires !Tight(fs, 1)
    ensures !Unique(fs)
  {
    var gs := LooseHasTwin(fs, 1);
    assert Header(gs) == Header(fs);
  }

  /** The header belongs to one list only if and only if no seam between two neighbours stands in their names. */
  lemma {:induction false} UniqueIffTight(fs: seq<File>)
    ensures Unique(fs) <==> Tight(fs, 1)
  {
    if Tight(fs, 1) {
      forall gs: seq<File> | Header(gs) == Header(fs)
        ensures gs == fs
      {
        TightIsUnique(fs, gs);
      }
    } else {
      LooseIsNotUnique(fs);
    }
  }

  lemma EndsOf(x: string, t: string, y: string)
    requires |t| >= 2
    ensures var s := x + t + y; |x| + |t| <= |s| && s[|x|] == t[0] && s[|x| + |t| - 1] == t[|t| - 1]
  {
  }

  lemma {:induction false} SeamNeedsQuotes(i: nat, c: Contents, s: string, k: nat)
    requires forall j :: 0 <= j < |s| && j != k ==> s[j] != '"'
    ensures !Occurs(Seam(i, c), s)
  {
    if Occurs(Seam(i, c), s) {
      SeamTailEnds(i, c);
      var x, y := OccursAt(Seam(i, c), s);
      EndsOf(x, Seam(i, c), y);
    }
  }

  lemma {:induction false} NotAmbiguous(i: nat, left: string, right: string)
    requires '"' !in left && '"' !in right
    ensures !Ambiguous(i, left, right)
  {
    forall c: Contents
      ensures !SeamStands(i, c, left, right)
    {
      SeamNeedsQuotes(i, c, left + "\"", |left|);
      SeamNeedsQuotes(i, c, "\"" + right, 0);
    }
  }

  lemma {:induction false} NoQuotesTight(fs: seq<File>, i: nat)
    requires NoQuotes(fs)
    ensures Tight(fs, i)
    decreases |fs|
  {
    if |fs| >= 2 {
      NotAmbiguous(i, fs[0].name, fs[1].name);
      NoQuotesTight(fs[1..], i + 1);
    }
  }

  /** A list without quotes in its names shares its header with no other list, whatever names that has. */
  lemma {:induction false} HeaderInjective(xs: seq<File>, ys: seq<File>)
    requires NoQuotes(xs) && Header(xs) == Header(ys)
    ensures xs == ys
  {
    NoQuotesTight(xs, 1);
    TightIsUnique(xs, ys);
  }

  lemma {:induction false} SeamInName(y: CString, d: Contents, z: CString) returns (name: CString)
    ensures name == y + Seam(1, d) + z && Occurs(Seam(1, d), "\"" + name)
  {
    SeamTailIsArgument(1, d);
    assert IsArgument("\"") && IsArgument(y) && IsArgument(z);
    ArgumentAppend("\"", SeamTail(1, d));
    ArgumentAppend(y, Seam(1, d));
    ArgumentAppend(y + Seam(1, d), z);
    name := AsName(y + Seam(1, d) + z);
    assert "\"" + name == ("\"" + y) + Seam(1, d) + z;
    OccursIn("\"" + y, Seam(1, d), z, "\"" + name);
  }

  lemma {:induction false} TwoFilesLoose(f: File, g: File, d: Contents) returns (fs: seq<File>)
    requires Occurs(Seam(1, d), "\"" + g.name)
    ensures |fs| == 2 && fs[0] == f && fs[1] == g && !Tight(fs, 1)
  {
    fs := [f, g];
    assert SeamStands(1, d, f.name, g.name);
    SeamLoosens(fs, 1, d);
  }

  /** It takes two files: any names and bytes around a seam in the second name. */
  lemma {:induction false} QuotesCollide(x: CString, c: Contents, y: CString, d: Contents, z: CString, e: Contents)
    returns (fs: seq<File>)
    ensures |fs| == 2 && fs[0] == File(x, c) && fs[1].name == y + Seam(1, d) + z && fs[1].contents == e
    ensures !Unique(fs)
  {
    var name := SeamInName(y, d, z);
    fs := TwoFilesLoose(File(x, c), File(name, e), d);
    LooseIsNotUnique(fs);
  }
}
