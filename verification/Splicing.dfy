/** Physical lines of the header: only names can hold a backslash at the end of a line. */
module Splicing {
  import opened Basics
  import opened Numerals
  import opened HeaderText
  import opened Lexer
  import opened Lacking
  import opened NameValues

  function SpliceFile(f: File): File { File(SpliceName(f.name), f.contents) }

  function SpliceFiles(fs: seq<File>): (gs: seq<File>)
    ensures |gs| == |fs| && forall k :: 0 <= k < |fs| ==> gs[k] == SpliceFile(fs[k])
  {
    seq(|fs|, k requires 0 <= k < |fs| => SpliceFile(fs[k]))
  }

  /** A text without backslashes that does not start with a newline: it is not spliced, nor does it help to splice. */
  predicate Rigid(s: string) { '\\' !in s && s != "" && s[0] != '\n' }

  lemma {:induction false} SpliceAround(a: string, s: string, b: string)
    requires Rigid(a) && Rigid(b)
    ensures Splice(a + s + b) == a + Splice(s) + b
  {
    SpliceKeeps(a);
    SpliceKeeps(b);
    SpliceAppend(a, s);
    SpliceAppend(a + s, b);
  }

  lemma {:induction false} HexRigid(b: Byte)
    ensures Splice(EscapedByte(b)) == EscapedByte(b) && |EscapedByte(b)| == 4
    ensures EscapedByte(b)[0] == '\\' && EscapedByte(b)[3] != '\\'
  {
    var e, h := EscapedByte(b), Hex2(b as int);
    Hex2Read(b as int);
    assert e == ['\\', 'x', h[0], h[1]];
    assert e[1..] == ['x', h[0], h[1]];
    SpliceKeeps(e[1..]);
    assert [e[0]] + e[1..] == e;
  }

  lemma {:induction false} BodyKept(s: seq<Byte>)
    ensures Splice(DataBody(s)) == DataBody(s) && (s != [] ==> DataBody(s) != "" && DataBody(s)[|DataBody(s)| - 1] != '\\')
    decreases |s|
  {
    if s != [] {
      var n := |s| - 1;
      BodyKept(s[..n]);
      SeparatorLacks(n, '\\');
      SpliceKeeps(Separator(n));
      HexRigid(s[n]);
      SpliceAppend(DataBody(s[..n]), Separator(n));
      var a := DataBody(s[..n]) + Separator(n);
      SpliceAppend(a, EscapedByte(s[n]));
      assert DataBody(s) == a + EscapedByte(s[n]);
    }
  }

  lemma {:induction false} LinesRigid(i: nat, n: nat)
    ensures Rigid(NamePrefix(i)) && Rigid(DataOpen(i)) && Rigid(DataClose(n))
  {
    NamePrefixLacks(i, '\\');
    DataOpenLacks(i, '\\');
    DataCloseLacks(n, '\\');
    NamePrefixLacks(i, '\n');
    DataOpenLacks(i, '\n');
    assert NamePrefix(i)[0] in NamePrefix(i) && DataOpen(i)[0] in DataOpen(i);
    assert DataClose(n)[0] == '"';
  }

  /** A name keeps its place between its quotes. */
  lemma {:induction false} SpliceNameDecl(i: nat, name: CString)
    ensures Splice(NameDecl(i, name)) == NameDecl(i, SpliceName(name))
  {
    LinesRigid(i, 0);
    assert Rigid("\";\n");
    SpliceAround(NamePrefix(i), name, "\";\n");
  }

  lemma {:induction false} SpliceDataDecl(i: nat, s: seq<Byte>)
    ensures Splice(DataOpen(i) + DataBody(s) + DataClose(|s|)) == DataOpen(i) + DataBody(s) + DataClose(|s|)
  {
    LinesRigid(i, |s|);
    BodyKept(s);
    SpliceAround(DataOpen(i), DataBody(s), DataClose(|s|));
  }

  lemma PartsShape(n: string, o: string, b: string, c: string)
    ensures n + o + b + c == n + (o + b + c)
  {
  }

  lemma {:induction false} SpliceParts(n: string, o: string, b: string, c: string)
    requires Rigid(o) && Splice(o + b + c) == o + b + c
    ensures Splice(n + o + b + c) == Splice(n) + o + b + c
  {
    PartsShape(n, o, b, c);
    PartsShape(Splice(n), o, b, c);
    SpliceAppend(n, o + b + c);
  }

  lemma {:induction false} SpliceDefinition(i: nat, f: File)
    ensures Splice(Definition(i, f)) == Definition(i, SpliceFile(f))
  {
    SpliceNameDecl(i, f.name);
    SpliceDataDecl(i, f.contents);
    LinesRigid(i, 0);
    SpliceParts(NameDecl(i, f.name), DataOpen(i), DataBody(f.contents), DataClose(|f.contents|));
  }

  /** Neither the end of a definition nor the start of what follows it is spliced. */
  lemma {:induction false} DefinitionEnds(i: nat, f: File)
    ensures Definition(i, f) != "" && Definition(i, f)[|Definition(i, f)| - 1] != '\\'
  {
    LinesRigid(i, |f.contents|);
    var c := DataClose(|f.contents|);
    assert Definition(i, f)[|Definition(i, f)| - 1] == c[|c| - 1];
  }

  lemma {:induction false} SpliceDefinitions(fs: seq<File>, i: nat, rest: string)
    ensures Splice(Definitions(fs, i) + rest) == Definitions(SpliceFiles(fs), i) + Splice(rest)
    decreases |fs|
  {
    if fs == [] {
      assert "" + rest == rest && "" + Splice(rest) == Splice(rest);
    } else {
      var d, more := Definition(i, fs[0]), Definitions(fs[1..], i + 1);
      SpliceDefinition(i, fs[0]);
      DefinitionEnds(i, fs[0]);
      SpliceDefinitions(fs[1..], i + 1, rest);
      Assoc(d, more, rest);
      SpliceAppend(d, more + rest);
      SpliceUnfold(fs, i, rest);
    }
  }

  lemma {:induction false} SpliceUnfold(fs: seq<File>, i: nat, rest: string)
    requires fs != []
    ensures Definitions(SpliceFiles(fs), i) + Splice(rest) ==
      Definition(i, SpliceFile(fs[0])) + (Definitions(SpliceFiles(fs[1..]), i + 1) + Splice(rest))
  {
    assert SpliceFiles(fs)[1..] == SpliceFiles(fs[1..]);
    Assoc(Definition(i, SpliceFile(fs[0])), Definitions(SpliceFiles(fs[1..]), i + 1), Splice(rest));
  }

  // ----- the whole header

  /** The text before the table: all of it, or what is left when a file cannot be opened. */
  lemma {:induction false} SpliceStart(fs: seq<File>, rest: string)
    requires '\\' !in rest
    ensures Splice(PROLOGUE + Definitions(fs, 1) + rest) == PROLOGUE + Definitions(SpliceFiles(fs), 1) + rest
  {
    PrologueLacks('\\');
    SpliceKeptAround(PROLOGUE, fs, rest);
  }

  lemma {:induction false} SpliceKeptAround(p: string, fs: seq<File>, rest: string)
    requires '\\' !in p && '\\' !in rest
    ensures Splice(p + Definitions(fs, 1) + rest) == p + Definitions(SpliceFiles(fs), 1) + rest
  {
    SpliceKeeps(p);
    SpliceKeeps(rest);
    Assoc(p, Definitions(fs, 1), rest);
    SpliceAppend(p, Definitions(fs, 1) + rest);
    SpliceDefinitions(fs, 1, rest);
    Assoc(p, Definitions(SpliceFiles(fs), 1), rest);
  }

  /** Splicing the header is splicing the names in it. */
  lemma {:induction false} SpliceHeader(fs: seq<File>)
    ensures Splice(Header(fs)) == Header(SpliceFiles(fs))
  {
    ClosingLacks(|fs|, '\\');
    SpliceStart(fs, Closing(|fs|));
  }
}
