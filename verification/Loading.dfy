/** The program the header loads to, and what its lookup function answers. */
module Loading {
  import opened Basics
  import opened Numerals
  import opened HeaderText
  import opened Lexer
  import opened Layout
  import opened Syntax
  import opened Program
  import opened Tables
  import opened Lookup
  import opened LookupText
  import opened Reading
  import opened NameValues

  // ----- identifiers

  /** The identifiers of the two loops never clash: they are told apart by kind and by number. */
  lemma {:induction false} IdentsDistinct(i: nat, k: nat)
    ensures NameId(i) == NameId(k) <==> i == k
    ensures DataId(i) == DataId(k) <==> i == k
    ensures NameId(i) != DataId(k)
  {
    if NameId(i) == NameId(k) {
      assert NameId(i)[22..] == Dec(i) && NameId(k)[22..] == Dec(k);
      DecInjective(i, k);
    }
    if DataId(i) == DataId(k) {
      assert DataId(i)[22..] == Dec(i) && DataId(k)[22..] == Dec(k);
      DecInjective(i, k);
    }
    assert NameId(i)[17] == 'n' && DataId(k)[17] == 'd';
  }

  /** `id` is one of the identifiers of file `k`. */
  predicate OfFile(id: string, k: nat) { id == NameId(k) || id == DataId(k) }

  /** All strings belong to files with a number below `i`. */
  ghost predicate Below(m: map<string, string>, i: nat) {
    forall id :: id in m ==> exists k: nat :: k < i && OfFile(id, k)
  }

  // ----- static initialization

  /** The string constants of `fs`, numbered from `i`, on top of `m`. */
  function FileStrings(m: map<string, string>, fs: seq<File>, i: nat): map<string, string>
    decreases |fs|
  {
    if fs == [] then m
    else FileStrings(m[NameId(i) := fs[0].name][DataId(i) := fs[0].contents], fs[1..], i + 1)
  }

  /** A file as the header holds it: the name is what its literal reads. */
  function ReadFile(f: File): File { File(ReadName(f.name), f.contents) }

  function ReadFiles(fs: seq<File>): (gs: seq<File>)
    ensures |gs| == |fs| && forall k :: 0 <= k < |fs| ==> gs[k] == ReadFile(fs[k])
  {
    seq(|fs|, k requires 0 <= k < |fs| => ReadFile(fs[k]))
  }

  /** A constant made from a literal alone ends at the first zero: it is the longest prefix without one. */
  lemma {:induction false} UpToZeroIs(a: string, b: string)
    requires '\0' !in a
    ensures UpToZero(a) == a && UpToZero(a + ['\0'] + b) == a
    decreases |a|
  {
    var s := a + ['\0'] + b;
    if a == "" {
      assert s[0] == '\0';
    } else {
      assert s[0] == a[0] && s[1..] == a[1..] + ['\0'] + b;
      UpToZeroIs(a[1..], b);
      assert a == [a[0]] + a[1..];
    }
  }

  lemma {:induction false} ZeroSplits(s: string) returns (a: string, b: string)
    ensures '\0' !in a && (s == a || s == a + ['\0'] + b)
    decreases |s|
  {
    a, b := "", "";
    if s != "" {
      if s[0] == '\0' {
        b := s[1..];
        assert s == "" + ['\0'] + b;
      } else {
        a, b := ZeroSplits(s[1..]);
        a := [s[0]] + a;
        assert s == [s[0]] + s[1..];
      }
    }
  }

  /** Why the data constants are given their length: without it a file would end just before its first zero byte. */
  lemma {:induction false} CountIsNeeded(s: string)
    ensures UpToZero(s) <= s && '\0' !in UpToZero(s)
    ensures UpToZero(s) == s || s[|UpToZero(s)|] == '\0'
    ensures UpToZero(s) == s <==> '\0' !in s
  {
    var a, b := ZeroSplits(s);
    UpToZeroIs(a, b);
  }

  /** And why it is their exact number: no other count makes the constant the bytes of the literal. */
  lemma {:induction false} CountIsExact(p: Program, id: string, v: string, n: nat)
    requires !Declared(p, id)
    ensures var q := Declare(p, FromArray(id, v, n));
      && (q.Accepted? <==> n <= |v| + 1)
      && (n <= |v| ==> q.value.strings == p.strings[id := v[..n]])
      && (q.Accepted? && q.value.strings[id] == v <==> n == |v|)
  {
    if n <= |v| {
      assert (v + ['\0'])[..n] == v[..n];
      assert |v[..n]| == n && v[..|v|] == v;
    } else if n == |v| + 1 {
      assert |(v + ['\0'])[..n]| == n;
    }
  }

  lemma {:induction false} BelowNext(m: map<string, string>, i: nat, x: string, y: string)
    requires Below(m, i)
    ensures NameId(i) !in m && DataId(i) !in m[NameId(i) := x]
    ensures Below(m[NameId(i) := x][DataId(i) := y], i + 1)
  {
    forall k: nat | k < i ensures !OfFile(NameId(i), k) && !OfFile(DataId(i), k) {
      IdentsDistinct(i, k);
      IdentsDistinct(k, i);
    }
    IdentsDistinct(i, i);
    assert OfFile(NameId(i), i) && OfFile(DataId(i), i);
  }

  lemma {:induction false} DeclareFile(p: Program, f: File, i: nat)
    requires p.arrays == map[] && p.functions == map[] && Below(p.strings, i)
    ensures var p1 := Declare(p, FromLiteral(NameId(i), Value(f.name)));
      p1.Accepted? && Declare(p1.value, FromArray(DataId(i), f.contents, |f.contents|)) ==
        Accepted(p.(strings := p.strings[NameId(i) := ReadName(f.name)][DataId(i) := f.contents]))
  {
    BelowNext(p.strings, i, ReadName(f.name), f.contents);
    assert (f.contents + ['\0'])[..|f.contents|] == f.contents;
  }

  lemma {:induction false} DeclareFiles(p: Program, fs: seq<File>, i: nat)
    requires p.arrays == map[] && p.functions == map[] && Below(p.strings, i)
    ensures DeclareAll(p, FileDecls(fs, i)) == Accepted(p.(strings := FileStrings(p.strings, ReadFiles(fs), i)))
    ensures Below(FileStrings(p.strings, ReadFiles(fs), i), i + |fs|)
    decreases |fs|
  {
    if fs != [] {
      var f := fs[0];
      DeclareFile(p, f, i);
      BelowNext(p.strings, i, ReadName(f.name), f.contents);
      var p2 := p.(strings := p.strings[NameId(i) := ReadName(f.name)][DataId(i) := f.contents]);
      var d1, d2 := FromLiteral(NameId(i), Value(f.name)), FromArray(DataId(i), f.contents, |f.contents|);
      assert FileDecls(fs, i)[0] == d1 && FileDecls(fs, i)[1..][0] == d2;
      assert FileDecls(fs, i)[1..][1..] == FileDecls(fs[1..], i + 1);
      DeclareFiles(p2, fs[1..], i + 1);
      assert ReadFiles(fs)[0] == ReadFile(f) && ReadFiles(fs)[1..] == ReadFiles(fs[1..]);
    }
  }

  /** Later files do not touch the strings of earlier ones. */
  lemma {:induction false} FileStringsKeep(m: map<string, string>, fs: seq<File>, i: nat, id: string, k: nat)
    requires id in m && k < i && OfFile(id, k)
    ensures var r := FileStrings(m, fs, i); id in r && r[id] == m[id]
    decreases |fs|
  {
    if fs != [] {
      IdentsDistinct(i, k);
      IdentsDistinct(k, i);
      FileStringsKeep(m[NameId(i) := fs[0].name][DataId(i) := fs[0].contents], fs[1..], i + 1, id, k);
    }
  }

  /** The constants of the file at `k` hold its name and its bytes. */
  lemma {:induction false} FileStringsAt(m: map<string, string>, fs: seq<File>, i: nat, k: nat)
    requires k < |fs|
    ensures var r := FileStrings(m, fs, i);
      && NameId(i + k) in r && r[NameId(i + k)] == fs[k].name
      && DataId(i + k) in r && r[DataId(i + k)] == fs[k].contents
    decreases |fs|
  {
    var m' := m[NameId(i) := fs[0].name][DataId(i) := fs[0].contents];
    if k == 0 {
      IdentsDistinct(i, i);
      FileStringsKeep(m', fs[1..], i + 1, NameId(i), i);
      FileStringsKeep(m', fs[1..], i + 1, DataId(i), i);
    } else {
      FileStringsAt(m', fs[1..], i + 1, k - 1);
    }
  }

  lemma {:induction false} TableRowsAt(i: nat, n: nat)
    requires i <= n
    ensures |TableRows(i, n)| == n - i + 1
    ensures forall k :: 0 <= k < n - i ==> TableRows(i, n)[k] == RowAddresses(i + k)
    ensures TableRows(i, n)[n - i] == NULL_ADDRESSES
    decreases n - i
  {
    if i < n {
      TableRowsAt(i + 1, n);
    }
  }

  /** The program of a header. */
  function ProgramOf(fs: seq<File>): Program {
    Program(FileStrings(map[], fs, 1),
            map["embedded_files" := Array("embedded_file", ["name", "data"], TableRows(1, |fs| + 1))],
            map["find_embedded_file" := FIND])
  }

  lemma {:induction false} RowsResolve(p: Program, fs: seq<File>, rows: seq<seq<Address>>)
    requires p.strings == FileStrings(map[], fs, 1) && rows == TableRows(1, |fs| + 1)
    ensures forall k :: 0 <= k < |rows| ==> RowResolves(p, 2, rows[k])
  {
    TableRowsAt(1, |fs| + 1);
    forall k | 0 <= k < |rows| ensures RowResolves(p, 2, rows[k]) {
      if k < |fs| {
        FileStringsAt(map[], fs, 1, k);
        assert rows[k] == RowAddresses(1 + k);
      }
    }
  }

  lemma {:induction false} DeclareHeader(fs: seq<File>, gs: seq<File>)
    requires gs == ReadFiles(fs)
    ensures DeclareAll(NO_PROGRAM, HeaderDecls(fs)) == Accepted(ProgramOf(gs))
  {
    var p := NO_PROGRAM.(strings := FileStrings(map[], gs, 1));
    DeclareFiles(NO_PROGRAM, fs, 1);
    DeclareAppend(NO_PROGRAM, FileDecls(fs, 1), [TableDecl(|fs|), FIND_DECL], p);
    DeclareTable(p, gs);
    var q := p.(arrays := ProgramOf(gs).arrays);
    DeclareFind(q, gs);
    DeclareTwo(p, TableDecl(|fs|), q, FIND_DECL, ProgramOf(gs));
  }

  lemma {:induction false} DeclareTwo(p: Program, d: Decl, q: Program, d': Decl, r: Program)
    requires Declare(p, d) == Accepted(q) && Declare(q, d') == Accepted(r)
    ensures DeclareAll(p, [d, d']) == Accepted(r)
  {
    assert [d'][1..] == [] && DeclareAll(r, []) == Accepted(r);
    assert DeclareAll(q, [d']) == Accepted(r);
    assert [d, d'][1..] == [d'];
  }

  lemma {:induction false} NotOfFile(id: string, k: nat)
    requires id != "" && id[0] != 't'
    ensures !OfFile(id, k)
  {
    assert NameId(k)[0] == 't' && DataId(k)[0] == 't';
  }

  lemma {:induction false} OtherNamesFree(m: map<string, string>, i: nat)
    requires Below(m, i)
    ensures "embedded_files" !in m && "find_embedded_file" !in m
  {
    forall k: nat ensures !OfFile("embedded_files", k) && !OfFile("find_embedded_file", k) {
      NotOfFile("embedded_files", k);
      NotOfFile("find_embedded_file", k);
    }
  }

  lemma {:induction false} DeclareTable(p: Program, fs: seq<File>)
    requires p == NO_PROGRAM.(strings := FileStrings(map[], fs, 1)) && Below(p.strings, 1 + |fs|)
    ensures Declare(p, TableDecl(|fs|)) == Accepted(p.(arrays := ProgramOf(fs).arrays))
  {
    OtherNamesFree(p.strings, 1 + |fs|);
    RowsResolve(p, fs, TableRows(1, |fs| + 1));
  }

  lemma {:induction false} DeclareFind(q: Program, fs: seq<File>)
    requires q == ProgramOf(fs).(functions := map[]) && Below(q.strings, 1 + |fs|)
    ensures Declare(q, FIND_DECL) == Accepted(ProgramOf(fs))
  {
    OtherNamesFree(q.strings, 1 + |fs|);
    assert "embedded_files" in q.arrays && q.arrays["embedded_files"].tag == "embedded_file";
    assert TagDeclared(q, "embedded_file");
    assert forall i :: 0 <= i < |FIND.locals| ==> TagDeclared(q, FIND.locals[i].tag);
  }

  /** The order counts: a table before its constants is not accepted. */
  lemma {:induction false} TableComesLast(fs: seq<File>)
    requires fs != []
    ensures !DeclareAll(NO_PROGRAM, [TableDecl(|fs|)] + FileDecls(fs, 1)).Accepted?
  {
    var rows := TableRows(1, |fs| + 1);
    TableRowsAt(1, |fs| + 1);
    assert rows[0] == RowAddresses(1) && !Resolves(NO_PROGRAM, rows[0][0]);
    assert !RowResolves(NO_PROGRAM, 2, rows[0]);
    assert ([TableDecl(|fs|)] + FileDecls(fs, 1))[0] == TableDecl(|fs|);
  }

  /** So do the numbers: definitions printed twice with the same ones are ill-formed. */
  lemma {:induction false} NumbersAreNeeded(fs: seq<File>)
    requires fs != []
    ensures DeclareAll(NO_PROGRAM, FileDecls(fs, 1) + FileDecls(fs, 1)) == IllFormed
  {
    var p := NO_PROGRAM.(strings := FileStrings(map[], ReadFiles(fs), 1));
    DeclareFiles(NO_PROGRAM, fs, 1);
    DeclareAppend(NO_PROGRAM, FileDecls(fs, 1), FileDecls(fs, 1), p);
    FileStringsAt(map[], ReadFiles(fs), 1, 0);
    assert FileDecls(fs, 1)[0].id == NameId(1);
  }

  /** A header whose names are literals is well-formed; its constants, table and function are these. */
  lemma {:induction false} HeaderLoads(fs: seq<File>)
    requires AllPrintable(fs)
    ensures Translate(Header(fs)) == Accepted(ProgramOf(ReadFiles(fs)))
  {
    HeaderDeclares(fs);
    DeclareHeader(fs, ReadFiles(fs));
  }

  /** The table of the header is one its lookup function can scan. */
  lemma {:induction false} HeaderHasTable(fs: seq<File>)
    ensures HasTable(ProgramOf(fs), TableRows(1, |fs| + 1))
  {
    RowsResolve(ProgramOf(fs), fs, TableRows(1, |fs| + 1));
  }

  // ----- what it answers

  /** The bytes of the first file of that name. */
  function FirstMatch(fs: seq<File>, name: string): Option<string> {
    if fs == [] then None
    else if fs[0].name == name then Some(fs[0].contents)
    else FirstMatch(fs[1..], name)
  }

  function AnswerOf(m: Option<string>): Answer { if m.Some? then Hit(m.value) else Miss }

  lemma {:induction false} SearchIsFirstMatch(fs: seq<File>, k: nat, name: string)
    requires k <= |fs| && HasTable(ProgramOf(fs), TableRows(1, |fs| + 1))
    ensures Search(ProgramOf(fs), TableRows(1, |fs| + 1), k, name) == AnswerOf(FirstMatch(fs[k..], name))
    decreases |fs| - k
  {
    TableRowsAt(1, |fs| + 1);
    if k < |fs| {
      FileStringsAt(map[], fs, 1, k);
      assert fs[k..][0] == fs[k] && fs[k..][1..] == fs[k + 1..];
      assert TableRows(1, |fs| + 1)[k] == RowAddresses(1 + k);
      SearchIsFirstMatch(fs, k + 1, name);
    }
  }
}
