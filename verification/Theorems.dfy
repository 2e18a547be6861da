/** The main results: what the header promises to the program that includes it. */
module Theorems {
  import opened Basics
  import opened HeaderText
  import opened Lexer
  import opened Layout
  import opened Syntax
  import opened Program
  import M = Machine
  import opened Lookup
  import opened Tables
  import opened Reading
  import opened Loading
  import opened NameValues
  import opened Splicing
  import opened Meaning
  import opened Spellings

  /** A call of the lookup function of a source text. */
  function Ask(text: string, name: string, data: string, fuel: nat): Verdict<M.Call> {
    var p :- Load(text);
    Accepted(M.Invoke(p, "find_embedded_file", [name, data], fuel))
  }

  /** How a call ends when the bytes to be found are `m`: `data` is untouched if there are none. */
  function Result(m: Option<string>, name: string, data: string): M.Call {
    M.Done(M.Truth(m.Some?), [Some(M.Text(name)), Some(M.Text(if m.Some? then m.value else data))])
  }

  lemma {:induction false} FindInProgram(fs: seq<File>, name: string, data: string, fuel: nat)
    requires fuel >= |fs| + 1
    ensures M.Invoke(ProgramOf(fs), "find_embedded_file", [name, data], fuel) == Result(FirstMatch(fs, name), name, data)
  {
    HeaderHasTable(fs);
    TableRowsAt(1, |fs| + 1);
    CallSearches(ProgramOf(fs), TableRows(1, |fs| + 1), name, data, fuel);
    SearchIsFirstMatch(fs, 0, name);
    assert fs[0..] == fs;
  }

  lemma {:induction false} MeantLength(fs: seq<File>, gs: seq<File>)
    requires FilesVerdict(fs) == Accepted(gs)
    ensures |gs| == |fs|
    decreases |fs|
  {
    if fs != [] {
      MeantLength(fs[1..], gs[1..]);
    }
  }

  /**
   * What a lookup finds in the header of any list whose names hold no quotes: the bytes of
   * the first file whose name reads as the name asked for.
   */
  lemma {:induction false} LookupFinds(fs: seq<File>, gs: seq<File>, name: string, data: string, fuel: nat)
    requires NoQuotes(fs) && Meant(fs) == Accepted(gs) && fuel >= |fs| + 1
    ensures Ask(Header(fs), name, data, fuel) == Accepted(Result(FirstMatch(gs, name), name, data))
  {
    HeaderMeans(fs);
    MeantLength(SpliceFiles(fs), gs);
    FindInProgram(gs, name, data, fuel);
  }

  /** File `g` is what the definition of `f` stands for: its name is what the elements of the printed name read. */
  ghost predicate StandsFor(g: File, f: File) {
    && f.contents != [] && g.contents == f.contents
    && exists v: string :: IsSpelled(Splice(f.name), v) && g.name == UpToZero(v)
  }

  lemma {:induction false} FileIsBySpelling(f: File, g: File)
    requires '"' !in f.name
    ensures FileVerdict(SpliceFile(f)) == Accepted(g) <==> StandsFor(g, f)
  {
    var s := SpliceName(f.name);
    SplicePart(f.name);
    VerdictOfClosing(s);
    if FileVerdict(SpliceFile(f)) == Accepted(g) {
      ReadsIffSpelled(s, Value(s));
    }
    if StandsFor(g, f) {
      var v :| IsSpelled(s, v) && g.name == UpToZero(v);
      ReadsIffSpelled(s, v);
    }
  }

  /** All files, one by one. */
  ghost predicate AllStandFor(gs: seq<File>, fs: seq<File>) {
    |gs| == |fs| && forall k :: 0 <= k < |fs| ==> StandsFor(gs[k], fs[k])
  }

  lemma {:induction false} StandParts(gs: seq<File>, fs: seq<File>)
    requires fs != [] && gs != []
    ensures AllStandFor(gs, fs) <==> StandsFor(gs[0], fs[0]) && AllStandFor(gs[1..], fs[1..])
  {
    assert gs == [gs[0]] + gs[1..] && fs == [fs[0]] + fs[1..];
    if StandsFor(gs[0], fs[0]) && AllStandFor(gs[1..], fs[1..]) {
      forall k | 0 <= k < |fs| ensures StandsFor(gs[k], fs[k]) {
        if k > 0 {
          assert gs[k] == gs[1..][k - 1] && fs[k] == fs[1..][k - 1];
        }
      }
    }
    if AllStandFor(gs, fs) {
      forall k | 0 <= k < |fs[1..]| ensures StandsFor(gs[1..][k], fs[1..][k]) {
        assert gs[1..][k] == gs[k + 1] && fs[1..][k] == fs[k + 1];
      }
    }
  }

  /** What a list means, said without the lexer. */
  lemma {:induction false} MeantIsBySpelling(fs: seq<File>, gs: seq<File>)
    requires NoQuotes(fs)
    ensures Meant(fs) == Accepted(gs) <==> AllStandFor(gs, fs)
    decreases |fs|
  {
    var ss := SpliceFiles(fs);
    if fs != [] && gs != [] {
      assert ss[0] == SpliceFile(fs[0]) && ss[1..] == SpliceFiles(fs[1..]);
      MeantIsBySpelling(fs[1..], gs[1..]);
      FileIsBySpelling(fs[0], gs[0]);
      StandParts(gs, fs);
      assert gs == [gs[0]] + gs[1..];
    }
  }

  /** The same of lookups: the first file whose printed name reads as the name asked for. */
  lemma {:induction false} LookupFindsSpelled(fs: seq<File>, gs: seq<File>, name: string, data: string, fuel: nat)
    requires NoQuotes(fs) && AllStandFor(gs, fs) && fuel >= |fs| + 1
    ensures Ask(Header(fs), name, data, fuel) == Accepted(Result(FirstMatch(gs, name), name, data))
  {
    MeantIsBySpelling(fs, gs);
    LookupFinds(fs, gs, name, data, fuel);
  }

  /**
   * The header does what it is for. Read as C++ and run, its lookup function finds for every
   * name the exact bytes of the first file of that name, or reports that there is none and
   * leaves `data` alone, after going round its loop at most once a row.
   */
  lemma {:induction false} HeaderIsCorrect(fs: seq<File>, name: string, data: string, fuel: nat)
    requires PlainNames(fs) && NonEmptyFiles(fs) && fuel >= |fs| + 1
    ensures Ask(Header(fs), name, data, fuel) == Accepted(Result(FirstMatch(fs, name), name, data))
  {
    MeantPlain(fs);
    LookupFinds(fs, fs, name, data, fuel);
  }

  // ----- exactly when it is right

  /** Every lookup answers as the list of files does. */
  ghost predicate IsRight(text: string, fs: seq<File>) {
    forall name: string, data: string ::
      Ask(text, name, data, |fs| + 1) == Accepted(Result(FirstMatch(fs, name), name, data))
  }

  lemma {:induction false} FoundIffNamed(fs: seq<File>, name: string)
    ensures FirstMatch(fs, name).Some? <==> exists k :: 0 <= k < |fs| && fs[k].name == name
    decreases |fs|
  {
    if fs != [] {
      FoundIffNamed(fs[1..], name);
      if k :| 0 <= k < |fs| && fs[k].name == name {
        if k > 0 {
          assert fs[1..][k - 1].name == name;
        }
      }
      if FirstMatch(fs[1..], name).Some? {
        var k :| 0 <= k < |fs[1..]| && fs[1..][k].name == name;
        assert fs[k + 1].name == name;
      }
    }
  }

  /** The longest name that is not plain. */
  lemma {:induction false} LongestSpecial(fs: seq<File>) returns (k: nat)
    requires !PlainNames(fs)
    ensures k < |fs| && !Plain(fs[k].name)
    ensures forall j :: 0 <= j < |fs| && !Plain(fs[j].name) ==> |fs[j].name| <= |fs[k].name|
    decreases |fs|
  {
    if PlainNames(fs[1..]) {
      k := 0;
      forall j | 0 < j < |fs| ensures Plain(fs[j].name) {
        assert fs[1..][j - 1] == fs[j];
      }
    } else {
      var m := LongestSpecial(fs[1..]);
      k := if !Plain(fs[0].name) && |fs[0].name| > |fs[1..][m].name| then 0 else m + 1;
      forall j | 0 <= j < |fs| && !Plain(fs[j].name) ensures |fs[j].name| <= |fs[k].name| {
        if j > 0 {
          assert fs[1..][j - 1] == fs[j];
        }
      }
    }
  }

  lemma {:induction false} MeantNames(fs: seq<File>, gs: seq<File>, k: nat)
    requires FilesVerdict(fs) == Accepted(gs) && k < |fs|
    ensures |gs| == |fs| && gs[k] == ReadFile(fs[k])
    decreases |fs|
  {
    MeantLength(fs, gs);
    if k > 0 {
      MeantNames(fs[1..], gs[1..], k - 1);
    }
  }

  /** A name that is read from another one that is not plain is shorter than that one. */
  lemma {:induction false} ReadFrom(fs: seq<File>, gs: seq<File>, j: nat)
    requires NoQuotes(fs) && Meant(fs) == Accepted(gs) && j < |fs|
    ensures |gs| == |fs|
    ensures if Plain(fs[j].name) then gs[j].name == fs[j].name else |gs[j].name| < |fs[j].name|
  {
    MeantNames(SpliceFiles(fs), gs, j);
    ReadsBackIffPlain(fs[j].name);
  }

  /** The longest name that is not plain cannot be found under itself. */
  lemma {:induction false} SpecialNameNotFound(fs: seq<File>, gs: seq<File>) returns (name: string)
    requires NoQuotes(fs) && Meant(fs) == Accepted(gs) && !PlainNames(fs)
    ensures FirstMatch(gs, name).None? && FirstMatch(fs, name).Some?
  {
    var k := LongestSpecial(fs);
    name := fs[k].name;
    forall j | 0 <= j < |gs| ensures gs[j].name != name {
      MeantLength(SpliceFiles(fs), gs);
      ReadFrom(fs, gs, j);
    }
    FoundIffNamed(gs, name);
    FoundIffNamed(fs, name);
  }

  /**
   * Exactly when the header is right. For lists whose names hold no quotes and no escape
   * sequence left to the implementation, every lookup answers as the list does if and only
   * if all names are plain and no file is empty.
   */
  lemma {:induction false} RightIffPlain(fs: seq<File>)
    requires NoQuotes(fs) && !Meant(fs).NotModelled?
    ensures IsRight(Header(fs), fs) <==> PlainNames(fs) && NonEmptyFiles(fs)
  {
    if PlainNames(fs) && NonEmptyFiles(fs) {
      forall name: string, data: string
        ensures Ask(Header(fs), name, data, |fs| + 1) == Accepted(Result(FirstMatch(fs, name), name, data))
      {
        HeaderIsCorrect(fs, name, data, |fs| + 1);
      }
    } else {
      NotRight(fs);
    }
  }

  lemma {:induction false} WrongAnswer(text: string, fs: seq<File>, name: string, data: string)
    requires Ask(text, name, data, |fs| + 1) != Accepted(Result(FirstMatch(fs, name), name, data))
    ensures !IsRight(text, fs)
  {
  }

  lemma {:induction false} MissedName(text: string, fs: seq<File>, gs: seq<File>, name: string)
    requires Ask(text, name, "", |fs| + 1) == Accepted(Result(FirstMatch(gs, name), name, ""))
    requires FirstMatch(gs, name).None? && FirstMatch(fs, name).Some?
    ensures !IsRight(text, fs)
  {
    WrongAnswer(text, fs, name, "");
  }

  lemma {:induction false} RefusedIsNotRight(text: string, fs: seq<File>)
    requires !Load(text).Accepted?
    ensures !IsRight(text, fs)
  {
    WrongAnswer(text, fs, "", "");
  }

  lemma {:induction false} RefusedVerdict(v: Verdict<seq<File>>)
    requires !v.Accepted?
    ensures !ProgramVerdict(v).Accepted?
  {
  }

  lemma {:induction false} RefusedHeader(fs: seq<File>)
    requires NoQuotes(fs) && !Meant(fs).Accepted?
    ensures !IsRight(Header(fs), fs)
  {
    HeaderMeans(fs);
    RefusedVerdict(Meant(fs));
    RefusedIsNotRight(Header(fs), fs);
  }

  lemma {:induction false} MissingHeader(fs: seq<File>, gs: seq<File>, name: string)
    requires NoQuotes(fs) && Meant(fs) == Accepted(gs)
    requires FirstMatch(gs, name).None? && FirstMatch(fs, name).Some?
    ensures !IsRight(Header(fs), fs)
  {
    LookupFinds(fs, gs, name, "", |fs| + 1);
    MissedName(Header(fs), fs, gs, name);
  }

  lemma {:induction false} NotRight(fs: seq<File>)
    requires NoQuotes(fs) && !(PlainNames(fs) && NonEmptyFiles(fs))
    ensures !IsRight(Header(fs), fs)
  {
    if PlainNames(fs) {
      MeantPlain(fs);
      RefusedHeader(fs);
    } else if Meant(fs).Accepted? {
      var name := SpecialNameNotFound(fs, Meant(fs).value);
      MissingHeader(fs, Meant(fs).value, name);
    } else {
      RefusedHeader(fs);
    }
  }

  /** Row `k` of the program's table points to constants that hold the file. */
  predicate RowHolds(p: Program, k: nat, f: File) {
    && "embedded_files" in p.arrays && k < |p.arrays["embedded_files"].rows|
    && var row := p.arrays["embedded_files"].rows[k];
    && |row| == 2 && row[0].AddressOf? && row[1].AddressOf?
    && row[0].id in p.strings && p.strings[row[0].id] == f.name
    && row[1].id in p.strings && p.strings[row[1].id] == f.contents
  }

  lemma {:induction false} RowOfProgram(fs: seq<File>, k: nat)
    requires k < |fs|
    ensures RowHolds(ProgramOf(fs), k, fs[k])
  {
    TableRowsAt(1, |fs| + 1);
    FileStringsAt(map[], fs, 1, k);
    assert TableRows(1, |fs| + 1)[k] == RowAddresses(1 + k);
  }

  /** The two loops agree: each row of the loaded table resolves to the constants of its own file. */
  lemma {:induction false} RowsAgreeWithDefinitions(fs: seq<File>, gs: seq<File>, k: nat)
    requires NoQuotes(fs) && Meant(fs) == Accepted(gs) && k < |fs|
    ensures |gs| == |fs| && Load(Header(fs)).Accepted? && RowHolds(Load(Header(fs)).value, k, gs[k])
  {
    HeaderMeans(fs);
    MeantLength(SpliceFiles(fs), gs);
    RowOfProgram(gs, k);
  }

  lemma {:induction false} FileDeclsSize(fs: seq<File>, i: nat)
    ensures |FileDecls(fs, i)| == 2 * |fs|
    decreases |fs|
  {
    if fs != [] {
      FileDeclsSize(fs[1..], i + 1);
    }
  }

  /** The declarations of one file. */
  predicate DeclaresAt(ds: seq<Decl>, j: nat, i: nat, f: File) {
    && j + 1 < |ds| && ds[j] == FromLiteral(NameId(i), Value(f.name))
    && ds[j + 1] == FromArray(DataId(i), f.contents, |f.contents|)
  }

  lemma {:induction false} LaterDecls(a: Decl, b: Decl, ds: seq<Decl>, j: nat, i: nat, f: File)
    requires DeclaresAt(ds, j, i, f)
    ensures DeclaresAt([a, b] + ds, j + 2, i, f)
  {
  }

  lemma {:induction false} FileDeclsAt(fs: seq<File>, i: nat, k: nat)
    requires k < |fs|
    ensures DeclaresAt(FileDecls(fs, i), 2 * k, i + k, fs[k])
    decreases |fs|
  {
    if k > 0 {
      FileDeclsAt(fs[1..], i + 1, k - 1);
      LaterDecls(FileDecls(fs, i)[0], FileDecls(fs, i)[1], FileDecls(fs[1..], i + 1), 2 * (k - 1), i + k, fs[k]);
    }
  }

  /** Among the declarations of the header, which ones are of name and data `1 + k`. */
  predicate Sole(d: Decl, j: nat, k: nat) {
    (d.id == NameId(1 + k) <==> j == 2 * k) && (d.id == DataId(1 + k) <==> j == 2 * k + 1)
  }

  lemma {:induction false} SoleInFiles(fs: seq<File>, j: nat, k: nat)
    requires j < 2 * |fs| == |FileDecls(fs, 1)|
    ensures Sole(FileDecls(fs, 1)[j], j, k)
  {
    FileDeclsAt(fs, 1, j / 2);
    IdentsDistinct(1 + j / 2, 1 + k);
    IdentsDistinct(1 + k, 1 + j / 2);
    assert j == 2 * (j / 2) || j == 2 * (j / 2) + 1;
  }

  /** The constants a row points to are declared once, and before the table. */
  lemma {:induction false} DeclaredOnceBeforeTable(fs: seq<File>, k: nat)
    requires k < |fs|
    ensures var ds := HeaderDecls(fs);
      |ds| == 2 * |fs| + 2 && ds[2 * |fs|] == TableDecl(|fs|) && forall j :: 0 <= j < |ds| ==> Sole(ds[j], j, k)
  {
    var ds := HeaderDecls(fs);
    FileDeclsSize(fs, 1);
    NotOfFile("embedded_files", 1 + k);
    NotOfFile("find_embedded_file", 1 + k);
    forall j | 0 <= j < |ds| ensures Sole(ds[j], j, k) {
      if j < 2 * |fs| {
        SoleInFiles(fs, j, k);
      }
    }
  }

  // ----- composition

  function OrElse<T>(a: Option<T>, b: Option<T>): Option<T> { if a.Some? then a else b }

  lemma {:induction false} FirstMatchAppend(xs: seq<File>, ys: seq<File>, name: string)
    ensures FirstMatch(xs + ys, name) == OrElse(FirstMatch(xs, name), FirstMatch(ys, name))
    decreases |xs|
  {
    if xs == [] {
      assert xs + ys == ys;
    } else {
      assert (xs + ys)[1..] == xs[1..] + ys;
      FirstMatchAppend(xs[1..], ys, name);
    }
  }

  lemma {:induction false} VerdictAppend(xs: seq<File>, ys: seq<File>, gs: seq<File>, hs: seq<File>)
    requires FilesVerdict(xs) == Accepted(gs) && FilesVerdict(ys) == Accepted(hs)
    ensures FilesVerdict(xs + ys) == Accepted(gs + hs)
    decreases |xs|
  {
    if xs == [] {
      assert xs + ys == ys && gs + hs == hs;
    } else {
      assert (xs + ys)[1..] == xs[1..] + ys;
      VerdictAppend(xs[1..], ys, gs[1..], hs);
      assert gs + hs == [gs[0]] + (gs[1..] + hs);
    }
  }

  /** Looking up in the header of two lists is looking up in that of the first, then in that of the second. */
  lemma {:induction false} HeadersCompose(xs: seq<File>, ys: seq<File>, name: string, data: string, fuel: nat)
    requires NoQuotes(xs) && NoQuotes(ys) && Meant(xs).Accepted? && Meant(ys).Accepted? && fuel >= |xs| + |ys| + 1
    ensures var first := Ask(Header(xs), name, data, fuel);
      first.Accepted? && first.value.Done? &&
      Ask(Header(xs + ys), name, data, fuel) ==
        if first.value.result == M.Truth(true) then first else Ask(Header(ys), name, data, fuel)
  {
    var gs, hs := Meant(xs).value, Meant(ys).value;
    assert SpliceFiles(xs + ys) == SpliceFiles(xs) + SpliceFiles(ys);
    VerdictAppend(SpliceFiles(xs), SpliceFiles(ys), gs, hs);
    LookupFinds(xs + ys, gs + hs, name, data, fuel);
    LookupFinds(xs, gs, name, data, fuel);
    LookupFinds(ys, hs, name, data, fuel);
    FirstMatchAppend(gs, hs, name);
  }
}
