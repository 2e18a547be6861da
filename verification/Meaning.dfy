/** What any header means whose names hold no quotes: which texts load, and to what. */
module Meaning {
  import opened Basics
  import opened Numerals
  import opened HeaderText
  import opened Lexer
  import opened DataLiterals
  import opened Layout
  import opened Preprocessor
  import opened Phases
  import opened Fragments
  import opened Numbering
  import opened FileDefinitions
  import opened Guard
  import opened Program
  import opened Reading
  import opened Loading
  import opened NameValues
  import opened NameHeads
  import opened Splicing
  import opened Lacking

  // ----- the meaning of a list of files

  /** What the compiler makes of one definition: both its literals have to end on their lines. */
  function FileVerdict(f: File): Verdict<File> {
    var _ :- NameVerdict(f.name);
    if f.contents == [] then IllFormed else Accepted(ReadFile(f))
  }

  /** The first definition that is not accepted decides. */
  function FilesVerdict(fs: seq<File>): Verdict<seq<File>> {
    if fs == [] then Accepted([])
    else
      var f :- FileVerdict(fs[0]);
      var gs :- FilesVerdict(fs[1..]);
      Accepted([f] + gs)
  }

  /** The files the header of `fs` stands for. */
  function Meant(fs: seq<File>): Verdict<seq<File>> { FilesVerdict(SpliceFiles(fs)) }

  /** The program that files make. */
  function ProgramVerdict(v: Verdict<seq<File>>): Verdict<Program> {
    var fs :- v;
    Accepted(ProgramOf(fs))
  }

  lemma {:induction false} PrintableParts(fs: seq<File>)
    requires fs != []
    ensures AllPrintable(fs) <==> Printable(fs[0]) && AllPrintable(fs[1..])
  {
    assert fs == [fs[0]] + fs[1..];
  }

  lemma {:induction false} VerdictOfPrintable(fs: seq<File>)
    requires NoQuotes(fs)
    ensures AllPrintable(fs) <==> FilesVerdict(fs).Accepted?
    ensures AllPrintable(fs) ==> FilesVerdict(fs) == Accepted(ReadFiles(fs))
    decreases |fs|
  {
    if fs != [] {
      VerdictOfPrintable(fs[1..]);
      VerdictOfClosing(fs[0].name);
      PrintableParts(fs);
      assert ReadFiles(fs) == [ReadFile(fs[0])] + ReadFiles(fs[1..]);
    }
  }

  // ----- definitions that are not accepted

  /** The lexer is stuck the way the verdict says. */
  predicate Fails<T>(st: State, v: Verdict<T>) {
    (v.IllFormed? && st.mode.Broken?) || (v.NotModelled? && st.mode.Unknown?)
  }

  /** The literal of a name that does not end on its line. */
  lemma {:induction false} RunBadName(st: State, s: string)
    requires st.mode == InStr("") && '"' !in s && !NameVerdict(s).Accepted?
    ensures Fails(Run(Run(st, s), "\";\n"), NameVerdict(s))
  {
    RunInLiteral(st, s);
    var st1 := Run(st, s);
    assert "\";\n" == "\"" + ";\n" && ";\n" == [';', '\n'];
    RunAppend(st1, "\"", ";\n");
    Run1(st1, '"');
    var st2 := Step(st1, '"');
    if Stuck(st2.mode) {
      StuckForever(st2, ";\n");
    } else {
      Run2(st2, ';', '\n');
    }
  }

  /** The closing quote of a literal that was never opened opens one, which the newline then breaks. */
  lemma {:induction false} RunEmptyData(st: State)
    requires st.mode.Space?
    ensures Run(st, DataBody([]) + DataClose(0)).mode.Broken?
  {
    var rest := "  " + Dec(0) + ");\n\n";
    assert "\",\n  " == "\",\n" + "  ";
    assert DataBody([]) + DataClose(0) == "\",\n" + rest;
    RunAppend(st, "\",\n", rest);
    RunBrokenQuote(st);
    StuckForever(Run(st, "\",\n"), rest);
  }

  lemma {:induction false} RunBrokenQuote(st: State)
    requires st.mode.Space?
    ensures Run(st, "\",\n").mode.Broken?
  {
    assert "\",\n" == "\"," + "\n";
    RunAppend(st, "\",", "\n");
    Run2(st, '"', ',');
    Run1(Run(st, "\","), '\n');
  }

  lemma {:induction false} RunBadDefinition(st: State, i: nat, f: File)
    requires st.mode.Space? && st.line.Fresh? && '"' !in f.name && !FileVerdict(f).Accepted?
    ensures Fails(Run(st, Definition(i, f)), FileVerdict(f))
  {
    var body := DataBody(f.contents) + DataClose(|f.contents|);
    Assoc4(NameDecl(i, f.name), DataOpen(i), DataBody(f.contents), DataClose(|f.contents|));
    RunAppend(st, NameDecl(i, f.name), DataOpen(i) + body);
    var st1 := Run(st, NameDecl(i, f.name));
    if NameVerdict(f.name).Accepted? {
      VerdictOfClosing(f.name);
      var fill := Fill(i, f.name, ['x']);
      NameDeclReads(fill);
      DataOpenReads(fill);
      RunAppend(st1, DataOpen(i), body);
      RunEmptyData(Run(st1, DataOpen(i)));
    } else {
      RunNameDecl(st, i, f.name);
      RunBadName(AfterQuote(st, i), f.name);
      StuckForever(st1, DataOpen(i) + body);
    }
  }

  lemma {:induction false} RunGoodDefinition(st: State, i: nat, f: File)
    requires st.mode.Space? && st.line.Fresh? && '"' !in f.name && FileVerdict(f).Accepted?
    ensures var r := Run(st, Definition(i, f)); r.mode.Space? && r.line.Fresh?
  {
    VerdictOfClosing(f.name);
    DefinitionReads(i, f);
  }

  lemma {:induction false} RunBadDefinitions(st: State, fs: seq<File>, i: nat)
    requires st.mode.Space? && st.line.Fresh? && NoQuotes(fs) && !FilesVerdict(fs).Accepted?
    ensures Fails(Run(st, Definitions(fs, i)), FilesVerdict(fs))
    decreases |fs|
  {
    var more := Definitions(fs[1..], i + 1);
    RunAppend(st, Definition(i, fs[0]), more);
    if FileVerdict(fs[0]).Accepted? {
      RunGoodDefinition(st, i, fs[0]);
      RunBadDefinitions(Run(st, Definition(i, fs[0])), fs[1..], i + 1);
    } else {
      RunBadDefinition(st, i, fs[0]);
      StuckForever(Run(st, Definition(i, fs[0])), more);
    }
  }

  lemma {:induction false} StuckLex<T>(text: string, v: Verdict<T>)
    requires Fails(Run(INITIAL, text), v)
    ensures Lex(text) == if v.IllFormed? then IllFormed else NotModelled
  {
  }

  lemma {:induction false} LexDecides(text: string)
    requires !Lex(text).Accepted?
    ensures Translate(text) == if Lex(text).IllFormed? then IllFormed else NotModelled
  {
  }

  /** Definitions that are not accepted decide, whatever follows them. */
  lemma {:induction false} BadDefinitionsFail(fs: seq<File>, more: string)
    requires NoQuotes(fs) && !FilesVerdict(fs).Accepted?
    ensures Translate(PROLOGUE + Definitions(fs, 1) + more) == ProgramVerdict(FilesVerdict(fs))
  {
    RunAppend(INITIAL, PROLOGUE + Definitions(fs, 1), more);
    RunAppend(INITIAL, PROLOGUE, Definitions(fs, 1));
    PrologueLexes();
    RunBadDefinitions(Run(INITIAL, PROLOGUE), fs, 1);
    StuckForever(Run(INITIAL, PROLOGUE + Definitions(fs, 1)), more);
    StuckLex(PROLOGUE + Definitions(fs, 1) + more, FilesVerdict(fs));
    LexDecides(PROLOGUE + Definitions(fs, 1) + more);
  }

  // ----- a header cut short

  lemma {:induction false} TakeUnclosed(u: Unit, inside: seq<Token>, js: seq<Token>)
    requires u == EMPTY_UNIT && Copies(inside, js)
    ensures var r := TakeAll(u, PROLOGUE_TOKENS + inside); r.groups == [true] && r.ok && r.directive.None?
  {
    TakeAppend(u, PROLOGUE_TOKENS, inside);
    TakePrologue(u);
    var u1 := Entered(u);
    assert u1.defined == {GUARD} && u1.library && u1.groups == [true] && Ready(u1);
    assert TakeAll(u1, inside) == u1.(out := u1.out + js);
  }

  lemma {:induction false} UnclosedGuardFails(fs: seq<File>)
    requires AllPrintable(fs)
    ensures Translate(Aborted(fs)) == IllFormed
  {
    DefinitionsRead(fs, 1);
    var inside :| Lexes(Definitions(fs, 1), Fresh, inside, Fresh) && Copies(inside, DefinitionsTokens(fs, 1));
    PrologueLexes();
    LexesAppend(PROLOGUE, Definitions(fs, 1), Fresh, Fresh, Fresh, PROLOGUE_TOKENS, inside);
    LexOf(Aborted(fs), PROLOGUE_TOKENS + inside);
    TakeUnclosed(EMPTY_UNIT, inside, DefinitionsTokens(fs, 1));
    assert Preprocess(PROLOGUE_TOKENS + inside) == IllFormed;
  }

  // ----- the results

  lemma {:induction false} SplicedNoQuotes(fs: seq<File>)
    requires NoQuotes(fs)
    ensures NoQuotes(SpliceFiles(fs))
  {
    forall k | 0 <= k < |fs| ensures '"' !in SpliceFiles(fs)[k].name {
      SplicePart(fs[k].name);
    }
  }

  lemma {:induction false} TranslateMeans(fs: seq<File>)
    requires NoQuotes(fs)
    ensures Translate(Header(fs)) == ProgramVerdict(FilesVerdict(fs))
  {
    VerdictOfPrintable(fs);
    if AllPrintable(fs) {
      HeaderLoads(fs);
    } else {
      BadDefinitionsFail(fs, Closing(|fs|));
    }
  }

  /**
   * What the header of any list means whose names hold no quotes: the program of the files
   * as their names read, unless a name or an empty file is in the way; then the first such
   * file says whether the text is no C++ or not known.
   */
  lemma {:induction false} HeaderMeans(fs: seq<File>)
    requires NoQuotes(fs)
    ensures Load(Header(fs)) == ProgramVerdict(Meant(fs))
  {
    SpliceHeader(fs);
    SplicedNoQuotes(fs);
    TranslateMeans(SpliceFiles(fs));
  }

  /** A header cut short is never taken for a whole one: at best its guard is not closed. */
  lemma {:induction false} AbortedMeans(fs: seq<File>)
    requires NoQuotes(fs)
    ensures Load(Aborted(fs)) == if Meant(fs).NotModelled? then NotModelled else IllFormed
  {
    var ss := SpliceFiles(fs);
    SpliceStart(fs, "");
    assert Aborted(fs) + "" == Aborted(fs) && Aborted(ss) + "" == Aborted(ss);
    SplicedNoQuotes(fs);
    VerdictOfPrintable(ss);
    if AllPrintable(ss) {
      UnclosedGuardFails(ss);
    } else {
      BadDefinitionsFail(ss, "");
    }
  }

  lemma {:induction false} MeantPlain(fs: seq<File>)
    requires PlainNames(fs)
    ensures NoQuotes(fs) && SpliceFiles(fs) == fs
    ensures Meant(fs) == if NonEmptyFiles(fs) then Accepted(fs) else IllFormed
    decreases |fs|
  {
    if fs != [] {
      var f := fs[0];
      ReadsBackIffPlain(f.name);
      PlainCloses(f.name);
      MeantPlain(fs[1..]);
      assert SpliceFiles(fs) == [SpliceFile(f)] + SpliceFiles(fs[1..]);
      assert fs == [f] + fs[1..];
      assert NonEmptyFiles(fs) <==> f.contents != [] && NonEmptyFiles(fs[1..]);
    }
  }

  /** With plain names the header is well-formed exactly when every file has at least one byte, and ill-formed otherwise. */
  lemma {:induction false} LoadsIffNonEmpty(fs: seq<File>)
    requires PlainNames(fs)
    ensures Load(Header(fs)) == if NonEmptyFiles(fs) then Accepted(ProgramOf(fs)) else IllFormed
  {
    MeantPlain(fs);
    HeaderMeans(fs);
  }

  lemma {:induction false} AbortedFails(fs: seq<File>)
    requires PlainNames(fs)
    ensures Load(Aborted(fs)) == IllFormed
  {
    MeantPlain(fs);
    AbortedMeans(fs);
  }

  lemma PrefixShape(p: string, a: string, b: string, c: string)
    ensures p + (a + b) + c == (p + a) + (b + c)
  {
  }

  lemma ProperPrefix(a: string, b: string)
    requires b != ""
    ensures a < a + b
  {
  }

  /** It is a proper prefix of every header that starts with the same files. */
  lemma {:induction false} AbortedIsPrefix(fs: seq<File>, more: seq<File>)
    ensures Aborted(fs) < Header(fs + more)
  {
    DefinitionsAppend(fs, more, 1, 1 + |fs|);
    var rest, closing := Definitions(more, 1 + |fs|), Closing(|fs + more|);
    PrefixShape(PROLOGUE, Definitions(fs, 1), rest, closing);
    assert |EPILOGUE| > 0;
    ProperPrefix(Aborted(fs), rest + closing);
  }

  lemma {:induction false} HeaderEnds(fs: seq<File>)
    ensures Header(fs) != "" && Header(fs)[|Header(fs)| - 1] != '\\'
  {
    ClosingLacks(|fs|, '\\');
    var c := Closing(|fs|);
    assert |EPILOGUE| > 0;
    assert Header(fs)[|Header(fs)| - 1] == c[|c| - 1];
  }

  /** Included twice, the header means what it means included once. */
  lemma {:induction false} IncludedTwice(fs: seq<File>)
    requires NoQuotes(fs) && Meant(fs).Accepted?
    ensures Load(Header(fs) + Header(fs)) == Load(Header(fs))
  {
    HeaderEnds(fs);
    SpliceAppend(Header(fs), Header(fs));
    SpliceHeader(fs);
    SplicedNoQuotes(fs);
    VerdictOfPrintable(SpliceFiles(fs));
    TranslatedTwice(SpliceFiles(fs));
  }
}
