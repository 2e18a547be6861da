/**
 * What a header can hold at most, whatever its names: its literals read no more characters
 * than the names have and the files have bytes, and fewer if a name is not plain.
 */
module Budget {
  import opened Basics
  import opened HeaderText
  import opened Lexer
  import opened Counting
  import opened DataLiterals
  import opened Layout
  import opened Fragments
  import opened FixedLines
  import opened FileLines
  import opened NameValues
  import opened NameHeads
  import opened FileDefinitions
  import opened Guard
  import opened Lacking
  import opened Meaning

  /** The characters that a right header has in its literals, zeros not counted. */
  function Total(fs: seq<File>): nat {
    if fs == [] then 0 else |fs[0].name| + Weight(fs[0].contents) + Total(fs[1..])
  }

  // ----- text without quotes

  predicate OutsideLiteral(m: Mode) {
    !m.InStr? && !m.Escape? && !m.HexStart? && !m.Hex? && !m.Octal? && !m.Ucn?
  }

  lemma {:induction false} StartOutside(st: State, c: char)
    requires c != '"'
    ensures OutsideLiteral(Start(st, c).mode)
  {
  }

  lemma {:induction false} ContinueOutside(m: Mode, c: char)
    requires OutsideLiteral(m)
    ensures OutsideLiteral(Continue(m, c)) && !Between(m, c)
  {
  }

  lemma {:induction false} StepWithoutQuote(st: State, c: char)
    requires OutsideLiteral(st.mode) && c != '"'
    ensures OutsideLiteral(Step(st, c).mode) && Decoded(Step(st, c).toks) == Decoded(st.toks)
  {
    ContinueOutside(st.mode, c);
    if Ends(st.mode, c) {
      SettleBound(st);
      StartOutside(Settle(st), c);
      StartBound(Settle(st), c);
    }
  }

  /** Outside literals, text without quotes adds nothing to them. */
  lemma {:induction false} RunWithoutQuote(st: State, s: string)
    requires OutsideLiteral(st.mode) && '"' !in s
    ensures OutsideLiteral(Run(st, s).mode) && Decoded(Run(st, s).toks) == Decoded(st.toks)
    decreases |s|
  {
    if s != "" {
      StepWithoutQuote(st, s[0]);
      RunWithoutQuote(Step(st, s[0]), s[1..]);
    }
  }

  // ----- the end of a name

  /** The start of a line, inside a comment or not, or a text that is refused. */
  predicate Clean(st: State) { (st.mode.Space? && st.line.Fresh?) || st.mode.BlockComment? || Stuck(st.mode) }

  predicate AfterAnyQuote(m: Mode) { m.InStr? || m.StrEnd? || m.LineComment? || m.BlockComment? || Stuck(m) }

  lemma {:induction false} QuoteStep(st: State)
    ensures AfterAnyQuote(Step(st, '"').mode) && Decoded(Step(st, '"').toks) <= Held(st)
  {
    if Ends(st.mode, '"') {
      SettleBound(st);
    } else if Between(st.mode, '"') {
      ReadBound(st.mode);
      DecodedSnoc(st.toks, Str(ReadSoFar(st.mode)));
    }
  }

  lemma {:induction false} SemicolonStep(st: State)
    requires AfterAnyQuote(st.mode)
    ensures var r := Step(st, ';');
      Decoded(r.toks) == Decoded(st.toks) &&
        (r.mode.InStr? || r.mode.Space? || r.mode.LineComment? || r.mode.BlockComment? || Stuck(r.mode))
  {
    DecodedSnoc(st.toks, Punct([';']));
  }

  lemma {:induction false} NewlineStep(st: State)
    requires st.mode.InStr? || st.mode.Space? || st.mode.LineComment? || st.mode.BlockComment? || Stuck(st.mode)
    ensures Clean(Step(st, '\n')) && Decoded(Step(st, '\n').toks) == Decoded(st.toks)
  {
    DecodedSnoc(st.toks, EndOfDirective);
  }

  /** However a name leaves the lexer, its line ends cleanly and adds nothing. */
  lemma {:induction false} EndOfLine(st: State)
    ensures var r := Run(st, "\";\n"); Clean(r) && Decoded(r.toks) <= Held(st)
  {
    assert "\";\n" == "\";" + "\n";
    RunAppend(st, "\";", "\n");
    Run2(st, '"', ';');
    Run1(Run(st, "\";"), '\n');
    QuoteStep(st);
    SemicolonStep(Step(st, '"'));
    NewlineStep(Step(Step(st, '"'), ';'));
  }

  // ----- one name

  lemma {:induction false} NoLiterals(ts: seq<Token>)
    requires forall i :: 0 <= i < |ts| ==> !ts[i].Str?
    ensures Decoded(ts) == 0
    decreases |ts|
  {
    if ts != [] {
      NoLiterals(ts[..|ts| - 1]);
    }
  }

  lemma {:induction false} HeadHoldsNothing(st: State, i: nat)
    ensures Held(AfterQuote(st, i)) == Decoded(st.toks)
  {
    DecodedAppend(st.toks, HeadTokens(i));
    NoLiterals(HeadTokens(i));
  }

  /** Unless the text is refused, it adds at most `n` characters and the next line starts cleanly. */
  predicate AddsAtMost(st: State, r: State, n: nat) {
    Stuck(r.mode) || (Clean(r) && Decoded(r.toks) <= Decoded(st.toks) + n)
  }

  predicate AddsLess(st: State, r: State, n: nat) {
    Stuck(r.mode) || (Clean(r) && Decoded(r.toks) < Decoded(st.toks) + n)
  }

  lemma {:induction false} NameInSpace(st: State, i: nat, name: string)
    requires st.mode.Space? && st.line.Fresh?
    ensures AddsAtMost(st, Run(st, NameDecl(i, name)), |name|)
    ensures !Plain(name) ==> AddsLess(st, Run(st, NameDecl(i, name)), |name|)
  {
    var open := AfterQuote(st, i);
    RunNameDecl(st, i, name);
    HeadHoldsNothing(st, i);
    RunBound(open, name);
    EndOfLine(Run(open, name));
    if !Plain(name) {
      SpecialNameLoses(open, name);
    }
  }

  lemma {:induction false} NameInComment(st: State, i: nat, name: string)
    requires st.mode.BlockComment?
    ensures AddsAtMost(st, Run(st, NameDecl(i, name)), |name|)
  {
    Assoc(NamePrefix(i), name, "\";\n");
    NamePrefixLacks(i, '*');
    RunAppend(st, NamePrefix(i), name + "\";\n");
    RunCommentBody(st, NamePrefix(i));
    RunAppend(st, name, "\";\n");
    RunBound(st, name);
    EndOfLine(Run(st, name));
  }

  lemma {:induction false} NameBound(st: State, i: nat, name: string)
    requires Clean(st)
    ensures AddsAtMost(st, Run(st, NameDecl(i, name)), |name|)
    ensures st.mode.Space? && !Plain(name) ==> AddsLess(st, Run(st, NameDecl(i, name)), |name|)
  {
    if st.mode.Space? {
      NameInSpace(st, i, name);
    } else if st.mode.BlockComment? {
      NameInComment(st, i, name);
    } else {
      StuckForever(st, NameDecl(i, name));
    }
  }

  // ----- the bytes of one file

  lemma {:induction false} DecodedLiterals(cs: seq<string>)
    ensures Decoded(Literals(cs)) == Weight(Flatten(cs))
    decreases |cs|
  {
    if cs != [] {
      assert Literals(cs) == [Str(cs[0])] + Literals(cs[1..]);
      DecodedAppend([Str(cs[0])], Literals(cs[1..]));
      DecodedSnoc([], Str(cs[0]));
      assert [] + [Str(cs[0])] == [Str(cs[0])];
      DecodedLiterals(cs[1..]);
      WeightAppend(cs[0], Flatten(cs[1..]));
    }
  }

  function PieceWeight(p: Piece, f: Fill): nat {
    match p
    case NameLiteral => Weight(Value(f.name))
    case DataLiterals => Weight(f.contents)
    case _ => 0
  }

  function PiecesWeight(ps: Pieces, f: Fill): nat
    decreases ps
  {
    match ps
    case End => 0
    case Then(p, rest) => PieceWeight(p, f) + PiecesWeight(rest, f)
  }

  lemma {:induction false} PieceHolds(line: Line, p: Piece, f: Fill)
    ensures Decoded(TokensOf(line, p, f)) == PieceWeight(p, f)
  {
    if p.DataLiterals? {
      DecodedLiterals(Chunks(f.contents));
      ChunksFlatten(f.contents);
    } else if TokensOf(line, p, f) != [] {
      var t := TokensOf(line, p, f)[0];
      assert TokensOf(line, p, f) == [] + [t];
      DecodedSnoc([], t);
    }
  }

  lemma {:induction false} PiecesHold(line: Line, ps: Pieces, f: Fill)
    ensures Decoded(TokensOfAll(line, ps, f)) == PiecesWeight(ps, f)
    decreases ps
  {
    match ps
    case End =>
    case Then(p, rest) =>
      PieceHolds(line, p, f);
      PiecesHold(LineAfter(line, p), rest, f);
      DecodedAppend(TokensOf(line, p, f), TokensOfAll(LineAfter(line, p), rest, f));
  }

  lemma {:induction false} StaticStringWeight(f: Fill)
    ensures PiecesWeight(STATIC_STRING, f) == 0
  {
  }

  lemma {:induction false} DataHeadWeight(f: Fill)
    ensures PiecesWeight(DATA_HEAD, f) == 0
  {
  }

  lemma {:induction false} DataRestWeight(f: Fill)
    ensures PiecesWeight(DATA_REST, f) == Weight(f.contents)
  {
  }

  lemma {:induction false} RunTemplate(st: State, ps: Pieces, f: Fill, l': Line)
    requires st.mode.Space? && IsTemplate(ps, st.line, l') && Filled(f)
    ensures var r := Run(st, TextAll(ps, f));
      r.mode.Space? && r.line == l' && Decoded(r.toks) == Decoded(st.toks) + PiecesWeight(ps, f)
  {
    TemplateLexes(ps, f, st.line, l');
    PiecesHold(st.line, ps, f);
    DecodedAppend(st.toks, TokensOfAll(st.line, ps, f));
  }

  lemma {:induction false} RunStaticString(st: State, f: Fill)
    requires st.mode.Space? && st.line.Fresh? && Filled(f)
    ensures var r := Run(st, "static const std::string ");
      r.mode.Space? && r.line.Code? && Decoded(r.toks) == Decoded(st.toks)
  {
    StaticStringCheck();
    StaticStringText(f);
    StaticStringWeight(f);
    RunTemplate(st, STATIC_STRING, f, Code);
  }

  lemma {:induction false} RunDataHead(st: State, f: Fill)
    requires st.mode.Space? && st.line.Code? && Filled(f)
    ensures var r := Run(st, TextAll(DATA_HEAD, f));
      r.mode.Space? && r.line.Code? && Decoded(r.toks) == Decoded(st.toks)
  {
    DataHeadCheck();
    DataHeadWeight(f);
    RunTemplate(st, DATA_HEAD, f, Code);
  }

  lemma {:induction false} RunDataOpen(st: State, f: Fill)
    requires st.mode.Space? && st.line.Fresh? && Filled(f)
    ensures var r := Run(st, DataOpen(f.index));
      r.mode.Space? && r.line.Code? && Decoded(r.toks) == Decoded(st.toks)
  {
    DataOpenText(f);
    RunAppend(st, "static const std::string ", TextAll(DATA_HEAD, f));
    RunStaticString(st, f);
    RunDataHead(Run(st, "static const std::string "), f);
  }

  lemma {:induction false} RunDataRest(st: State, f: Fill)
    requires st.mode.Space? && st.line.Code? && Filled(f)
    ensures var r := Run(st, DataBody(f.contents) + DataClose(|f.contents|));
      r.mode.Space? && r.line.Fresh? && Decoded(r.toks) == Decoded(st.toks) + Weight(f.contents)
  {
    DataRestCheck();
    DataRestText(f);
    DataRestWeight(f);
    RunTemplate(st, DATA_REST, f, Fresh);
  }

  /** The second constant of a definition. */
  function DataDecl(i: nat, c: seq<Byte>): string { DataOpen(i) + (DataBody(c) + DataClose(|c|)) }

  lemma {:induction false} DataInSpace(st: State, i: nat, c: seq<Byte>)
    requires st.mode.Space? && st.line.Fresh?
    ensures AddsAtMost(st, Run(st, DataDecl(i, c)), Weight(c)) && !Run(st, DataDecl(i, c)).mode.BlockComment?
  {
    var f := Fill(i, "", if c == [] then ['x'] else c);
    PlainCloses("");
    RunAppend(st, DataOpen(i), DataBody(c) + DataClose(|c|));
    RunDataOpen(st, f);
    if c == [] {
      RunEmptyData(Run(st, DataOpen(i)));
    } else {
      RunDataRest(Run(st, DataOpen(i)), f);
    }
  }

  lemma {:induction false} DataInComment(st: State, i: nat, c: seq<Byte>)
    requires st.mode.BlockComment?
    ensures Run(st, DataDecl(i, c)) == st
  {
    DataOpenLacks(i, '*');
    BodyLacks(c, '*');
    DataCloseLacks(|c|, '*');
    LacksAppend(DataBody(c), DataClose(|c|), '*');
    LacksAppend(DataOpen(i), DataBody(c) + DataClose(|c|), '*');
    RunCommentBody(st, DataDecl(i, c));
  }

  lemma {:induction false} DataBound(st: State, i: nat, c: seq<Byte>)
    requires Clean(st)
    ensures AddsAtMost(st, Run(st, DataDecl(i, c)), Weight(c))
  {
    if st.mode.Space? {
      DataInSpace(st, i, c);
    } else if st.mode.BlockComment? {
      DataInComment(st, i, c);
    } else {
      StuckForever(st, DataDecl(i, c));
    }
  }

  // ----- definitions

  lemma {:induction false} AddsTrans(a: State, b: State, c: State, m: nat, n: nat)
    requires (Stuck(b.mode) ==> c == b) && AddsAtMost(b, c, n)
    ensures AddsAtMost(a, b, m) ==> AddsAtMost(a, c, m + n)
    ensures AddsLess(a, b, m) ==> AddsLess(a, c, m + n)
  {
  }

  lemma {:induction false} RunDefinition(st: State, i: nat, f: File)
    ensures Run(st, Definition(i, f)) == Run(Run(st, NameDecl(i, f.name)), DataDecl(i, f.contents))
  {
    Assoc4(NameDecl(i, f.name), DataOpen(i), DataBody(f.contents), DataClose(|f.contents|));
    RunAppend(st, NameDecl(i, f.name), DataDecl(i, f.contents));
  }

  lemma {:induction false} DefinitionBound(st: State, i: nat, f: File)
    requires Clean(st)
    ensures AddsAtMost(st, Run(st, Definition(i, f)), |f.name| + Weight(f.contents))
    ensures st.mode.Space? && !Plain(f.name) ==> AddsLess(st, Run(st, Definition(i, f)), |f.name| + Weight(f.contents))
  {
    var st1 := Run(st, NameDecl(i, f.name));
    RunDefinition(st, i, f);
    NameBound(st, i, f.name);
    if Stuck(st1.mode) {
      StuckForever(st1, DataDecl(i, f.contents));
    } else {
      DataBound(st1, i, f.contents);
    }
    AddsTrans(st, st1, Run(st, Definition(i, f)), |f.name|, Weight(f.contents));
  }

  /** After a plain name the text goes on outside comments. */
  lemma {:induction false} PlainDefinition(st: State, i: nat, f: File)
    requires st.mode.Space? && st.line.Fresh? && Plain(f.name)
    ensures var r := Run(st, Definition(i, f)); Stuck(r.mode) || (r.mode.Space? && r.line.Fresh?)
  {
    var fill := Fill(i, f.name, ['x']);
    PlainCloses(f.name);
    NameDeclReads(fill);
    RunDefinition(st, i, f);
    DataInSpace(Run(st, NameDecl(i, f.name)), i, f.contents);
  }

  lemma {:induction false} RunDefinitions(st: State, fs: seq<File>, i: nat)
    requires fs != []
    ensures Run(st, Definitions(fs, i)) == Run(Run(st, Definition(i, fs[0])), Definitions(fs[1..], i + 1))
  {
    RunAppend(st, Definition(i, fs[0]), Definitions(fs[1..], i + 1));
  }

  lemma {:induction false} DefinitionsBound(st: State, fs: seq<File>, i: nat)
    requires Clean(st)
    ensures AddsAtMost(st, Run(st, Definitions(fs, i)), Total(fs))
    decreases |fs|
  {
    if fs != [] {
      var st1, more := Run(st, Definition(i, fs[0])), Definitions(fs[1..], i + 1);
      RunDefinitions(st, fs, i);
      DefinitionBound(st, i, fs[0]);
      if Stuck(st1.mode) {
        StuckForever(st1, more);
      } else {
        DefinitionsBound(st1, fs[1..], i + 1);
      }
      AddsTrans(st, st1, Run(st1, more), |fs[0].name| + Weight(fs[0].contents), Total(fs[1..]));
    }
  }

  lemma {:induction false} PlainTail(fs: seq<File>)
    requires !PlainNames(fs) && Plain(fs[0].name)
    ensures !PlainNames(fs[1..])
  {
    assert fs == [fs[0]] + fs[1..];
  }

  lemma {:induction false} AddsLater(a: State, b: State, c: State, m: nat, n: nat)
    requires AddsAtMost(a, b, m) && !Stuck(b.mode) && AddsLess(b, c, n)
    ensures AddsLess(a, c, m + n)
  {
  }

  lemma {:induction false} SpecialDefinitionsBound(st: State, fs: seq<File>, i: nat)
    requires st.mode.Space? && st.line.Fresh? && !PlainNames(fs)
    ensures AddsLess(st, Run(st, Definitions(fs, i)), Total(fs))
    decreases |fs|
  {
    var st1, more := Run(st, Definition(i, fs[0])), Definitions(fs[1..], i + 1);
    var n := |fs[0].name| + Weight(fs[0].contents);
    RunDefinitions(st, fs, i);
    DefinitionBound(st, i, fs[0]);
    if Stuck(st1.mode) {
      StuckForever(st1, more);
    } else if Plain(fs[0].name) {
      PlainDefinition(st, i, fs[0]);
      PlainTail(fs);
      SpecialDefinitionsBound(st1, fs[1..], i + 1);
      AddsLater(st, st1, Run(st1, more), n, Total(fs[1..]));
    } else {
      DefinitionsBound(st1, fs[1..], i + 1);
      AddsTrans(st, st1, Run(st1, more), n, Total(fs[1..]));
    }
  }

  // ----- the whole header

  lemma {:induction false} RunPrologue()
    ensures var st := Run(INITIAL, PROLOGUE); st.mode.Space? && st.line.Fresh? && Decoded(st.toks) == 0
  {
    PrologueLexes();
    PrologueLacks('"');
    RunWithoutQuote(INITIAL, PROLOGUE);
    assert Decoded([]) == 0;
  }

  /** What follows the definitions adds nothing. */
  lemma {:induction false} RunClosing(st: State, n: nat)
    requires Clean(st)
    ensures var r := Step(Run(st, Closing(n)), '\n'); Stuck(r.mode) || Decoded(r.toks) == Decoded(st.toks)
  {
    if Stuck(st.mode) {
      StuckForever(st, Closing(n));
    } else {
      ClosingLacks(n, '"');
      RunWithoutQuote(st, Closing(n));
      StepWithoutQuote(Run(st, Closing(n)), '\n');
    }
  }

  lemma {:induction false} RunHeader(fs: seq<File>)
    ensures Run(INITIAL, Header(fs)) == Run(Run(Run(INITIAL, PROLOGUE), Definitions(fs, 1)), Closing(|fs|))
  {
    RunAppend(INITIAL, PROLOGUE + Definitions(fs, 1), Closing(|fs|));
    RunAppend(INITIAL, PROLOGUE, Definitions(fs, 1));
  }

  lemma {:induction false} RunToTable(fs: seq<File>) returns (st: State)
    ensures st == Run(Run(INITIAL, PROLOGUE), Definitions(fs, 1)) && Clean(st)
    ensures Stuck(st.mode) || (Decoded(st.toks) <= Total(fs) && (!PlainNames(fs) ==> Decoded(st.toks) < Total(fs)))
  {
    var st0 := Run(INITIAL, PROLOGUE);
    st := Run(st0, Definitions(fs, 1));
    RunPrologue();
    DefinitionsBound(st0, fs, 1);
    if !PlainNames(fs) {
      SpecialDefinitionsBound(st0, fs, 1);
    }
  }

  lemma {:induction false} LexFrom(text: string, st: State, n: nat)
    requires Clean(st) && Run(INITIAL, text) == Run(st, Closing(n))
    ensures Lex(text).Accepted? ==> !Stuck(st.mode) && Decoded(Lex(text).value) == Decoded(st.toks)
  {
    RunClosing(st, n);
    if Stuck(st.mode) {
      StuckForever(st, Closing(n));
    }
  }

  /** The literals of a header hold no more than its files, and less if a name is not plain. */
  lemma {:induction false} HeaderBound(fs: seq<File>)
    ensures var r := Lex(Header(fs));
      r.Accepted? ==> Decoded(r.value) <= Total(fs) && (!PlainNames(fs) ==> Decoded(r.value) < Total(fs))
  {
    RunHeader(fs);
    var st := RunToTable(fs);
    LexFrom(Header(fs), st, |fs|);
  }
}
