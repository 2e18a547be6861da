/** The header as a whole: its tokens, its declarations and the program they make. */
module Reading {
  import opened Basics
  import opened HeaderText
  import opened Lexer
  import opened Layout
  import opened Preprocessor
  import opened Phases
  import opened Fragments
  import opened FixedLines
  import opened Syntax
  import opened Parser
  import opened FileDefinitions
  import opened Tables
  import opened LookupText
  import opened LookupReading
  import opened Guard
  import opened Program

  /** The names are literals as they stand, whatever these read, and no file is empty. */
  predicate AllPrintable(fs: seq<File>) { forall i :: 0 <= i < |fs| ==> Printable(fs[i]) }

  // ----- tokens

  function DefinitionTokens(i: nat, f: File): seq<Token> { NameTokens(FillOf(i, f)) + DataTokens(FillOf(i, f)) }

  function DefinitionsTokens(fs: seq<File>, i: nat): seq<Token>
    decreases |fs|
  {
    if fs == [] then [] else DefinitionTokens(i, fs[0]) + DefinitionsTokens(fs[1..], i + 1)
  }

  lemma {:induction false} DefinitionsRead(fs: seq<File>, i: nat)
    requires AllPrintable(fs)
    ensures IsFragment(Definitions(fs, i), Fresh, DefinitionsTokens(fs, i), Fresh)
    decreases |fs|
  {
    if fs == [] {
      EmptyFragment(Fresh);
    } else {
      DefinitionReads(i, fs[0]);
      DefinitionsRead(fs[1..], i + 1);
      FragmentAppend(Definition(i, fs[0]), Definitions(fs[1..], i + 1), Fresh, Fresh, Fresh,
                     DefinitionTokens(i, fs[0]), DefinitionsTokens(fs[1..], i + 1));
    }
  }

  /** What comes between the guard's directives. */
  function Inside(fs: seq<File>): string {
    Definitions(fs, 1) + ((TABLE_OPEN + (Rows(1, |fs| + 1) + TABLE_CLOSE)) + (LOOKUP + "\n"))
  }

  function InsideTokens(fs: seq<File>): seq<Token> {
    DefinitionsTokens(fs, 1) + (TableTokens(|fs|) + LOOKUP_TOKENS)
  }

  lemma {:induction false} LookupLineReads()
    ensures IsFragment(LOOKUP + "\n", Fresh, LOOKUP_TOKENS, Fresh)
  {
    LookupReads();
    BlankLineCheck();
    BlankLineText(NONE);
    TemplateFragment("\n", BLANK_LINE, NONE, Fresh, Fresh);
    FragmentAppend(LOOKUP, "\n", Fresh, Fresh, Fresh, LOOKUP_TOKENS, []);
    assert LOOKUP_TOKENS + [] == LOOKUP_TOKENS;
  }

  lemma {:induction false} InsideReads(fs: seq<File>)
    requires AllPrintable(fs)
    ensures IsFragment(Inside(fs), Fresh, InsideTokens(fs), Fresh)
  {
    LookupLineReads();
    var table := TABLE_OPEN + (Rows(1, |fs| + 1) + TABLE_CLOSE);
    TableReads(|fs|);
    FragmentAppend(table, LOOKUP + "\n", Fresh, Fresh, Fresh, TableTokens(|fs|), LOOKUP_TOKENS);
    DefinitionsRead(fs, 1);
    FragmentAppend(Definitions(fs, 1), table + (LOOKUP + "\n"), Fresh, Fresh, Fresh,
                   DefinitionsTokens(fs, 1), TableTokens(|fs|) + LOOKUP_TOKENS);
  }

  lemma HeaderShape(p: string, d: string, a: string, b: string, c: string, l: string, n: string, e: string)
    ensures p + d + (a + b + c + l + n + e) == p + ((d + ((a + (b + c)) + (l + n))) + e)
  {
  }

  lemma {:induction false} HeaderIsInside(fs: seq<File>)
    ensures Header(fs) == PROLOGUE + (Inside(fs) + EPILOGUE)
  {
    HeaderShape(PROLOGUE, Definitions(fs, 1), TABLE_OPEN, Rows(1, |fs| + 1), TABLE_CLOSE, LOOKUP, "\n", EPILOGUE);
  }

  /** The tokens of the header; `inside` are those between the guard's directives. */
  function HeaderTokens(inside: seq<Token>): seq<Token> { PROLOGUE_TOKENS + (inside + DirectiveTokens(ENDIF)) }

  lemma {:induction false} HeaderLexes(fs: seq<File>) returns (inside: seq<Token>)
    requires AllPrintable(fs)
    ensures Copies(inside, InsideTokens(fs))
    ensures Lexes(Header(fs), Fresh, HeaderTokens(inside), Fresh)
  {
    InsideReads(fs);
    inside :| Lexes(Inside(fs), Fresh, inside, Fresh) && Copies(inside, InsideTokens(fs));
    PrologueLexes();
    EpilogueLexes();
    LexesAppend(Inside(fs), EPILOGUE, Fresh, Fresh, Fresh, inside, DirectiveTokens(ENDIF));
    LexesAppend(PROLOGUE, Inside(fs) + EPILOGUE, Fresh, Fresh, Fresh, PROLOGUE_TOKENS, inside + DirectiveTokens(ENDIF));
    HeaderIsInside(fs);
  }

  /** A translation unit outside all groups and directives, where the guard's name may be defined. */
  predicate AtTop(u: Unit) { u.ok && u.directive.None? && u.groups == [] && u.defined <= {GUARD} && !EndsInLiteral(u.out) }

  /** Including the header adds its declarations, unless it was included before. */
  lemma {:induction false} TakeHeader(u: Unit, inside: seq<Token>, js: seq<Token>)
    requires AtTop(u) && Copies(inside, js)
    ensures TakeAll(u, HeaderTokens(inside)) ==
      if GUARD in u.defined then u else u.(defined := {GUARD}, library := true, out := u.out + js)
    ensures GUARD !in u.defined ==> !EndsInLiteral(u.out + js)
  {
    TakeAppend(u, PROLOGUE_TOKENS, inside + DirectiveTokens(ENDIF));
    TakePrologue(u);
    var u1 := Entered(u);
    TakeAppend(u1, inside, DirectiveTokens(ENDIF));
    if GUARD in u.defined {
      assert u1.groups == [false];
      TakeSkipped(u1, inside);
      TakeEpilogue(u1);
    } else {
      assert u.defined == {} && u1.defined == {GUARD} && u1.groups == [true];
      TakeEpilogue(u1.(out := u1.out + js));
    }
  }

  lemma {:induction false} LexOf(text: string, ts: seq<Token>)
    requires Lexes(text, Fresh, ts, Fresh)
    ensures Lex(text) == Accepted(ts)
  {
    assert [] + ts == ts;
    assert Run(INITIAL, text) == State(Space, ts, Fresh);
  }

  lemma {:induction false} PreprocessOnce(inside: seq<Token>, js: seq<Token>)
    requires Copies(inside, js)
    ensures Preprocess(HeaderTokens(inside)) == Accepted(js)
  {
    TakeHeader(EMPTY_UNIT, inside, js);
    assert [] + js == js;
  }

  lemma {:induction false} PreprocessTwice(inside: seq<Token>, js: seq<Token>)
    requires Copies(inside, js)
    ensures Preprocess(HeaderTokens(inside) + HeaderTokens(inside)) == Accepted(js)
  {
    var ts := HeaderTokens(inside);
    TakeAppend(EMPTY_UNIT, ts, ts);
    TakeHeader(EMPTY_UNIT, inside, js);
    assert [] + js == js;
    var u := EMPTY_UNIT.(defined := {GUARD}, library := true, out := js);
    TakeHeader(u, inside, js);
  }

  // ----- declarations

  function FileDecls(fs: seq<File>, i: nat): seq<Decl>
    decreases |fs|
  {
    if fs == [] then []
    else [FromLiteral(NameId(i), Value(fs[0].name)), FromArray(DataId(i), fs[0].contents,
      |fs[0].contents|)] + FileDecls(fs[1..], i + 1)
  }

  function HeaderDecls(fs: seq<File>): seq<Decl> { FileDecls(fs, 1) + [TableDecl(|fs|), FIND_DECL] }

  lemma {:induction false} DeclarationsStep(ts: Tokens, d: Decl, rest: Tokens, ds: seq<Decl>)
    requires Declaration(ts) == Some((d, rest)) && Declarations(rest) == Some(ds)
    ensures Declarations(ts) == Some([d] + ds)
  {
  }

  lemma {:induction false} ParseDefinition(i: nat, f: File, rest: Tokens, ds: seq<Decl>)
    requires Declarations(rest) == Some(ds)
    ensures Declarations(Listed(DefinitionTokens(i, f), rest)) ==
      Some([FromLiteral(NameId(i), Value(f.name))] + ([FromArray(DataId(i), f.contents, |f.contents|)] + ds))
  {
    var fill := FillOf(i, f);
    ListedAppend(NameTokens(fill), DataTokens(fill), rest);
    var data := Listed(DataTokens(fill), rest);
    ParseDataDecl(fill, rest);
    DeclarationsStep(data, FromArray(DataId(i), f.contents, |f.contents|), rest, ds);
    ParseNameDecl(fill, data);
    DeclarationsStep(Listed(NameTokens(fill), data), FromLiteral(NameId(i), Value(f.name)), data,
                     [FromArray(DataId(i), f.contents, |f.contents|)] + ds);
  }

  lemma DeclsShape(a: Decl, b: Decl, more: seq<Decl>, ds: seq<Decl>)
    ensures [a] + ([b] + (more + ds)) == [a, b] + more + ds
  {
  }

  lemma {:induction false} ParseDefinitions(fs: seq<File>, i: nat, rest: Tokens, ds: seq<Decl>)
    requires Declarations(rest) == Some(ds)
    ensures Declarations(Listed(DefinitionsTokens(fs, i), rest)) == Some(FileDecls(fs, i) + ds)
    decreases |fs|
  {
    if fs == [] {
      assert [] + ds == ds;
    } else {
      var f := fs[0];
      ParseDefinitions(fs[1..], i + 1, rest, ds);
      ListedAppend(DefinitionTokens(i, f), DefinitionsTokens(fs[1..], i + 1), rest);
      ParseDefinition(i, f, Listed(DefinitionsTokens(fs[1..], i + 1), rest), FileDecls(fs[1..], i + 1) + ds);
      DeclsShape(FromLiteral(NameId(i), Value(f.name)), FromArray(DataId(i), f.contents, |f.contents|),
        FileDecls(fs[1..], i + 1), ds);
    }
  }

  lemma {:induction false} OneDeclaration(ts: Tokens, d: Decl, end: Tokens)
    requires end.Nil? && Declaration(ts) == Some((d, end))
    ensures Declarations(ts) == Some([d])
  {
    DeclarationsStep(ts, d, end, []);
    assert [d] + [] == [d];
  }

  lemma {:induction false} TwoDeclarations(ts: Tokens, d: Decl, rest: Tokens, d': Decl)
    requires Declaration(ts) == Some((d, rest)) && Declarations(rest) == Some([d'])
    ensures Declarations(ts) == Some([d, d'])
  {
    DeclarationsStep(ts, d, rest, [d']);
    assert [d] + [d'] == [d, d'];
  }

  lemma {:induction false} ParseTableAndLookup(count: nat, end: Tokens)
    requires end.Nil?
    ensures Declarations(Listed(TableTokens(count) + LOOKUP_TOKENS, end)) == Some([TableDecl(count), FIND_DECL])
  {
    var lookup := Listed(LOOKUP_TOKENS, end);
    ParseLookupTokens(end);
    OneDeclaration(lookup, FIND_DECL, end);
    ListedAppend(TableTokens(count), LOOKUP_TOKENS, end);
    ParseTable(count, lookup);
    TwoDeclarations(Listed(TableTokens(count), lookup), TableDecl(count), lookup, FIND_DECL);
  }

  lemma {:induction false} ParseInside(fs: seq<File>, end: Tokens)
    requires end.Nil?
    ensures Declarations(Listed(InsideTokens(fs), end)) == Some(HeaderDecls(fs))
  {
    var rest := TableTokens(|fs|) + LOOKUP_TOKENS;
    ParseTableAndLookup(|fs|, end);
    ListedAppend(DefinitionsTokens(fs, 1), rest, end);
    ParseDefinitions(fs, 1, Listed(rest, end), [TableDecl(|fs|), FIND_DECL]);
  }

  lemma {:induction false} TranslateOf(text: string, ts: seq<Token>, js: seq<Token>)
    requires Lexes(text, Fresh, ts, Fresh) && Preprocess(ts) == Accepted(js)
    ensures Translate(text) == Compile(js)
  {
    LexOf(text, ts);
  }

  /** The header declares a name and a data constant for each file, the table and the function. */
  lemma {:induction false} HeaderDeclares(fs: seq<File>)
    requires AllPrintable(fs)
    ensures Translate(Header(fs)) == DeclareAll(NO_PROGRAM, HeaderDecls(fs))
  {
    var inside := HeaderLexes(fs);
    PreprocessOnce(inside, InsideTokens(fs));
    TranslateOf(Header(fs), HeaderTokens(inside), InsideTokens(fs));
    ParseInside(fs, Nil);
  }

  lemma {:induction false} TranslatedTwice(fs: seq<File>)
    requires AllPrintable(fs)
    ensures Translate(Header(fs) + Header(fs)) == Translate(Header(fs))
  {
    var inside := HeaderLexes(fs);
    var ts := HeaderTokens(inside);
    LexesAppend(Header(fs), Header(fs), Fresh, Fresh, Fresh, ts, ts);
    PreprocessOnce(inside, InsideTokens(fs));
    PreprocessTwice(inside, InsideTokens(fs));
    TranslateOf(Header(fs), ts, InsideTokens(fs));
    TranslateOf(Header(fs) + Header(fs), ts + ts, InsideTokens(fs));
  }
}
