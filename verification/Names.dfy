/** Which names survive being printed as they stand, one declaration at a time. */
module Names {
  import opened Basics
  import opened HeaderText
  import opened Lexer
  import opened Layout
  import opened Preprocessor
  import opened Fragments
  import opened Syntax
  import opened Parser
  import opened FileDefinitions
  import opened Guard
  import opened Program
  import opened Reading
  import opened NameValues
  import opened NameHeads
  import opened Splicing
  import opened Meaning

  /** The declaration of one name, after the line it needs. */
  function Alone(i: nat, name: string): string { INCLUDE_TEXT + NameDecl(i, name) }

  lemma {:induction false} ClosingNameLoads(f: Fill)
    requires Filled(f)
    ensures Translate(Alone(f.index, f.name)) == Compile(NameTokens(f))
  {
    NameDeclReads(f);
    var ts :| Lexes(NameDecl(f.index, f.name), Fresh, ts, Fresh) && Copies(ts, NameTokens(f));
    var line := DirectiveTokens(INCLUDE_STRING);
    IncludeLexes();
    LexesAppend(INCLUDE_TEXT, NameDecl(f.index, f.name), Fresh, Fresh, Fresh, line, ts);
    TakeInclude(line, ts, NameTokens(f));
    TranslateOf(Alone(f.index, f.name), line + ts, NameTokens(f));
  }

  lemma {:induction false} TakeInclude(line: seq<Token>, ts: seq<Token>, js: seq<Token>)
    requires line == DirectiveTokens(INCLUDE_STRING) && Copies(ts, js)
    ensures Preprocess(line + ts) == Accepted(js)
  {
    var u := EMPTY_UNIT.(library := true);
    TakeDirective(EMPTY_UNIT, INCLUDE_STRING);
    TakeAppend(EMPTY_UNIT, line, ts);
    assert TakeAll(u, ts) == u.(out := [] + js);
    assert [] + js == js;
  }

  lemma {:induction false} ParseName(f: Fill, end: Tokens)
    requires end.Nil?
    ensures Declarations(Listed(NameTokens(f), end)) == Some([FromLiteral(NameId(f.index), Value(f.name))])
  {
    ParseNameDecl(f, end);
    OneDeclaration(Listed(NameTokens(f), end), FromLiteral(NameId(f.index), Value(f.name)), end);
  }

  lemma {:induction false} DeclareOne(d: Decl)
    ensures DeclareAll(NO_PROGRAM, [d]) == Declare(NO_PROGRAM, d)
  {
    assert [d][1..] == [];
  }

  /** A program with one string. */
  function OneString(id: string, value: string): Program { NO_PROGRAM.(strings := map[id := value]) }

  lemma {:induction false} ClosingNameMeans(i: nat, name: CString)
    requires Closes(name)
    ensures Translate(Alone(i, name)) == Accepted(OneString(NameId(i), ReadName(name)))
  {
    var f := Fill(i, name, ['x']);
    ClosingNameLoads(f);
    ParseName(f, Nil);
    DeclareOne(FromLiteral(NameId(i), Value(name)));
  }

  lemma {:induction false} BadNameFails(i: nat, name: CString)
    requires '"' !in name && !NameVerdict(name).Accepted?
    ensures Translate(Alone(i, name)) == if NameVerdict(name).IllFormed? then IllFormed else NotModelled
  {
    IncludeLexes();
    var st := Run(INITIAL, INCLUDE_TEXT);
    RunAppend(INITIAL, INCLUDE_TEXT, NameDecl(i, name));
    RunNameDecl(st, i, name);
    RunBadName(AfterQuote(st, i), name);
    StuckLex(Alone(i, name), NameVerdict(name));
    LexDecides(Alone(i, name));
  }

  lemma {:induction false} SpliceAlone(i: nat, name: CString)
    ensures Splice(Alone(i, name)) == Alone(i, SpliceName(name))
  {
    assert '\\' !in INCLUDE_TEXT;
    SpliceKeeps(INCLUDE_TEXT);
    SpliceAppend(INCLUDE_TEXT, NameDecl(i, name));
    SpliceNameDecl(i, name);
  }

  /** Read on its own, after the line it needs, the declaration gives the name back. */
  predicate ReadsBack(i: nat, name: CString) {
    var p := Load(Alone(i, name));
    p.Accepted? && NameId(i) in p.value.strings && p.value.strings[NameId(i)] == name
  }

  /**
   * A name without a double quote stays inside its literal. The constant then holds the
   * name if and only if the name is plain: no backslash and no newline. Otherwise it holds
   * fewer characters, or the text is no C++; what is not known are escape sequences whose
   * value is left to the implementation.
   */
  lemma {:induction false} QuoteFreeNameReadsBackIff(i: nat, name: CString)
    requires '"' !in name
    ensures ReadsBack(i, name) <==> Plain(name)
    ensures Load(Alone(i, name)) ==
      match NameVerdict(SpliceName(name))
      case Accepted(_) => Accepted(OneString(NameId(i), ReadName(SpliceName(name))))
      case IllFormed => IllFormed
      case NotModelled => NotModelled
    ensures !Plain(name) ==> |ReadName(SpliceName(name))| < |name|
  {
    var s := SpliceName(name);
    SpliceAlone(i, name);
    SplicePart(name);
    VerdictOfClosing(s);
    ReadsBackIffPlain(name);
    if Closes(s) {
      ClosingNameMeans(i, s);
    } else {
      BadNameFails(i, s);
    }
  }
}
