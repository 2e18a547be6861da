/** The directives around the header: its include guard. */
module Guard {
  import opened HeaderText
  import opened Lexer
  import opened DataLiterals
  import opened Layout
  import opened Preprocessor
  import opened Phases
  import opened Fragments

  // ----- tokens

  const IFNDEF_LINE := Then(Hash, Then(Id("ifndef", true), Then(Id("TRANSLATION_FILES_H", false), Then(Eol, End))))
  const DEFINE_LINE := Then(Hash, Then(Id("define", true), Then(Id("TRANSLATION_FILES_H", false), Then(Eol, Then(Eol, End)))))
  const INCLUDE_LINE :=
    Then(Hash, Then(Id("include", true), Then(Op("<", false), Then(Id("string", false), Then(Op(">", false),
      Then(Eol, Then(Eol, End)))))))
  const ENDIF_WORD := Then(Hash, Then(Id("endif", true), End))

  const IFNDEF := [Word("ifndef"), Word(GUARD)]
  const DEFINE := [Word("define"), Word(GUARD)]
  const ENDIF := [Word("endif")]

  function DirectiveTokens(d: seq<Token>): seq<Token> { [Punct("#")] + d + [EndOfDirective] }

  lemma {:induction false} IfndefPieces()
    ensures TextAll(IFNDEF_LINE, NONE) == "#" + ("ifndef " + ("TRANSLATION_FILES_H" + ("\n" + "")))
  {
  }

  lemma GuardLine()
    ensures "TRANSLATION_FILES_H\n" == "TRANSLATION_FILES_H" + ("\n" + "")
  {
  }

  lemma IfndefWord()
    ensures "ifndef TRANSLATION_FILES_H\n" == "ifndef " + "TRANSLATION_FILES_H\n"
  {
  }

  lemma IfndefLine()
    ensures "#ifndef TRANSLATION_FILES_H\n" == "#" + "ifndef TRANSLATION_FILES_H\n"
  {
  }

  lemma {:induction false} IfndefText()
    ensures TextAll(IFNDEF_LINE, NONE) == "#ifndef TRANSLATION_FILES_H\n"
  {
    IfndefPieces();
    GuardLine();
    IfndefWord();
    IfndefLine();
  }

  lemma {:induction false} IfndefChained()
    ensures Chained(Space, Fresh, IFNDEF_LINE)
  {
  }

  lemma {:induction false} IfndefTokens()
    ensures TokensOfAll(Fresh, IFNDEF_LINE, NONE) == DirectiveTokens(IFNDEF)
    ensures LineAfterAll(Fresh, IFNDEF_LINE) == Fresh
  {
  }

  lemma {:induction false} IfndefLexes()
    ensures Lexes("#ifndef TRANSLATION_FILES_H\n", Fresh, DirectiveTokens(IFNDEF), Fresh)
  {
    IfndefText();
    IfndefChained();
    IfndefTokens();
    PiecesLex("#ifndef TRANSLATION_FILES_H\n", IFNDEF_LINE, Fresh, DirectiveTokens(IFNDEF), Fresh);
  }

  lemma {:induction false} DefinePieces()
    ensures TextAll(DEFINE_LINE, NONE) == "#" + ("define " + ("TRANSLATION_FILES_H" + ("\n" + ("\n" + ""))))
  {
  }

  lemma GuardLines()
    ensures "TRANSLATION_FILES_H\n\n" == "TRANSLATION_FILES_H" + ("\n" + ("\n" + ""))
  {
  }

  lemma DefineWord()
    ensures "define TRANSLATION_FILES_H\n\n" == "define " + "TRANSLATION_FILES_H\n\n"
  {
  }

  lemma DefineLine()
    ensures "#define TRANSLATION_FILES_H\n\n" == "#" + "define TRANSLATION_FILES_H\n\n"
  {
  }

  lemma {:induction false} DefineText()
    ensures TextAll(DEFINE_LINE, NONE) == "#define TRANSLATION_FILES_H\n\n"
  {
    DefinePieces();
    GuardLines();
    DefineWord();
    DefineLine();
  }

  lemma {:induction false} DefineChained()
    ensures Chained(Space, Fresh, DEFINE_LINE)
  {
  }

  lemma {:induction false} DefineTokens()
    ensures TokensOfAll(Fresh, DEFINE_LINE, NONE) == DirectiveTokens(DEFINE)
    ensures LineAfterAll(Fresh, DEFINE_LINE) == Fresh
  {
  }

  lemma {:induction false} DefineLexes()
    ensures Lexes("#define TRANSLATION_FILES_H\n\n", Fresh, DirectiveTokens(DEFINE), Fresh)
  {
    DefineText();
    DefineChained();
    DefineTokens();
    PiecesLex("#define TRANSLATION_FILES_H\n\n", DEFINE_LINE, Fresh, DirectiveTokens(DEFINE), Fresh);
  }

  lemma {:induction false} IncludeText()
    ensures TextAll(INCLUDE_LINE, NONE) == "#include <string>\n\n"
  {
  }

  lemma {:induction false} IncludeChained()
    ensures Chained(Space, Fresh, INCLUDE_LINE)
  {
  }

  lemma {:induction false} IncludeTokens()
    ensures TokensOfAll(Fresh, INCLUDE_LINE, NONE) == DirectiveTokens(INCLUDE_STRING)
    ensures LineAfterAll(Fresh, INCLUDE_LINE) == Fresh
  {
  }

  lemma {:induction false} IncludeLexes()
    ensures Lexes("#include <string>\n\n", Fresh, DirectiveTokens(INCLUDE_STRING), Fresh)
  {
    IncludeText();
    IncludeChained();
    IncludeTokens();
    PiecesLex("#include <string>\n\n", INCLUDE_LINE, Fresh, DirectiveTokens(INCLUDE_STRING), Fresh);
  }

  lemma {:induction false} EndifText()
    ensures TextAll(ENDIF_WORD, NONE) == "#endif "
  {
  }

  lemma {:induction false} EndifChained()
    ensures Chained(Space, Fresh, ENDIF_WORD)
  {
  }

  lemma {:induction false} EndifTokens()
    ensures TokensOfAll(Fresh, ENDIF_WORD, NONE) == [Punct("#"), Word("endif")]
    ensures LineAfterAll(Fresh, ENDIF_WORD) == Directive
  {
  }

  lemma {:induction false} EndifLexes()
    ensures Lexes("#endif ", Fresh, [Punct("#"), Word("endif")], Directive)
  {
    EndifText();
    EndifChained();
    EndifTokens();
    PiecesLex("#endif ", ENDIF_WORD, Fresh, [Punct("#"), Word("endif")], Directive);
  }

  lemma {:induction false} PiecesLex(s: string, ps: Pieces, l: Line, ts: seq<Token>, l': Line)
    requires Chained(Space, l, ps) && LineAfterAll(l, ps) == l'
    requires s == TextAll(ps, NONE) && ts == TokensOfAll(l, ps, NONE)
    ensures Lexes(s, l, ts, l')
  {
    forall st: State | st.mode.Space? && st.line == l ensures Run(st, s) == State(Space, st.toks + ts, l') {
      RunPieces(st, ps, NONE);
    }
  }

  const PROLOGUE_TOKENS := DirectiveTokens(IFNDEF) + (DirectiveTokens(DEFINE) + DirectiveTokens(INCLUDE_STRING))

  lemma {:induction false} PrologueLexes()
    ensures Lexes(PROLOGUE, Fresh, PROLOGUE_TOKENS, Fresh)
  {
    IfndefLexes();
    DefineLexes();
    IncludeLexes();
    LexesAppend("#define TRANSLATION_FILES_H\n\n", "#include <string>\n\n", Fresh, Fresh, Fresh,
      DirectiveTokens(DEFINE), DirectiveTokens(INCLUDE_STRING));
    LexesAppend("#ifndef TRANSLATION_FILES_H\n", "#define TRANSLATION_FILES_H\n\n" + "#include <string>\n\n", Fresh, Fresh, Fresh,
                DirectiveTokens(IFNDEF), DirectiveTokens(DEFINE) + DirectiveTokens(INCLUDE_STRING));
  }

  /** Inside a comment, anything but a star is skipped. */
  lemma {:induction false} RunCommentBody(st: State, s: string)
    requires st.mode.BlockComment?
    requires '*' !in s
    ensures Run(st, s) == st
    decreases |s|
  {
    if s != "" {
      RunCommentBody(st, s[1..]);
    }
  }

  lemma {:induction false} OpenComment(st: State)
    requires st.mode.Space?
    ensures Run(st, "/*") == st.(mode := BlockComment)
  {
    Run2(st, '/', '*');
  }

  lemma {:induction false} CloseComment(st: State)
    requires st.mode.BlockComment?
    ensures Run(st, "*/") == st.(mode := Space)
  {
    Run2(st, '*', '/');
  }

  lemma {:induction false} RunComment(st: State, open: string, s: string, close: string)
    requires st.mode.Space? && open == "/*" && close == "*/"
    requires '*' !in s
    ensures Run(st, open + s + close) == st
  {
    RunAppend(st, open + s, close);
    RunAppend(st, open, s);
    OpenComment(st);
    RunCommentBody(st.(mode := BlockComment), s);
    CloseComment(st.(mode := BlockComment));
  }

  lemma {:induction false} EndifRest(st: State, comment: string)
    requires st.mode.Space? && st.line.Directive? && Run(st, comment) == st
    ensures Run(st, comment + "\n") == State(Space, st.toks + [EndOfDirective], Fresh)
  {
    RunAppend(st, comment, "\n");
    Run1(st, '\n');
  }

  lemma {:induction false} EndifRestLexes(comment: string)
    requires comment == "/*" + " TRANSLATION_FILES_H " + "*/"
    ensures Lexes(comment + "\n", Directive, [EndOfDirective], Fresh)
  {
    forall st: State | st.mode.Space? && st.line.Directive?
      ensures Run(st, comment + "\n") == State(Space, st.toks + [EndOfDirective], Fresh)
    {
      RunComment(st, "/*", " TRANSLATION_FILES_H ", "*/");
      EndifRest(st, comment);
    }
  }

  lemma CommentOpen()
    ensures "/* TRANSLATION_FILES_H " == "/*" + " TRANSLATION_FILES_H "
  {
  }

  lemma CommentClose()
    ensures "/* TRANSLATION_FILES_H */" == "/* TRANSLATION_FILES_H " + "*/"
  {
  }

  lemma CommentLine()
    ensures "/* TRANSLATION_FILES_H */\n" == "/* TRANSLATION_FILES_H */" + "\n"
  {
  }

  lemma EndifLine()
    ensures EPILOGUE == "#endif " + "/* TRANSLATION_FILES_H */\n"
  {
  }

  lemma EpilogueText()
    ensures EPILOGUE == "#endif " + (("/*" + " TRANSLATION_FILES_H " + "*/") + "\n")
  {
    CommentOpen();
    CommentClose();
    CommentLine();
    EndifLine();
  }

  lemma {:induction false} EpilogueLexes()
    ensures Lexes(EPILOGUE, Fresh, DirectiveTokens(ENDIF), Fresh)
  {
    EndifLexes();
    var word := [Punct("#"), Word("endif")];
    var comment := "/*" + " TRANSLATION_FILES_H " + "*/";
    EndifRestLexes(comment);
    LexesAppend("#endif ", comment + "\n", Fresh, Directive, Fresh, word, [EndOfDirective]);
    EpilogueText();
    assert word + [EndOfDirective] == DirectiveTokens(ENDIF);
  }

  // ----- what the directives do

  /** The state between directives and code, in groups that are all kept. */
  function Entered(u: Unit): Unit {
    if GUARD in u.defined then u.(groups := u.groups + [false])
    else u.(defined := u.defined + {GUARD}, library := true, groups := u.groups + [true])
  }

  /** The guard opens a group that is kept the first time and dropped from then on. */
  lemma {:induction false} TakePrologue(u: Unit)
    requires Ready(u)
    ensures TakeAll(u, PROLOGUE_TOKENS) == Entered(u)
  {
    var u1 := u.(groups := u.groups + [GUARD !in u.defined]);
    TakeAppend(u, DirectiveTokens(IFNDEF), DirectiveTokens(DEFINE) + DirectiveTokens(INCLUDE_STRING));
    TakeDirective(u, IFNDEF);
    assert Obey(u, IFNDEF) == u1;
    TakeAppend(u1, DirectiveTokens(DEFINE), DirectiveTokens(INCLUDE_STRING));
    TakeDirective(u1, DEFINE);
    TakeDirective(Obey(u1, DEFINE), INCLUDE_STRING);
  }

  lemma {:induction false} TakeEpilogue(u: Unit)
    requires u.ok && u.directive.None? && u.groups != []
    ensures TakeAll(u, DirectiveTokens(ENDIF)) == u.(groups := u.groups[..|u.groups| - 1])
  {
    TakeDirective(u, ENDIF);
  }
}
