/** The declaration of a name, up to the quote that opens its literal. */
module NameHeads {
  import opened Numerals
  import opened HeaderText
  import opened Lexer
  import opened DataLiterals
  import opened Layout
  import opened Phases
  import opened Fragments
  import opened FixedLines
  import opened FileLines

  const NAME_HEAD := Then(NameIdent, Then(Gap(" "), Then(Op("=", true), End)))

  /** The tokens in front of the literal. */
  function HeadTokens(i: nat): seq<Token> {
    [Word("static"), Word("const"), Word("std"), Punct("::"), Word("string"), Word(NameId(i)), Punct("=")]
  }

  function HeadText(i: nat): string { "static const std::string " + (NameId(i) + (" " + ("= " + ""))) }

  lemma {:induction false} HeadFragment(i: nat)
    ensures Lexes(HeadText(i), Fresh, HeadTokens(i), Code) && Copies(HeadTokens(i), HeadTokens(i))
  {
    var f := Fill(i, "", ['x']);
    StaticStringCheck();
    StaticStringText(f);
    TemplateLexes(STATIC_STRING, f, Fresh, Code);
    NameHeadCheck();
    assert TextAll(NAME_HEAD, f) == NameId(i) + (" " + ("= " + ""));
    TemplateLexes(NAME_HEAD, f, Code, Code);
    LexesAppend("static const std::string ", TextAll(NAME_HEAD, f), Fresh, Code, Code,
                TokensOfAll(Fresh, STATIC_STRING, f), TokensOfAll(Code, NAME_HEAD, f));
    TemplateCopies(STATIC_STRING, f, Fresh, Code);
    TemplateCopies(NAME_HEAD, f, Code, Code);
    CopiesAppend(TokensOfAll(Fresh, STATIC_STRING, f), TokensOfAll(Code, NAME_HEAD, f),
                 JoinedOfAll(STATIC_STRING, f), JoinedOfAll(NAME_HEAD, f));
    HeadTokensOf(f);
  }

  lemma {:induction false} NameHeadCheck() ensures IsTemplate(NAME_HEAD, Code, Code) { }

  lemma {:induction false} HeadTokensOf(f: Fill)
    ensures TokensOfAll(Fresh, STATIC_STRING, f) + TokensOfAll(Code, NAME_HEAD, f) == HeadTokens(f.index)
    ensures JoinedOfAll(STATIC_STRING, f) + JoinedOfAll(NAME_HEAD, f) == HeadTokens(f.index)
  {
  }

  lemma QuotedShape(p: string, d: string, e: string, name: string, q: string)
    ensures p + d + (e + "\"") + name + q == (p + d + e) + ("\"" + (name + q))
  {
  }

  lemma {:induction false} NameDeclParts(i: nat, name: string)
    ensures NameDecl(i, name) == HeadText(i) + ("\"" + (name + "\";\n"))
  {
    assert "static const std::string translation_file_name_" == "static const std::string " + "translation_file_name_";
    assert " = \"" == " = " + "\"";
    QuotedShape("static const std::string translation_file_name_", Dec(i), " = ", name, "\";\n");
    HeadTextParts(i);
  }

  lemma {:induction false} HeadTextParts(i: nat)
    ensures HeadText(i) == "static const std::string translation_file_name_" + Dec(i) + " = "
  {
    assert "static const std::string translation_file_name_" == "static const std::string " + "translation_file_name_";
    assert " = " == " " + ("= " + "");
    DataOpenShape("static const std::string ", "translation_file_name_", Dec(i), " = ");
  }

  /** Just after the opening quote of name `i`. */
  function AfterQuote(st: State, i: nat): State { State(InStr(""), st.toks + HeadTokens(i), Code) }

  lemma {:induction false} RunNameDecl(st: State, i: nat, name: string)
    requires st.mode.Space? && st.line.Fresh?
    ensures Run(st, NameDecl(i, name)) == Run(Run(AfterQuote(st, i), name), "\";\n")
  {
    NameDeclParts(i, name);
    HeadFragment(i);
    var st0 := State(Space, st.toks + HeadTokens(i), Code);
    RunAppend(st, HeadText(i), "\"" + (name + "\";\n"));
    RunAppend(st0, "\"", name + "\";\n");
    Run1(st0, '"');
    RunAppend(AfterQuote(st, i), name, "\";\n");
  }
}
