/** What the definitions of the header declare. */
module FileDefinitions {
  import opened Basics
  import opened Numerals
  import opened HeaderText
  import opened Lexer
  import opened Layout
  import opened Phases
  import opened Fragments
  import opened FixedLines
  import opened FileLines
  import opened Syntax
  import opened Parser

  function FillOf(i: nat, f: File): Fill { Fill(i, f.name, f.contents) }

  /** The name is one literal as it stands, and there is at least one byte. */
  predicate Printable(f: File) { Closes(f.name) && f.contents != [] }

  // ----- tokens

  function NameTokens(f: Fill): seq<Token> { JoinedOfAll(STATIC_STRING, f) + JoinedOfAll(NAME_REST, f) }

  function DataTokens(f: Fill): seq<Token> {
    JoinedOfAll(STATIC_STRING, f) + JoinedOfAll(DATA_HEAD, f) + JoinedOfAll(DATA_REST, f)
  }

  lemma {:induction false} NameDeclReads(f: Fill)
    requires Filled(f)
    ensures IsFragment(NameDecl(f.index, f.name), Fresh, NameTokens(f), Fresh)
  {
    StaticStringCheck();
    StaticStringText(f);
    TemplateFragment("static const std::string ", STATIC_STRING, f, Fresh, Code);
    NameRestCheck();
    TemplateFragment(TextAll(NAME_REST, f), NAME_REST, f, Code, Fresh);
    FragmentAppend("static const std::string ", TextAll(NAME_REST, f), Fresh, Code, Fresh,
                   JoinedOfAll(STATIC_STRING, f), JoinedOfAll(NAME_REST, f));
    NameDeclText(f);
  }

  lemma {:induction false} DataOpenReads(f: Fill)
    requires Filled(f)
    ensures IsFragment(DataOpen(f.index), Fresh, JoinedOfAll(STATIC_STRING, f) + JoinedOfAll(DATA_HEAD, f), Code)
  {
    StaticStringCheck();
    StaticStringText(f);
    TemplateFragment("static const std::string ", STATIC_STRING, f, Fresh, Code);
    DataHeadCheck();
    TemplateFragment(TextAll(DATA_HEAD, f), DATA_HEAD, f, Code, Code);
    FragmentAppend("static const std::string ", TextAll(DATA_HEAD, f), Fresh, Code, Code,
                   JoinedOfAll(STATIC_STRING, f), JoinedOfAll(DATA_HEAD, f));
    DataOpenText(f);
  }

  lemma {:induction false} DataDeclReads(f: Fill)
    requires Filled(f)
    ensures IsFragment(DataOpen(f.index) + (DataBody(f.contents) + DataClose(|f.contents|)), Fresh, DataTokens(f), Fresh)
  {
    DataOpenReads(f);
    DataRestCheck();
    DataRestText(f);
    TemplateFragment(DataBody(f.contents) + DataClose(|f.contents|), DATA_REST, f, Code, Fresh);
    FragmentAppend(DataOpen(f.index), DataBody(f.contents) + DataClose(|f.contents|), Fresh, Code, Fresh,
                   JoinedOfAll(STATIC_STRING, f) + JoinedOfAll(DATA_HEAD, f), JoinedOfAll(DATA_REST, f));
  }

  lemma {:induction false} DefinitionReads(i: nat, f: File)
    requires Printable(f)
    ensures IsFragment(Definition(i, f), Fresh, NameTokens(FillOf(i, f)) + DataTokens(FillOf(i, f)), Fresh)
  {
    var fill := FillOf(i, f);
    NameDeclReads(fill);
    DataDeclReads(fill);
    FragmentAppend(NameDecl(i, f.name), DataOpen(i) + (DataBody(f.contents) + DataClose(|f.contents|)), Fresh, Fresh, Fresh,
                   NameTokens(fill), DataTokens(fill));
    Assoc4(NameDecl(i, f.name), DataOpen(i), DataBody(f.contents), DataClose(|f.contents|));
  }

  // ----- declarations

  lemma {:induction false} IdentsAreNames(i: nat)
    ensures !IsKeyword(NameId(i)) && !IsKeyword(DataId(i))
  {
    assert |NameId(i)| > 20 && |DataId(i)| > 20;
  }

  lemma {:induction false} ParseStaticString(f: Fill, rest: Tokens)
    ensures Attach(STATIC_STRING, f, rest) ==
      Cons(Word("static"), Cons(Word("const"), Cons(Word("std"), Cons(Punct("::"), Cons(Word("string"), rest)))))
    ensures Declaration(Attach(STATIC_STRING, f, rest)) == StringConstant(rest)
  {
  }

  lemma {:induction false} AttachNameRest(f: Fill, rest: Tokens)
    ensures Attach(NAME_REST, f, rest) == Cons(Word(NameId(f.index)), Cons(Punct("="), Cons(Str(Value(f.name)),
      Cons(Punct(";"), rest))))
  {
  }

  lemma {:induction false} ParseLiteralConstant(id: string, v: string, rest: Tokens)
    requires !IsKeyword(id)
    ensures StringConstant(Cons(Word(id), Cons(Punct("="), Cons(Str(v), Cons(Punct(";"), rest))))) ==
      Some((FromLiteral(id, v), rest))
  {
  }

  lemma {:induction false} ParseNameDecl(f: Fill, rest: Tokens)
    ensures Declaration(Listed(NameTokens(f), rest)) == Some((FromLiteral(NameId(f.index), Value(f.name)), rest))
  {
    ListedAppend(JoinedOfAll(STATIC_STRING, f), JoinedOfAll(NAME_REST, f), rest);
    ListedTemplate(NAME_REST, f, rest);
    var tail := Attach(NAME_REST, f, rest);
    ListedTemplate(STATIC_STRING, f, tail);
    ParseStaticString(f, tail);
    AttachNameRest(f, rest);
    IdentsAreNames(f.index);
    ParseLiteralConstant(NameId(f.index), Value(f.name), rest);
  }

  lemma {:induction false} ParseDataRest(f: Fill, rest: Tokens)
    ensures Attach(DATA_REST, f, rest) ==
      Cons(Str(f.contents), Cons(Punct(","), Cons(Number(Dec(|f.contents|)), Cons(Punct(")"), Cons(Punct(";"), rest)))))
  {
  }

  lemma {:induction false} ParseDataHead(f: Fill, rest: Tokens)
    ensures Attach(DATA_HEAD, f, rest) ==
      Cons(Word(DataId(f.index)), Cons(Punct("="), Cons(Word("std"), Cons(Punct("::"), Cons(Word("string"),
        Cons(Punct("("), rest))))))
  {
  }

  lemma {:induction false} ParseArrayTail(id: string, ts: Tokens, v: string, n: nat, rest: Tokens)
    requires !IsKeyword(id) && n <= LITERAL_MAX
    requires ts == Cons(Str(v), Cons(Punct(","), Cons(Number(Dec(n)), Cons(Punct(")"), Cons(Punct(";"), rest)))))
    ensures StringConstant(Cons(Word(id), Cons(Punct("="), Cons(Word("std"), Cons(Punct("::"), Cons(Word("string"),
      Cons(Punct("("), ts))))))) ==
      Some((FromArray(id, v, n), rest))
  {
    IntegerLiteralOfDec(n);
  }

  lemma {:induction false} ListedDataTokens(f: Fill, rest: Tokens)
    ensures Listed(DataTokens(f), rest) == Attach(STATIC_STRING, f, Attach(DATA_HEAD, f, Attach(DATA_REST, f, rest)))
  {
    var a, b, c := JoinedOfAll(STATIC_STRING, f), JoinedOfAll(DATA_HEAD, f), JoinedOfAll(DATA_REST, f);
    ListedAppend(a + b, c, rest);
    ListedTemplate(DATA_REST, f, rest);
    var tail := Attach(DATA_REST, f, rest);
    ListedAppend(a, b, tail);
    ListedTemplate(DATA_HEAD, f, tail);
    ListedTemplate(STATIC_STRING, f, Attach(DATA_HEAD, f, tail));
  }

  lemma {:induction false} ParseDataDecl(f: Fill, rest: Tokens)
    requires |f.contents| <= INT_MAX
    ensures Declaration(Listed(DataTokens(f), rest)) == Some((FromArray(DataId(f.index), f.contents, |f.contents|), rest))
  {
    ListedDataTokens(f, rest);
    var tail := Attach(DATA_REST, f, rest);
    ParseStaticString(f, Attach(DATA_HEAD, f, tail));
    ParseDataHead(f, tail);
    ParseDataRest(f, rest);
    IdentsAreNames(f.index);
    ParseArrayTail(DataId(f.index), tail, f.contents, |f.contents|, rest);
  }
}
