/** What the table of the header declares. */
module Tables {
  import opened Basics
  import opened HeaderText
  import opened Lexer
  import opened Layout
  import opened Phases
  import opened Fragments
  import opened FixedLines
  import opened FileLines
  import opened Syntax
  import opened Parser
  import opened FileDefinitions

  // ----- tokens

  const OPEN_TOKENS :=
    JoinedOfAll(STRUCT_LINE, NONE) + (JoinedOfAll(NAME_FIELD_LINE, NONE) +
    (JoinedOfAll(DATA_FIELD_LINE, NONE) + JoinedOfAll(ARRAY_LINE, NONE)))

  const CLOSE_TOKENS := JoinedOfAll(NULL_ROW, NONE) + JoinedOfAll(ARRAY_END, NONE)

  function RowTokens(i: nat): seq<Token> {
    JoinedOfAll(ROW_NAME, Numbered(i)) + JoinedOfAll(ROW_DATA, Numbered(i))
  }

  function RowsTokens(i: nat, n: nat): seq<Token>
    decreases n - i
  {
    if i >= n then [] else RowTokens(i) + RowsTokens(i + 1, n)
  }

  lemma {:induction false} TableOpenReads()
    ensures IsFragment(TABLE_OPEN, Fresh, OPEN_TOKENS, Fresh)
  {
    ArrayLineText(NONE); ArrayLineCheck();
    TemplateFragment("} embedded_files[] = {\n", ARRAY_LINE, NONE, Fresh, Fresh);
    var s, js := "} embedded_files[] = {\n", JoinedOfAll(ARRAY_LINE, NONE);
    DataFieldLineText(NONE); DataFieldLineCheck();
    s, js := Prepend("  const std::string *data;\n", DATA_FIELD_LINE, Fresh, Fresh, s, js, Fresh);
    NameFieldLineText(NONE); NameFieldLineCheck();
    s, js := Prepend("  const std::string *name;\n", NAME_FIELD_LINE, Fresh, Fresh, s, js, Fresh);
    StructLineText(NONE); StructLineCheck();
    s, js := Prepend("static const struct embedded_file {\n", STRUCT_LINE, Fresh, Fresh, s, js, Fresh);
  }

  lemma {:induction false} TableCloseReads()
    ensures IsFragment(TABLE_CLOSE, Fresh, CLOSE_TOKENS, Fresh)
  {
    ArrayEndText(NONE); ArrayEndCheck();
    TemplateFragment("};\n\n", ARRAY_END, NONE, Fresh, Fresh);
    NullRowText(NONE); NullRowCheck();
    var s, js := Prepend("  {NULL, NULL}\n", NULL_ROW, Fresh, Fresh, "};\n\n", JoinedOfAll(ARRAY_END, NONE), Fresh);
  }

  lemma {:induction false} RowReads(i: nat)
    ensures IsFragment(Row(i), Fresh, RowTokens(i), Fresh)
  {
    var f := Numbered(i);
    RowNameCheck();
    TemplateFragment(TextAll(ROW_NAME, f), ROW_NAME, f, Fresh, Code);
    RowDataCheck();
    TemplateFragment(TextAll(ROW_DATA, f), ROW_DATA, f, Code, Fresh);
    FragmentAppend(TextAll(ROW_NAME, f), TextAll(ROW_DATA, f), Fresh, Code, Fresh, JoinedOfAll(ROW_NAME, f),
      JoinedOfAll(ROW_DATA, f));
    RowText(f);
  }

  lemma {:induction false} RowsRead(i: nat, n: nat)
    ensures IsFragment(Rows(i, n), Fresh, RowsTokens(i, n), Fresh)
    decreases n - i
  {
    if i >= n {
      EmptyFragment(Fresh);
    } else {
      RowReads(i);
      RowsRead(i + 1, n);
      FragmentAppend(Row(i), Rows(i + 1, n), Fresh, Fresh, Fresh, RowTokens(i), RowsTokens(i + 1, n));
    }
  }

  function TableTokens(count: nat): seq<Token> {
    OPEN_TOKENS + (RowsTokens(1, count + 1) + CLOSE_TOKENS)
  }

  lemma {:induction false} TableReads(count: nat)
    ensures IsFragment(TABLE_OPEN + (Rows(1, count + 1) + TABLE_CLOSE), Fresh, TableTokens(count), Fresh)
  {
    TableOpenReads();
    RowsRead(1, count + 1);
    TableCloseReads();
    FragmentAppend(Rows(1, count + 1), TABLE_CLOSE, Fresh, Fresh, Fresh, RowsTokens(1, count + 1), CLOSE_TOKENS);
    FragmentAppend(TABLE_OPEN, Rows(1, count + 1) + TABLE_CLOSE, Fresh, Fresh, Fresh, OPEN_TOKENS, RowsTokens(1,
      count + 1) + CLOSE_TOKENS);
  }

  // ----- declarations

  function RowAddresses(i: nat): seq<Address> { [AddressOf(NameId(i)), AddressOf(DataId(i))] }

  const NULL_ADDRESSES := [NullAddress, NullAddress]

  /** Rows `i` up to but not including `n`, then the terminating row. */
  function TableRows(i: nat, n: nat): seq<seq<Address>>
    decreases n - i
  {
    if i >= n then [NULL_ADDRESSES] else [RowAddresses(i)] + TableRows(i + 1, n)
  }

  lemma {:induction false} AttachRowName(i: nat, rest: Tokens)
    ensures Attach(ROW_NAME, Numbered(i), rest) ==
      Cons(Punct("{"), Cons(Punct("&"), Cons(Word(NameId(i)), Cons(Punct(","), rest))))
  {
  }

  lemma {:induction false} AttachRowData(i: nat, rest: Tokens)
    ensures Attach(ROW_DATA, Numbered(i), rest) ==
      Cons(Punct("&"), Cons(Word(DataId(i)), Cons(Punct("}"), Cons(Punct(","), rest))))
  {
  }

  lemma {:induction false} ParseRowInits(i: nat, rest: Tokens)
    ensures RowInits(Cons(Punct("&"), Cons(Word(NameId(i)), Cons(Punct(","),
                     Cons(Punct("&"), Cons(Word(DataId(i)), Cons(Punct("}"), rest))))))) == Some((RowAddresses(i), rest))
  {
    IdentsAreNames(i);
    var second := Cons(Punct("&"), Cons(Word(DataId(i)), Cons(Punct("}"), rest)));
    assert PointerInit(second) == Some((AddressOf(DataId(i)), Cons(Punct("}"), rest)));
    assert RowInits(second) == Some(([AddressOf(DataId(i))], rest));
    var first := Cons(Punct("&"), Cons(Word(NameId(i)), Cons(Punct(","), second)));
    assert PointerInit(first) == Some((AddressOf(NameId(i)), Cons(Punct(","), second)));
    assert [AddressOf(NameId(i))] + [AddressOf(DataId(i))] == RowAddresses(i);
  }

  lemma {:induction false} ParseRow(i: nat, rest: Tokens)
    ensures RowList(Listed(RowTokens(i), rest)) ==
      match RowList(rest)
      case None => None
      case Some((rows, rest')) => Some(([RowAddresses(i)] + rows, rest'))
  {
    var f := Numbered(i);
    ListedAppend(JoinedOfAll(ROW_NAME, f), JoinedOfAll(ROW_DATA, f), rest);
    ListedTemplate(ROW_DATA, f, rest);
    ListedTemplate(ROW_NAME, f, Attach(ROW_DATA, f, rest));
    AttachRowData(i, rest);
    AttachRowName(i, Attach(ROW_DATA, f, rest));
    ParseRowInits(i, Cons(Punct(","), rest));
  }

  lemma {:induction false} AttachClose(rest: Tokens)
    ensures Listed(CLOSE_TOKENS, rest) ==
      Cons(Punct("{"), Cons(Word("NULL"), Cons(Punct(","), Cons(Word("NULL"), Cons(Punct("}"), Cons(Punct("}"),
        Cons(Punct(";"), rest)))))))
  {
    ListedAppend(JoinedOfAll(NULL_ROW, NONE), JoinedOfAll(ARRAY_END, NONE), rest);
    ListedTemplate(ARRAY_END, NONE, rest);
    ListedTemplate(NULL_ROW, NONE, Attach(ARRAY_END, NONE, rest));
  }

  lemma {:induction false} ParseNullRow(rest: Tokens)
    ensures RowList(Listed(CLOSE_TOKENS, rest)) == Some(([NULL_ADDRESSES], Cons(Punct(";"), rest)))
  {
    AttachClose(rest);
    var end := Cons(Punct("}"), Cons(Punct(";"), rest));
    var second := Cons(Word("NULL"), Cons(Punct("}"), end));
    assert RowInits(second) == Some(([NullAddress], end));
    assert [NullAddress] + [NullAddress] == NULL_ADDRESSES;
    assert RowInits(Cons(Word("NULL"), Cons(Punct(","), second))) == Some((NULL_ADDRESSES, end));
  }

  lemma {:induction false} ParseRows(i: nat, n: nat, rest: Tokens)
    ensures RowList(Listed(RowsTokens(i, n) + CLOSE_TOKENS, rest)) == Some((TableRows(i, n), Cons(Punct(";"), rest)))
    decreases n - i
  {
    if i >= n {
      assert [] + CLOSE_TOKENS == CLOSE_TOKENS;
      ParseNullRow(rest);
    } else {
      assert RowsTokens(i, n) + CLOSE_TOKENS == RowTokens(i) + (RowsTokens(i + 1, n) + CLOSE_TOKENS);
      ListedAppend(RowTokens(i), RowsTokens(i + 1, n) + CLOSE_TOKENS, rest);
      ParseRows(i + 1, n, rest);
      ParseRow(i, Listed(RowsTokens(i + 1, n) + CLOSE_TOKENS, rest));
    }
  }

  lemma {:induction false} AttachFields(rest: Tokens)
    ensures Attach(NAME_FIELD_LINE, NONE, rest) == FieldChain("name", rest)
    ensures Attach(DATA_FIELD_LINE, NONE, rest) == FieldChain("data", rest)
  {
  }

  lemma {:induction false} AttachEnds(rest: Tokens)
    ensures Attach(STRUCT_LINE, NONE, rest) ==
      Cons(Word("static"), Cons(Word("const"), Cons(Word("struct"), Cons(Word("embedded_file"), Cons(Punct("{"), rest)))))
    ensures Attach(ARRAY_LINE, NONE, rest) ==
      Cons(Punct("}"), Cons(Word("embedded_files"), Cons(Punct("["), Cons(Punct("]"), Cons(Punct("="), Cons(Punct("{"), rest))))))
  {
  }

  function FieldChain(id: string, rest: Tokens): Tokens {
    Cons(Word("const"), Cons(Word("std"), Cons(Punct("::"), Cons(Word("string"), Cons(Punct("*"), Cons(Word(id),
      Cons(Punct(";"), rest)))))))
  }

  lemma {:induction false} ParseField(id: string, rest: Tokens, ids: seq<string>, rest': Tokens)
    requires !IsKeyword(id) && Fields(rest) == Some((ids, rest'))
    ensures Fields(FieldChain(id, rest)) == Some(([id] + ids, rest'))
  {
  }

  lemma {:induction false} ParseTwoFields(a: string, b: string, rest: Tokens)
    requires !IsKeyword(a) && !IsKeyword(b)
    ensures Fields(FieldChain(a, FieldChain(b, Cons(Punct("}"), rest)))) == Some(([a, b], rest))
  {
    var last := Cons(Punct("}"), rest);
    ParseField(b, last, [], rest);
    ParseField(a, FieldChain(b, last), [b] + [], rest);
    assert [a] + ([b] + []) == [a, b];
  }

  lemma {:induction false} ParseFields(fields: Tokens, rest: Tokens)
    requires fields == FieldChain("name", FieldChain("data", Cons(Punct("}"), rest)))
    ensures Fields(fields) == Some((["name", "data"], rest))
  {
    ParseTwoFields("name", "data", rest);
  }

  lemma {:induction false} ListedOpen(rest: Tokens)
    ensures Listed(OPEN_TOKENS, rest) ==
      Attach(STRUCT_LINE, NONE, Attach(NAME_FIELD_LINE, NONE, Attach(DATA_FIELD_LINE, NONE, Attach(ARRAY_LINE, NONE, rest))))
  {
    ListedTemplate(ARRAY_LINE, NONE, rest);
    var js, ts := JoinedOfAll(ARRAY_LINE, NONE), Attach(ARRAY_LINE, NONE, rest);
    js, ts := ListedPrepend(DATA_FIELD_LINE, js, rest, ts);
    js, ts := ListedPrepend(NAME_FIELD_LINE, js, rest, ts);
    js, ts := ListedPrepend(STRUCT_LINE, js, rest, ts);
  }

  /** The declaration of the table for `count` files. */
  function TableDecl(count: nat): Decl {
    Table("embedded_file", ["name", "data"], "embedded_files", TableRows(1, count + 1))
  }

  lemma {:induction false} ParseTable(count: nat, rest: Tokens)
    ensures Declaration(Listed(TableTokens(count), rest)) == Some((TableDecl(count), rest))
  {
    var rows := RowsTokens(1, count + 1) + CLOSE_TOKENS;
    ListedAppend(OPEN_TOKENS, rows, rest);
    var body := Listed(rows, rest);
    ListedOpen(body);
    var after := Cons(Word("embedded_files"), Cons(Punct("["), Cons(Punct("]"), Cons(Punct("="), Cons(Punct("{"), body)))));
    AttachEnds(body);
    AttachFields(Cons(Punct("}"), after));
    AttachFields(FieldChain("data", Cons(Punct("}"), after)));
    var fields := FieldChain("name", FieldChain("data", Cons(Punct("}"), after)));
    AttachEnds(fields);
    ParseFields(fields, after);
    ParseRows(1, count + 1, rest);
    var inner := Cons(Word("embedded_file"), Cons(Punct("{"), fields));
    ParseTableRest(inner, fields, after, body, TableRows(1, count + 1), rest);
    ParseTableDefinition(inner, TableDecl(count), rest);
  }

  lemma {:induction false} ParseAnyTable(tag: string, names: seq<string>, id: string, fields: Tokens, body: Tokens,
                                         rows: seq<seq<Address>>, rest: Tokens)
    requires !IsKeyword(tag) && !IsKeyword(id)
    requires Fields(fields) ==
      Some((names, Cons(Word(id), Cons(Punct("["), Cons(Punct("]"), Cons(Punct("="), Cons(Punct("{"), body)))))))
    requires RowList(body) == Some((rows, Cons(Punct(";"), rest)))
    ensures TableDefinition(Cons(Word(tag), Cons(Punct("{"), fields))) == Some((Table(tag, names, id, rows), rest))
  {
  }

  lemma {:induction false} ParseTableRest(inner: Tokens, fields: Tokens, after: Tokens, body: Tokens,
                                          rows: seq<seq<Address>>, rest: Tokens)
    requires inner == Cons(Word("embedded_file"), Cons(Punct("{"), fields))
    requires Fields(fields) == Some((["name", "data"], after))
    requires after == Cons(Word("embedded_files"), Cons(Punct("["), Cons(Punct("]"), Cons(Punct("="), Cons(Punct("{"), body)))))
    requires RowList(body) == Some((rows, Cons(Punct(";"), rest)))
    ensures TableDefinition(inner) == Some((Table("embedded_file", ["name", "data"], "embedded_files", rows), rest))
  {
    ParseAnyTable("embedded_file", ["name", "data"], "embedded_files", fields, body, rows, rest);
  }

  lemma {:induction false} ParseTableDefinition(inner: Tokens, d: Decl, rest: Tokens)
    requires TableDefinition(inner) == Some((d, rest))
    ensures Declaration(Cons(Word("static"), Cons(Word("const"), Cons(Word("struct"), inner)))) == Some((d, rest))
  {
  }
}
