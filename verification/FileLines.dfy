/** The lines of the header that the loops over the files print, as templates. */
module FileLines {
  import opened Basics
  import opened Numerals
  import opened HeaderText
  import opened Lexer
  import opened Layout
  import opened Fragments

  const NAME_REST :=
    Then(NameIdent, Then(Gap(" "), Then(Op("=", true), Then(NameLiteral, Then(Op(";", false), Then(Eol, End))))))

  const DATA_HEAD :=
    Then(DataIdent, Then(Gap(" "), Then(Op("=", true), Then(Id("std", false), Then(Op("::", false),
    Then(Id("string", false), Then(Op("(", false), End)))))))

  const DATA_REST :=
    Then(DataLiterals, Then(Op(",", false), Then(Eol, Then(Gap("  "), Then(Count,
    Then(Op(")", false), Then(Op(";", false), Then(Eol, Then(Eol, End)))))))))

  const ROW_NAME := Then(Gap("  "), Then(Op("{", false), Then(Op("&", false), Then(NameIdent, Then(Op(",", true), End)))))

  const ROW_DATA := Then(Op("&", false), Then(DataIdent, Then(Op("}", false), Then(Op(",", false), Then(Eol, End)))))

  lemma {:induction false} NameRestCheck() ensures IsTemplate(NAME_REST, Code, Fresh) { }

  lemma {:induction false} DataHeadCheck() ensures IsTemplate(DATA_HEAD, Code, Code) { }

  lemma {:induction false} DataRestCheck() ensures IsTemplate(DATA_REST, Code, Fresh) { }

  lemma {:induction false} RowNameCheck() ensures IsTemplate(ROW_NAME, Fresh, Code) { }

  lemma {:induction false} RowDataCheck() ensures IsTemplate(ROW_DATA, Code, Fresh) { }

  lemma NameDeclShape(s: string, t: string, d: string, g: string, e: string, q: string,
    name: string, end: string)
    ensures (s + t) + d + (g + (e + q)) + name + (q + end) == s + ((t + d) + (g + (e + ((q + name + q) + end))))
  {
  }

  lemma {:induction false} NameDeclText(f: Fill)
    ensures NameDecl(f.index, f.name) == "static const std::string " + TextAll(NAME_REST, f)
  {
    NameRestText(f);
    assert "static const std::string translation_file_name_" == "static const std::string " + "translation_file_name_";
    assert " = \"" == " " + ("= " + "\"");
    assert "\";\n" == "\"" + (";" + ("\n" + ""));
    NameDeclShape("static const std::string ", "translation_file_name_", Dec(f.index), " ", "= ", "\"", f.name,
      ";" + ("\n" + ""));
  }

  lemma {:induction false} NameRestText(f: Fill)
    ensures TextAll(NAME_REST, f) == NameId(f.index) + (" " + ("= " + (("\"" + f.name + "\"") + (";" + ("\n" + "")))))
  {
  }

  lemma DataOpenShape(s: string, t: string, d: string, e: string)
    ensures (s + t) + d + e == s + ((t + d) + e)
  {
  }

  lemma {:induction false} DataHeadText(f: Fill)
    ensures TextAll(DATA_HEAD, f) == DataId(f.index) + (" " + ("= " + ("std" + ("::" + ("string" + ("(" + ""))))))
  {
  }

  lemma {:induction false} DataOpenText(f: Fill)
    ensures DataOpen(f.index) == "static const std::string " + TextAll(DATA_HEAD, f)
  {
    DataHeadText(f);
    assert "static const std::string translation_file_data_" == "static const std::string " + "translation_file_data_";
    assert " = std::string(" == " " + ("= " + ("std" + ("::" + ("string" + ("(" + "")))));
    DataOpenShape("static const std::string ", "translation_file_data_", Dec(f.index), " = std::string(");
  }

  /** The literal that is still open after the loop is closed by the first character of the last line. */
  lemma {:induction false} DataCloseText(n: nat)
    ensures DataClose(n) == "\"" + ("," + ("\n" + ("  " + (Dec(n) + (")" + (";" + ("\n" + ("\n" + ""))))))))
  {
    assert "\",\n  " == "\"" + ("," + ("\n" + "  "));
    assert ");\n\n" == ")" + (";" + ("\n" + ("\n" + "")));
  }

  lemma {:induction false} DataRestText(f: Fill)
    ensures DataBody(f.contents) + DataClose(|f.contents|) == TextAll(DATA_REST, f)
  {
    var tail := "," + ("\n" + ("  " + (Dec(|f.contents|) + (")" + (";" + ("\n" + ("\n" + "")))))));
    DataCloseText(|f.contents|);
    Assoc(DataBody(f.contents), "\"", tail);
    assert TextAll(DATA_REST, f) == (DataBody(f.contents) + "\"") + tail;
  }

  lemma RowNameShape(gap: string, brace: string, amp: string, id: string, d: string, comma: string)
    ensures gap + (brace + (amp + ((id + d) + (comma + "")))) == gap + (brace + (amp + id)) + d + comma
  {
  }

  lemma {:induction false} RowNamePieces(f: Fill)
    ensures TextAll(ROW_NAME, f) == "  " + ("{" + ("&" + (NameId(f.index) + (", " + ""))))
  {
  }

  lemma {:induction false} RowNameText(f: Fill)
    ensures TextAll(ROW_NAME, f) == "  {&translation_file_name_" + Dec(f.index) + ", "
  {
    RowNamePieces(f);
    assert "  {&translation_file_name_" == "  " + ("{" + ("&" + "translation_file_name_"));
    RowNameShape("  ", "{", "&", "translation_file_name_", Dec(f.index), ", ");
  }

  lemma RowDataShape(amp: string, id: string, d: string, brace: string, comma: string, eol: string)
    ensures amp + ((id + d) + (brace + (comma + (eol + "")))) == (amp + id) + d + (brace + (comma + (eol + "")))
  {
  }

  lemma {:induction false} RowDataText(f: Fill)
    ensures TextAll(ROW_DATA, f) == "&translation_file_data_" + Dec(f.index) + "},\n"
  {
    assert "&translation_file_data_" == "&" + "translation_file_data_";
    assert "},\n" == "}" + ("," + ("\n" + ""));
    RowDataShape("&", "translation_file_data_", Dec(f.index), "}", ",", "\n");
    assert TextAll(ROW_DATA, f) == "&" + (DataId(f.index) + ("}" + ("," + ("\n" + ""))));
  }

  lemma RowShape(a: string, d: string, b1: string, b2: string, c: string)
    ensures a + d + (b1 + b2) + d + c == (a + d + b1) + (b2 + d + c)
  {
  }

  lemma {:induction false} RowText(f: Fill)
    ensures Row(f.index) == TextAll(ROW_NAME, f) + TextAll(ROW_DATA, f)
  {
    RowNameText(f);
    RowDataText(f);
    assert ", &translation_file_data_" == ", " + "&translation_file_data_";
    RowShape("  {&translation_file_name_", Dec(f.index), ", ", "&translation_file_data_", "},\n");
  }
}
