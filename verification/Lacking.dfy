/** Characters that the printed lines do not hold. */
module Lacking {
  import opened Basics
  import opened Numerals
  import opened HeaderText

  lemma LacksAppend(a: string, b: string, c: char)
    requires c !in a && c !in b
    ensures c !in a + b
  {
  }

  lemma {:induction false} DecLacks(n: nat, c: char)
    requires !IsDigit(c)
    ensures c !in Dec(n)
  {
    DecRead(n);
  }

  // ----- one definition

  /** `static const std::string`, an identifier and what follows it. */
  lemma {:induction false} ConstantLacks(kind: string, i: nat, end: string, c: char)
    requires !IsDigit(c) && c !in "static const std::string " && c !in kind && c !in end
    ensures c !in "static const std::string " + kind + Dec(i) + end
  {
    DecLacks(i, c);
    LacksAppend("static const std::string ", kind, c);
    LacksAppend("static const std::string " + kind, Dec(i), c);
    LacksAppend("static const std::string " + kind + Dec(i), end, c);
  }

  lemma StaticStringLacks(c: char)
    requires c == '"' || c == ';' || c == '\\' || c == '*' || c == '\n'
    ensures c !in "static const std::string "
  {
  }

  lemma DataWordsLack(c: char)
    requires c == '"' || c == '\\' || c == '*' || c == '\n'
    ensures c !in "translation_file_data_" && c !in " = std::string("
  {
  }

  lemma NameWordsLack(c: char)
    requires c == ';' || c == '\\' || c == '*' || c == '\n'
    ensures c !in "translation_file_name_" && c !in " = \""
  {
  }

  lemma {:induction false} DataOpenLacks(i: nat, c: char)
    requires c == '"' || c == '\\' || c == '*' || c == '\n'
    ensures c !in DataOpen(i)
  {
    StaticStringLacks(c);
    DataWordsLack(c);
    ConstantLacks("translation_file_data_", i, " = std::string(", c);
    assert "static const std::string translation_file_data_" == "static const std::string " + "translation_file_data_";
  }

  lemma {:induction false} NamePrefixLacks(i: nat, c: char)
    requires c == ';' || c == '\\' || c == '*' || c == '\n'
    ensures c !in NamePrefix(i)
  {
    StaticStringLacks(c);
    NameWordsLack(c);
    ConstantLacks("translation_file_name_", i, " = \"", c);
    assert "static const std::string translation_file_name_" == "static const std::string " + "translation_file_name_";
  }

  lemma {:induction false} EscapeLacks(b: Byte, c: char)
    requires c == ',' || c == ';' || c == '*'
    ensures c !in EscapedByte(b)
  {
    assert EscapedByte(b) == ['\\', 'x', Hex2(b as int)[0], Hex2(b as int)[1]];
  }

  lemma {:induction false} SeparatorLacks(n: nat, c: char)
    requires c == ',' || c == ';' || c == '*' || c == '\\'
    ensures c !in Separator(n)
  {
  }

  lemma {:induction false} BodyLacks(s: seq<Byte>, c: char)
    requires c == ',' || c == ';' || c == '*'
    ensures c !in DataBody(s)
    decreases |s|
  {
    if s != [] {
      var n := |s| - 1;
      BodyLacks(s[..n], c);
      SeparatorLacks(n, c);
      EscapeLacks(s[n], c);
      LacksAppend(DataBody(s[..n]), Separator(n), c);
      LacksAppend(DataBody(s[..n]) + Separator(n), EscapedByte(s[n]), c);
    }
  }

  lemma {:induction false} DataCloseLacks(n: nat, c: char)
    requires c == '\\' || c == '*'
    ensures c !in DataClose(n)
  {
    DecLacks(n, c);
    assert c !in "\",\n  " && c !in ");\n\n";
  }

  // ----- the rest of the header

  lemma PrologueLacks(c: char)
    requires c == '"' || c == '\\'
    ensures c !in PROLOGUE
  {
    assert c !in "#ifndef TRANSLATION_FILES_H\n" && c !in "#define TRANSLATION_FILES_H\n\n";
    assert c !in "#include <string>\n\n";
  }

  lemma RowWordsLack(c: char)
    requires c == '"' || c == '\\'
    ensures c !in "  {&translation_file_name_" && c !in ", &translation_file_data_" && c !in "},\n"
  {
  }

  lemma {:induction false} RowLacks(i: nat, c: char)
    requires c == '"' || c == '\\'
    ensures c !in Row(i)
  {
    DecLacks(i, c);
    RowWordsLack(c);
  }

  lemma {:induction false} RowsLack(i: nat, n: nat, c: char)
    requires c == '"' || c == '\\'
    ensures c !in Rows(i, n)
    decreases n - i
  {
    if i < n {
      RowLacks(i, c);
      RowsLack(i + 1, n, c);
    }
  }

  lemma TableOpenLacks(c: char)
    requires c == '"' || c == '\\'
    ensures c !in TABLE_OPEN
  {
    assert c !in "static const struct embedded_file {\n" && c !in "  const std::string *name;\n";
    assert c !in "  const std::string *data;\n" && c !in "} embedded_files[] = {\n";
  }

  lemma LookupHitLacks(c: char)
    requires c == '"' || c == '\\'
    ensures c !in LOOKUP_HIT
  {
    assert c !in "      data = *p->data;\n" && c !in "      return true;\n" && c !in "    }\n";
    assert c !in "  }\n" && c !in "  return false;\n" && c !in "}\n";
  }

  lemma LookupLoopLacks(c: char)
    requires c == '"' || c == '\\'
    ensures c !in LOOKUP_LOOP
  {
    assert c !in "  for (" && c !in "p = embedded_files; " && c !in "p->name != NULL; " && c !in "p++) {\n";
    assert c !in "    if (" && c !in "*p->name == name) {\n";
    LookupHitLacks(c);
  }

  lemma LookupHeadLacks(c: char)
    requires c == '"' || c == '\\'
    ensures c !in "static bool find_embedded_file(" && c !in "const std::string &name, "
  {
  }

  lemma LookupLocalLacks(c: char)
    requires c == '"' || c == '\\'
    ensures c !in "std::string &data) {\n" && c !in "  const struct embedded_file *p;\n"
  {
  }

  lemma LookupLacks(c: char)
    requires c == '"' || c == '\\'
    ensures c !in LOOKUP
  {
    LookupHeadLacks(c);
    LookupLocalLacks(c);
    LookupLoopLacks(c);
  }

  lemma EpilogueLacks(c: char)
    requires c == '"' || c == '\\'
    ensures c !in EPILOGUE
  {
  }

  lemma SixLack(a: string, b: string, c: string, d: string, e: string, f: string, x: char)
    requires x !in a && x !in b && x !in c && x !in d && x !in e && x !in f
    ensures x !in a + b + c + d + e + f
  {
  }

  lemma TableCloseLacks(c: char)
    requires c == '"' || c == '\\'
    ensures c !in TABLE_CLOSE
  {
    assert c !in "  {NULL, NULL}\n" && c !in "};\n\n";
  }

  lemma {:induction false} ClosingLacks(n: nat, c: char)
    requires c == '"' || c == '\\'
    ensures c !in Closing(n)
  {
    TableOpenLacks(c);
    RowsLack(1, n + 1, c);
    TableCloseLacks(c);
    LookupLacks(c);
    EpilogueLacks(c);
    SixLack(TABLE_OPEN, Rows(1, n + 1), TABLE_CLOSE, LOOKUP, "\n", EPILOGUE, c);
  }
}
