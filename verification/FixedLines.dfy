/**
 * The lines of the header that do not depend on the files, as templates: for each one its
 * text, and that it is code which leaves the lexer between tokens.
 */
module FixedLines {
  import opened Lexer
  import opened Layout
  import opened Fragments

  const STATIC_STRING :=
    Then(Id("static", true), Then(Id("const", true), Then(Id("std", false), Then(Op("::", false),
    Then(Id("string", true), End)))))

  lemma {:induction false} StaticStringText(f: Fill) ensures TextAll(STATIC_STRING, f) == "static const std::string " { }

  lemma {:induction false} StaticStringCheck() ensures IsTemplate(STATIC_STRING, Fresh, Code) { }

  const STRUCT_LINE :=
    Then(Id("static", true), Then(Id("const", true), Then(Id("struct", true), Then(Id("embedded_file", true),
    Then(Op("{", false), Then(Eol, End))))))

  lemma {:induction false} StructLineText(f: Fill) ensures TextAll(STRUCT_LINE, f) == "static const struct embedded_file {\n" { }

  lemma {:induction false} StructLineCheck() ensures IsTemplate(STRUCT_LINE, Fresh, Fresh) { }

  const NAME_FIELD_LINE :=
    Then(Gap("  "), Then(Id("const", true), Then(Id("std", false), Then(Op("::", false),
    Then(Id("string", true), Then(Op("*", false), Then(Id("name", false), Then(Op(";", false),
    Then(Eol, End)))))))))

  lemma {:induction false} NameFieldLineText(f: Fill) ensures TextAll(NAME_FIELD_LINE, f) == "  const std::string *name;\n" { }

  lemma {:induction false} NameFieldLineCheck() ensures IsTemplate(NAME_FIELD_LINE, Fresh, Fresh) { }

  const DATA_FIELD_LINE :=
    Then(Gap("  "), Then(Id("const", true), Then(Id("std", false), Then(Op("::", false),
    Then(Id("string", true), Then(Op("*", false), Then(Id("data", false), Then(Op(";", false),
    Then(Eol, End)))))))))

  lemma {:induction false} DataFieldLineText(f: Fill) ensures TextAll(DATA_FIELD_LINE, f) == "  const std::string *data;\n" { }

  lemma {:induction false} DataFieldLineCheck() ensures IsTemplate(DATA_FIELD_LINE, Fresh, Fresh) { }

  const ARRAY_LINE :=
    Then(Op("}", true), Then(Id("embedded_files", false), Then(Op("[", false), Then(Op("]", true),
    Then(Op("=", true), Then(Op("{", false), Then(Eol, End)))))))

  lemma {:induction false} ArrayLineText(f: Fill) ensures TextAll(ARRAY_LINE, f) == "} embedded_files[] = {\n" { }

  lemma {:induction false} ArrayLineCheck() ensures IsTemplate(ARRAY_LINE, Fresh, Fresh) { }

  const NULL_ROW :=
    Then(Gap("  "), Then(Op("{", false), Then(Id("NULL", false), Then(Op(",", true), Then(Id("NULL", false),
    Then(Op("}", false), Then(Eol, End)))))))

  lemma {:induction false} NullRowText(f: Fill) ensures TextAll(NULL_ROW, f) == "  {NULL, NULL}\n" { }

  lemma {:induction false} NullRowCheck() ensures IsTemplate(NULL_ROW, Fresh, Fresh) { }

  const ARRAY_END :=
    Then(Op("}", false), Then(Op(";", false), Then(Eol, Then(Eol, End))))

  lemma {:induction false} ArrayEndText(f: Fill) ensures TextAll(ARRAY_END, f) == "};\n\n" { }

  lemma {:induction false} ArrayEndCheck() ensures IsTemplate(ARRAY_END, Fresh, Fresh) { }

  const FUNCTION_HEAD :=
    Then(Id("static", true), Then(Id("bool", true), Then(Id("find_embedded_file", false),
    Then(Op("(", false), End))))

  lemma {:induction false} FunctionHeadText(f: Fill) ensures TextAll(FUNCTION_HEAD, f) == "static bool find_embedded_file(" { }

  lemma {:induction false} FunctionHeadCheck() ensures IsTemplate(FUNCTION_HEAD, Fresh, Code) { }

  const NAME_PARAM :=
    Then(Id("const", true), Then(Id("std", false), Then(Op("::", false), Then(Id("string", true),
    Then(Op("&", false), Then(Id("name", false), Then(Op(",", true), End)))))))

  lemma {:induction false} NameParamText(f: Fill) ensures TextAll(NAME_PARAM, f) == "const std::string &name, " { }

  lemma {:induction false} NameParamCheck() ensures IsTemplate(NAME_PARAM, Code, Code) { }

  const DATA_PARAM :=
    Then(Id("std", false), Then(Op("::", false), Then(Id("string", true), Then(Op("&", false),
    Then(Id("data", false), Then(Op(")", true), Then(Op("{", false), Then(Eol, End))))))))

  lemma {:induction false} DataParamText(f: Fill) ensures TextAll(DATA_PARAM, f) == "std::string &data) {\n" { }

  lemma {:induction false} DataParamCheck() ensures IsTemplate(DATA_PARAM, Code, Fresh) { }

  const LOCAL_LINE :=
    Then(Gap("  "), Then(Id("const", true), Then(Id("struct", true), Then(Id("embedded_file", true),
    Then(Op("*", false), Then(Id("p", false), Then(Op(";", false), Then(Eol, End))))))))

  lemma {:induction false} LocalLineText(f: Fill) ensures TextAll(LOCAL_LINE, f) == "  const struct embedded_file *p;\n" { }

  lemma {:induction false} LocalLineCheck() ensures IsTemplate(LOCAL_LINE, Fresh, Fresh) { }

  const FOR_HEAD :=
    Then(Gap("  "), Then(Id("for", true), Then(Op("(", false), End)))

  lemma {:induction false} ForHeadText(f: Fill) ensures TextAll(FOR_HEAD, f) == "  for (" { }

  lemma {:induction false} ForHeadCheck() ensures IsTemplate(FOR_HEAD, Fresh, Code) { }

  const FOR_INIT :=
    Then(Id("p", true), Then(Op("=", true), Then(Id("embedded_files", false), Then(Op(";", true), End))))

  lemma {:induction false} ForInitText(f: Fill) ensures TextAll(FOR_INIT, f) == "p = embedded_files; " { }

  lemma {:induction false} ForInitCheck() ensures IsTemplate(FOR_INIT, Code, Code) { }

  const FOR_COND :=
    Then(Id("p", false), Then(Op("->", false), Then(Id("name", true), Then(Op("!=", true),
    Then(Id("NULL", false), Then(Op(";", true), End))))))

  lemma {:induction false} ForCondText(f: Fill) ensures TextAll(FOR_COND, f) == "p->name != NULL; " { }

  lemma {:induction false} ForCondCheck() ensures IsTemplate(FOR_COND, Code, Code) { }

  const FOR_STEP :=
    Then(Id("p", false), Then(Op("++", false), Then(Op(")", true), Then(Op("{", false), Then(Eol, End)))))

  lemma {:induction false} ForStepText(f: Fill) ensures TextAll(FOR_STEP, f) == "p++) {\n" { }

  lemma {:induction false} ForStepCheck() ensures IsTemplate(FOR_STEP, Code, Fresh) { }

  const IF_HEAD :=
    Then(Gap("    "), Then(Id("if", true), Then(Op("(", false), End)))

  lemma {:induction false} IfHeadText(f: Fill) ensures TextAll(IF_HEAD, f) == "    if (" { }

  lemma {:induction false} IfHeadCheck() ensures IsTemplate(IF_HEAD, Fresh, Code) { }

  const IF_COND :=
    Then(Op("*", false), Then(Id("p", false), Then(Op("->", false), Then(Id("name", true), Then(Op("==", true),
    Then(Id("name", false), Then(Op(")", true), Then(Op("{", false), Then(Eol, End)))))))))

  lemma {:induction false} IfCondText(f: Fill) ensures TextAll(IF_COND, f) == "*p->name == name) {\n" { }

  lemma {:induction false} IfCondCheck() ensures IsTemplate(IF_COND, Code, Fresh) { }

  const COPY_LINE :=
    Then(Gap("      "), Then(Id("data", true), Then(Op("=", true), Then(Op("*", false), Then(Id("p", false),
    Then(Op("->", false), Then(Id("data", false), Then(Op(";", false), Then(Eol, End)))))))))

  lemma {:induction false} CopyLineText(f: Fill) ensures TextAll(COPY_LINE, f) == "      data = *p->data;\n" { }

  lemma {:induction false} CopyLineCheck() ensures IsTemplate(COPY_LINE, Fresh, Fresh) { }

  const TRUE_LINE :=
    Then(Gap("      "), Then(Id("return", true), Then(Id("true", false), Then(Op(";", false), Then(Eol, End)))))

  lemma {:induction false} TrueLineText(f: Fill) ensures TextAll(TRUE_LINE, f) == "      return true;\n" { }

  lemma {:induction false} TrueLineCheck() ensures IsTemplate(TRUE_LINE, Fresh, Fresh) { }

  const END_IF :=
    Then(Gap("    "), Then(Op("}", false), Then(Eol, End)))

  lemma {:induction false} EndIfText(f: Fill) ensures TextAll(END_IF, f) == "    }\n" { }

  lemma {:induction false} EndIfCheck() ensures IsTemplate(END_IF, Fresh, Fresh) { }

  const END_FOR :=
    Then(Gap("  "), Then(Op("}", false), Then(Eol, End)))

  lemma {:induction false} EndForText(f: Fill) ensures TextAll(END_FOR, f) == "  }\n" { }

  lemma {:induction false} EndForCheck() ensures IsTemplate(END_FOR, Fresh, Fresh) { }

  const FALSE_LINE :=
    Then(Gap("  "), Then(Id("return", true), Then(Id("false", false), Then(Op(";", false), Then(Eol, End)))))

  lemma {:induction false} FalseLineText(f: Fill) ensures TextAll(FALSE_LINE, f) == "  return false;\n" { }

  lemma {:induction false} FalseLineCheck() ensures IsTemplate(FALSE_LINE, Fresh, Fresh) { }

  const END_FUNCTION :=
    Then(Op("}", false), Then(Eol, End))

  lemma {:induction false} EndFunctionText(f: Fill) ensures TextAll(END_FUNCTION, f) == "}\n" { }

  lemma {:induction false} EndFunctionCheck() ensures IsTemplate(END_FUNCTION, Fresh, Fresh) { }

  const BLANK_LINE :=
    Then(Eol, End)

  lemma {:induction false} BlankLineText(f: Fill) ensures TextAll(BLANK_LINE, f) == "\n" { }

  lemma {:induction false} BlankLineCheck() ensures IsTemplate(BLANK_LINE, Fresh, Fresh) { }
}
