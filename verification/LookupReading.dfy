/** The text of the lookup function, read. */
module LookupReading {
  import opened Basics
  import opened HeaderText
  import opened Lexer
  import opened Phases
  import opened Fragments
  import opened FixedLines
  import opened Parser
  import opened LookupText

  const HIT_TOKENS :=
    JoinedOfAll(COPY_LINE, NONE) + (JoinedOfAll(TRUE_LINE, NONE) + (JoinedOfAll(END_IF, NONE) +
    (JoinedOfAll(END_FOR, NONE) + (JoinedOfAll(FALSE_LINE, NONE) + JoinedOfAll(END_FUNCTION, NONE)))))

  lemma {:induction false} HitReads()
    ensures IsFragment(LOOKUP_HIT, Fresh, HIT_TOKENS, Fresh)
  {
    EndFunctionText(NONE); EndFunctionCheck();
    TemplateFragment("}\n", END_FUNCTION, NONE, Fresh, Fresh);
    var s, js := "}\n", JoinedOfAll(END_FUNCTION, NONE);
    FalseLineText(NONE); FalseLineCheck();
    s, js := Prepend("  return false;\n", FALSE_LINE, Fresh, Fresh, s, js, Fresh);
    EndForText(NONE); EndForCheck();
    s, js := Prepend("  }\n", END_FOR, Fresh, Fresh, s, js, Fresh);
    EndIfText(NONE); EndIfCheck();
    s, js := Prepend("    }\n", END_IF, Fresh, Fresh, s, js, Fresh);
    TrueLineText(NONE); TrueLineCheck();
    s, js := Prepend("      return true;\n", TRUE_LINE, Fresh, Fresh, s, js, Fresh);
    CopyLineText(NONE); CopyLineCheck();
    s, js := Prepend("      data = *p->data;\n", COPY_LINE, Fresh, Fresh, s, js, Fresh);
  }

  const LOOP_TOKENS :=
    JoinedOfAll(FOR_HEAD, NONE) + (JoinedOfAll(FOR_INIT, NONE) + (JoinedOfAll(FOR_COND, NONE) +
    (JoinedOfAll(FOR_STEP, NONE) + (JoinedOfAll(IF_HEAD, NONE) + (JoinedOfAll(IF_COND, NONE) + HIT_TOKENS)))))

  lemma {:induction false} LoopReads()
    ensures IsFragment(LOOKUP_LOOP, Fresh, LOOP_TOKENS, Fresh)
  {
    HitReads();
    var s, js := LOOKUP_HIT, HIT_TOKENS;
    IfCondText(NONE); IfCondCheck();
    s, js := Prepend("*p->name == name) {\n", IF_COND, Code, Fresh, s, js, Fresh);
    IfHeadText(NONE); IfHeadCheck();
    s, js := Prepend("    if (", IF_HEAD, Fresh, Code, s, js, Fresh);
    ForStepText(NONE); ForStepCheck();
    s, js := Prepend("p++) {\n", FOR_STEP, Code, Fresh, s, js, Fresh);
    ForCondText(NONE); ForCondCheck();
    s, js := Prepend("p->name != NULL; ", FOR_COND, Code, Code, s, js, Fresh);
    ForInitText(NONE); ForInitCheck();
    s, js := Prepend("p = embedded_files; ", FOR_INIT, Code, Code, s, js, Fresh);
    ForHeadText(NONE); ForHeadCheck();
    s, js := Prepend("  for (", FOR_HEAD, Fresh, Code, s, js, Fresh);
  }

  const LOOKUP_TOKENS :=
    JoinedOfAll(FUNCTION_HEAD, NONE) + (JoinedOfAll(NAME_PARAM, NONE) + (JoinedOfAll(DATA_PARAM, NONE) +
    (JoinedOfAll(LOCAL_LINE, NONE) + LOOP_TOKENS)))

  lemma {:induction false} LookupReads()
    ensures IsFragment(LOOKUP, Fresh, LOOKUP_TOKENS, Fresh)
  {
    LoopReads();
    var s, js := LOOKUP_LOOP, LOOP_TOKENS;
    LocalLineText(NONE); LocalLineCheck();
    s, js := Prepend("  const struct embedded_file *p;\n", LOCAL_LINE, Fresh, Fresh, s, js, Fresh);
    DataParamText(NONE); DataParamCheck();
    s, js := Prepend("std::string &data) {\n", DATA_PARAM, Code, Fresh, s, js, Fresh);
    NameParamText(NONE); NameParamCheck();
    s, js := Prepend("const std::string &name, ", NAME_PARAM, Code, Code, s, js, Fresh);
    FunctionHeadText(NONE); FunctionHeadCheck();
    s, js := Prepend("static bool find_embedded_file(", FUNCTION_HEAD, Fresh, Code, s, js, Fresh);
  }

  lemma {:induction false} ListedHit(rest: Tokens)
    ensures Listed(HIT_TOKENS, rest) ==
      Attach(COPY_LINE, NONE, Attach(TRUE_LINE, NONE, Attach(END_IF, NONE, Attach(END_FOR, NONE,
      Attach(FALSE_LINE, NONE, Attach(END_FUNCTION, NONE, rest))))))
  {
    ListedTemplate(END_FUNCTION, NONE, rest);
    var js, ts := JoinedOfAll(END_FUNCTION, NONE), Attach(END_FUNCTION, NONE, rest);
    js, ts := ListedPrepend(FALSE_LINE, js, rest, ts);
    js, ts := ListedPrepend(END_FOR, js, rest, ts);
    js, ts := ListedPrepend(END_IF, js, rest, ts);
    js, ts := ListedPrepend(TRUE_LINE, js, rest, ts);
    js, ts := ListedPrepend(COPY_LINE, js, rest, ts);
  }

  lemma {:induction false} ListedLoop(rest: Tokens)
    ensures Listed(LOOP_TOKENS, rest) == BodyList(rest)
  {
    ListedHit(rest);
    var js, ts := HIT_TOKENS, Listed(HIT_TOKENS, rest);
    js, ts := ListedPrepend(IF_COND, js, rest, ts);
    js, ts := ListedPrepend(IF_HEAD, js, rest, ts);
    js, ts := ListedPrepend(FOR_STEP, js, rest, ts);
    js, ts := ListedPrepend(FOR_COND, js, rest, ts);
    js, ts := ListedPrepend(FOR_INIT, js, rest, ts);
    js, ts := ListedPrepend(FOR_HEAD, js, rest, ts);
  }

  /** The text of the lookup function declares the function that was studied. */
  lemma {:induction false} ParseLookupTokens(rest: Tokens)
    ensures Declaration(Listed(LOOKUP_TOKENS, rest)) == Some((FIND_DECL, rest))
  {
    ListedLoop(rest);
    var js, ts := LOOP_TOKENS, BodyList(rest);
    js, ts := ListedPrepend(LOCAL_LINE, js, rest, ts);
    js, ts := ListedPrepend(DATA_PARAM, js, rest, ts);
    js, ts := ListedPrepend(NAME_PARAM, js, rest, ts);
    js, ts := ListedPrepend(FUNCTION_HEAD, js, rest, ts);
    ParseLookup(rest);
  }
}
