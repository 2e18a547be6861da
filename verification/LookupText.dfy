/** What the lookup function printed in the header parses to. */
module LookupText {
  import opened Basics
  import opened Lexer
  import opened Fragments
  import opened FixedLines
  import opened Syntax
  import opened Parser
  import opened Lookup

  // ----- expressions

  /** A token after which an operand is complete. */
  predicate Stops(op: string) { op != "->" && op != "++" }

  lemma {:induction false} ParseVar(x: string, op: string, rest: Tokens)
    requires !IsKeyword(x) && Stops(op)
    ensures Unary(Cons(Word(x), Cons(Punct(op), rest))) == Some((Var(x), Cons(Punct(op), rest)))
  {
    var after := Cons(Punct(op), rest);
    assert Primary(Cons(Word(x), after)) == Some((Var(x), after));
    assert Postfix(Var(x), after) == Some((Var(x), after));
  }

  lemma {:induction false} ParseConstant(w: string, e: Expr, op: string, rest: Tokens)
    requires (w == "NULL" && e == Null) || (w == "true" && e == Bool(true)) || (w == "false" && e == Bool(false))
    requires Stops(op)
    ensures Unary(Cons(Word(w), Cons(Punct(op), rest))) == Some((e, Cons(Punct(op), rest)))
  {
    var after := Cons(Punct(op), rest);
    assert Primary(Cons(Word(w), after)) == Some((e, after));
    assert Postfix(e, after) == Some((e, after));
  }

  lemma {:induction false} ParseArrow(field: string, op: string, rest: Tokens)
    requires !IsKeyword(field) && Stops(op)
    ensures Unary(Cons(Word("p"), Cons(Punct("->"), Cons(Word(field), Cons(Punct(op), rest))))) ==
      Some((Arrow(Var("p"), field), Cons(Punct(op), rest)))
  {
    var after := Cons(Punct(op), rest);
    var arrow := Cons(Punct("->"), Cons(Word(field), after));
    assert Primary(Cons(Word("p"), arrow)) == Some((Var("p"), arrow));
    assert Postfix(Arrow(Var("p"), field), after) == Some((Arrow(Var("p"), field), after));
    assert Name(arrow.tail) == Some((field, after));
    assert Postfix(Var("p"), arrow) == Some((Arrow(Var("p"), field), after));
  }

  lemma {:induction false} ParseDerefField(field: string, op: string, rest: Tokens)
    requires !IsKeyword(field) && Stops(op)
    ensures Unary(Cons(Punct("*"), Cons(Word("p"), Cons(Punct("->"), Cons(Word(field), Cons(Punct(op), rest)))))) ==
      Some((Deref(Arrow(Var("p"), field)), Cons(Punct(op), rest)))
  {
    ParseArrow(field, op, rest);
  }

  lemma {:induction false} ParseAdvance(op: string, rest: Tokens)
    requires Stops(op)
    ensures Unary(Cons(Word("p"), Cons(Punct("++"), Cons(Punct(op), rest)))) == Some((ADVANCE, Cons(Punct(op), rest)))
  {
    var after := Cons(Punct(op), rest);
    assert Primary(Cons(Word("p"), Cons(Punct("++"), after))) == Some((Var("p"), Cons(Punct("++"), after)));
    assert Postfix(ADVANCE, after) == Some((ADVANCE, after));
    assert Postfix(Var("p"), Cons(Punct("++"), after)) == Some((ADVANCE, after));
  }

  /** An operand alone. */
  lemma {:induction false} ExpressionOperand(ts: Tokens, e: Expr, stop: string, rest: Tokens)
    requires stop == ";" || stop == ")"
    requires Unary(ts) == Some((e, Cons(Punct(stop), rest)))
    ensures ExpressionThen(ts, stop) == Some((e, rest))
  {
    assert Comparisons(e, Cons(Punct(stop), rest)) == Some((e, Cons(Punct(stop), rest)));
  }

  /** A comparison of two operands. */
  lemma {:induction false} ExpressionCompared(ts: Tokens, e1: Expr, op: string, ts': Tokens, e2: Expr, stop: string, rest: Tokens)
    requires (stop == ";" || stop == ")") && (op == "==" || op == "!=")
    requires Unary(ts) == Some((e1, Cons(Punct(op), ts')))
    requires Unary(ts') == Some((e2, Cons(Punct(stop), rest)))
    ensures ExpressionThen(ts, stop) == Some((if op == "==" then Equal(e1, e2) else NotEqual(e1, e2), rest))
  {
    var e := if op == "==" then Equal(e1, e2) else NotEqual(e1, e2);
    var after := Cons(Punct(stop), rest);
    assert Comparisons(e, after) == Some((e, after));
    assert Comparisons(e1, Cons(Punct(op), ts')) == Some((e, after));
  }

  /** An assignment of an operand. */
  lemma {:induction false} ExpressionAssigned(ts: Tokens, e1: Expr, ts': Tokens, e2: Expr, stop: string, rest: Tokens)
    requires stop == ";" || stop == ")"
    requires Unary(ts) == Some((e1, Cons(Punct("="), ts')))
    requires Unary(ts') == Some((e2, Cons(Punct(stop), rest)))
    ensures ExpressionThen(ts, stop) == Some((Assign(e1, e2), rest))
  {
    var after := Cons(Punct(stop), rest);
    assert Comparisons(e1, Cons(Punct("="), ts')) == Some((e1, Cons(Punct("="), ts')));
    assert Comparisons(e2, after) == Some((e2, after));
    assert Expression(ts') == Some((e2, after));
  }

  // ----- statements, from the inside out

  lemma {:induction false} AttachFound(rest: Tokens)
    ensures Attach(COPY_LINE, NONE, rest) ==
      Cons(Word("data"), Cons(Punct("="), Cons(Punct("*"), Cons(Word("p"), Cons(Punct("->"), Cons(Word("data"),
        Cons(Punct(";"), rest)))))))
    ensures Attach(TRUE_LINE, NONE, rest) == Cons(Word("return"), Cons(Word("true"), Cons(Punct(";"), rest)))
    ensures Attach(FALSE_LINE, NONE, rest) == Cons(Word("return"), Cons(Word("false"), Cons(Punct(";"), rest)))
  {
  }

  lemma {:induction false} AttachBraces(rest: Tokens)
    ensures Attach(END_IF, NONE, rest) == Cons(Punct("}"), rest)
    ensures Attach(END_FOR, NONE, rest) == Cons(Punct("}"), rest)
    ensures Attach(END_FUNCTION, NONE, rest) == Cons(Punct("}"), rest)
  {
  }

  lemma {:induction false} ParseReturn(w: string, b: bool, rest: Tokens)
    requires w == if b then "true" else "false"
    ensures Statements(Cons(Word("return"), Cons(Word(w), Cons(Punct(";"), Cons(Punct("}"), rest))))) ==
      Some(([Return(Bool(b))], rest))
  {
    var after := Cons(Punct("}"), rest);
    ParseConstant(w, Bool(b), ";", after);
    ExpressionOperand(Cons(Word(w), Cons(Punct(";"), after)), Bool(b), ";", after);
    assert Statement(Cons(Word("return"), Cons(Word(w), Cons(Punct(";"), after)))) == Some((Return(Bool(b)), after));
    assert Statements(after) == Some(([], rest));
    assert [Return(Bool(b))] + [] == [Return(Bool(b))];
  }

  lemma {:induction false} ParseFound(ts: Tokens, rest: Tokens)
    requires ts == Attach(COPY_LINE, NONE, Attach(TRUE_LINE, NONE, Attach(END_IF, NONE, rest)))
    ensures Statements(ts) == Some((FOUND, rest))
  {
    AttachBraces(rest);
    AttachFound(Cons(Punct("}"), rest));
    var last := Cons(Word("return"), Cons(Word("true"), Cons(Punct(";"), Cons(Punct("}"), rest))));
    AttachFound(last);
    ParseReturn("true", true, rest);
    ParseCopy(last);
    var copy := Do(Assign(Var("data"), Deref(DATA_FIELD)));
    assert [copy] + [Return(Bool(true))] == FOUND;
  }

  lemma {:induction false} ParseCopy(rest: Tokens)
    ensures Statement(Cons(Word("data"), Cons(Punct("="), Cons(Punct("*"), Cons(Word("p"), Cons(Punct("->"),
      Cons(Word("data"), Cons(Punct(";"), rest)))))))) ==
      Some((Do(Assign(Var("data"), Deref(DATA_FIELD))), rest))
  {
    var source := Cons(Punct("*"), Cons(Word("p"), Cons(Punct("->"), Cons(Word("data"), Cons(Punct(";"), rest)))));
    ParseDerefField("data", ";", rest);
    ParseVar("data", "=", source);
    ExpressionAssigned(Cons(Word("data"), Cons(Punct("="), source)), Var("data"), source, Deref(DATA_FIELD), ";", rest);
  }

  lemma {:induction false} AttachIf(rest: Tokens)
    ensures Attach(IF_HEAD, NONE, rest) == Cons(Word("if"), Cons(Punct("("), rest))
    ensures Attach(IF_COND, NONE, rest) ==
      Cons(Punct("*"), Cons(Word("p"), Cons(Punct("->"), Cons(Word("name"), Cons(Punct("=="), Cons(Word("name"),
        Cons(Punct(")"), Cons(Punct("{"), rest))))))))
  {
  }

  lemma {:induction false} ParseIf(found: Tokens, rest: Tokens)
    requires Statements(found) == Some((FOUND, rest))
    ensures Statement(Attach(IF_HEAD, NONE, Attach(IF_COND, NONE, found))) == Some((COMPARE, rest))
  {
    AttachIf(found);
    var block := Cons(Punct("{"), found);
    var right := Cons(Word("name"), Cons(Punct(")"), block));
    var cond := Cons(Punct("*"), Cons(Word("p"), Cons(Punct("->"), Cons(Word("name"), Cons(Punct("=="), right)))));
    AttachIf(cond);
    ParseDerefField("name", "==", right);
    ParseVar("name", ")", block);
    ExpressionCompared(cond, Deref(NAME_FIELD), "==", right, Var("name"), ")", block);
    assert Block(block) == Some((FOUND, rest));
  }

  lemma {:induction false} AttachFor(rest: Tokens)
    ensures Attach(FOR_HEAD, NONE, rest) == Cons(Word("for"), Cons(Punct("("), rest))
    ensures Attach(FOR_INIT, NONE, rest) == Cons(Word("p"), Cons(Punct("="), Cons(Word("embedded_files"),
      Cons(Punct(";"), rest))))
    ensures Attach(FOR_COND, NONE, rest) ==
      Cons(Word("p"), Cons(Punct("->"), Cons(Word("name"), Cons(Punct("!="), Cons(Word("NULL"), Cons(Punct(";"), rest))))))
    ensures Attach(FOR_STEP, NONE, rest) == Cons(Word("p"), Cons(Punct("++"), Cons(Punct(")"), Cons(Punct("{"), rest))))
  {
  }

  lemma {:induction false} ParseForStep(step: Tokens, body: Tokens)
    requires step == Cons(Word("p"), Cons(Punct("++"), Cons(Punct(")"), body)))
    ensures ExpressionThen(step, ")") == Some((ADVANCE, body))
  {
    ParseAdvance(")", body);
    ExpressionOperand(step, ADVANCE, ")", body);
  }

  lemma {:induction false} ParseForCond(cond: Tokens, step: Tokens)
    requires cond == Cons(Word("p"), Cons(Punct("->"), Cons(Word("name"), Cons(Punct("!="), Cons(Word("NULL"),
      Cons(Punct(";"), step))))))
    ensures ExpressionThen(cond, ";") == Some((AT_ROW, step))
  {
    var right := Cons(Word("NULL"), Cons(Punct(";"), step));
    ParseArrow("name", "!=", right);
    ParseConstant("NULL", Null, ";", step);
    ExpressionCompared(cond, NAME_FIELD, "!=", right, Null, ";", step);
  }

  lemma {:induction false} ParseForInit(init: Tokens, cond: Tokens)
    requires init == Cons(Word("p"), Cons(Punct("="), Cons(Word("embedded_files"), Cons(Punct(";"), cond))))
    ensures ExpressionThen(init, ";") == Some((SCAN.init, cond))
  {
    var source := Cons(Word("embedded_files"), Cons(Punct(";"), cond));
    ParseVar("p", "=", source);
    ParseVar("embedded_files", ";", cond);
    ExpressionAssigned(init, Var("p"), source, Var("embedded_files"), ";", cond);
  }

  lemma {:induction false} ParseFor(body: Tokens, rest: Tokens)
    requires Statements(body) == Some(([COMPARE], rest))
    ensures Statement(Attach(FOR_HEAD, NONE, Attach(FOR_INIT, NONE, Attach(FOR_COND, NONE, Attach(FOR_STEP, NONE,
      body))))) == Some((SCAN, rest))
  {
    AttachFor(body);
    var block := Cons(Punct("{"), body);
    var step := Cons(Word("p"), Cons(Punct("++"), Cons(Punct(")"), block)));
    AttachFor(step);
    var cond := Cons(Word("p"), Cons(Punct("->"), Cons(Word("name"), Cons(Punct("!="), Cons(Word("NULL"),
      Cons(Punct(";"), step))))));
    AttachFor(cond);
    var init := Cons(Word("p"), Cons(Punct("="), Cons(Word("embedded_files"), Cons(Punct(";"), cond))));
    AttachFor(init);
    ParseForInit(init, cond);
    ParseForCond(cond, step);
    ParseForStep(step, block);
    assert Block(block) == Some(([COMPARE], rest));
  }

  /** The statements of the body, with the closing brace. */
  function BodyList(rest: Tokens): Tokens {
    var found := Attach(COPY_LINE, NONE, Attach(TRUE_LINE, NONE, Attach(END_IF, NONE, Attach(END_FOR, NONE,
                 Attach(FALSE_LINE, NONE, Attach(END_FUNCTION, NONE, rest))))));
    Attach(FOR_HEAD, NONE, Attach(FOR_INIT, NONE, Attach(FOR_COND, NONE, Attach(FOR_STEP, NONE,
    Attach(IF_HEAD, NONE, Attach(IF_COND, NONE, found))))))
  }

  lemma {:induction false} ParseCompare(endFor: Tokens)
    ensures var found := Attach(COPY_LINE, NONE, Attach(TRUE_LINE, NONE, Attach(END_IF, NONE, endFor)));
      var compare := Attach(IF_HEAD, NONE, Attach(IF_COND, NONE, found));
      compare.Cons? && compare.head != Punct("}") && Statement(compare) == Some((COMPARE, endFor))
  {
    var found := Attach(COPY_LINE, NONE, Attach(TRUE_LINE, NONE, Attach(END_IF, NONE, endFor)));
    ParseFound(found, endFor);
    ParseIf(found, endFor);
  }

  lemma {:induction false} ParseLast(rest: Tokens)
    ensures Statements(Attach(FALSE_LINE, NONE, Attach(END_FUNCTION, NONE, rest))) == Some(([Return(Bool(false))], rest))
  {
    AttachBraces(rest);
    AttachFound(Cons(Punct("}"), rest));
    ParseReturn("false", false, rest);
  }

  lemma {:induction false} ParseBody(rest: Tokens)
    ensures Statements(BodyList(rest)) == Some((FIND.body, rest))
  {
    var last := Attach(FALSE_LINE, NONE, Attach(END_FUNCTION, NONE, rest));
    ParseLast(rest);
    var endFor := Attach(END_FOR, NONE, last);
    AttachBraces(last);
    var found := Attach(COPY_LINE, NONE, Attach(TRUE_LINE, NONE, Attach(END_IF, NONE, endFor)));
    ParseCompare(endFor);
    var compare := Attach(IF_HEAD, NONE, Attach(IF_COND, NONE, found));
    ParseLoopBody(compare, endFor, last);
    ParseFor(compare, last);
    ParseSequence(BodyList(rest), last, rest);
  }

  lemma {:induction false} ParseLoopBody(compare: Tokens, endFor: Tokens, last: Tokens)
    requires compare.Cons? && compare.head != Punct("}")
    requires Statement(compare) == Some((COMPARE, endFor)) && endFor == Cons(Punct("}"), last)
    ensures Statements(compare) == Some(([COMPARE], last))
  {
    assert Statements(endFor) == Some(([], last));
    assert [COMPARE] + [] == [COMPARE];
  }

  lemma {:induction false} ParseSequence(scan: Tokens, last: Tokens, rest: Tokens)
    requires scan.Cons? && scan.head != Punct("}")
    requires Statement(scan) == Some((SCAN, last)) && Statements(last) == Some(([Return(Bool(false))], rest))
    ensures Statements(scan) == Some((FIND.body, rest))
  {
    assert [SCAN] + [Return(Bool(false))] == FIND.body;
  }

  // ----- the function

  lemma {:induction false} AttachSignature(rest: Tokens)
    ensures Attach(FUNCTION_HEAD, NONE, rest) ==
      Cons(Word("static"), Cons(Word("bool"), Cons(Word("find_embedded_file"), Cons(Punct("("), rest))))
    ensures Attach(NAME_PARAM, NONE, rest) ==
      Cons(Word("const"), Cons(Word("std"), Cons(Punct("::"), Cons(Word("string"), Cons(Punct("&"),
        Cons(Word("name"), Cons(Punct(","), rest)))))))
    ensures Attach(DATA_PARAM, NONE, rest) ==
      Cons(Word("std"), Cons(Punct("::"), Cons(Word("string"), Cons(Punct("&"), Cons(Word("data"), Cons(Punct(")"),
        Cons(Punct("{"), rest)))))))
    ensures Attach(LOCAL_LINE, NONE, rest) ==
      Cons(Word("const"), Cons(Word("struct"), Cons(Word("embedded_file"), Cons(Punct("*"), Cons(Word("p"),
        Cons(Punct(";"), rest))))))
  {
  }

  lemma {:induction false} ParseDataParam(ts: Tokens, rest: Tokens)
    requires ts == Cons(Word("std"), Cons(Punct("::"), Cons(Word("string"), Cons(Punct("&"), Cons(Word("data"),
      Cons(Punct(")"), rest))))))
    ensures Parameters(ts) == Some(([Param("data", false)], rest))
  {
    assert Parameter(ts) == Some((Param("data", false), Cons(Punct(")"), rest)));
  }

  lemma {:induction false} ParseParams(ts: Tokens, ts': Tokens, rest: Tokens)
    requires ts == Cons(Word("const"), Cons(Word("std"), Cons(Punct("::"), Cons(Word("string"), Cons(Punct("&"),
      Cons(Word("name"), Cons(Punct(","), ts')))))))
    requires Parameters(ts') == Some(([Param("data", false)], rest))
    ensures Parameters(ts) == Some((FIND.params, rest))
  {
    assert Parameter(ts) == Some((Param("name", true), Cons(Punct(","), ts')));
    assert [Param("name", true)] + [Param("data", false)] == FIND.params;
  }

  lemma {:induction false} ParseLocal(ts: Tokens, rest: Tokens)
    requires ts == Cons(Word("const"), Cons(Word("struct"), Cons(Word("embedded_file"), Cons(Punct("*"),
      Cons(Word("p"), Cons(Punct(";"), rest))))))
    requires rest.Cons? && rest.head == Word("for")
    ensures Locals(ts) == Some((FIND.locals, rest))
  {
    assert Locals(rest) == Some(([], rest));
    assert Name(Cons(Word("embedded_file"), Cons(Punct("*"), Cons(Word("p"), Cons(Punct(";"), rest))))).Some?;
    assert Name(Cons(Word("p"), Cons(Punct(";"), rest))) == Some(("p", Cons(Punct(";"), rest)));
    assert [Local("embedded_file", "p")] + [] == FIND.locals;
  }

  /** The declaration of the lookup function. */
  const FIND_DECL := Define("find_embedded_file", FIND)

  function LookupList(rest: Tokens): Tokens {
    Attach(FUNCTION_HEAD, NONE, Attach(NAME_PARAM, NONE, Attach(DATA_PARAM, NONE, Attach(LOCAL_LINE, NONE, BodyList(rest)))))
  }

  lemma {:induction false} ParseLookup(rest: Tokens)
    ensures Declaration(LookupList(rest)) == Some((FIND_DECL, rest))
  {
    var body := BodyList(rest);
    ParseBody(rest);
    AttachSignature(body);
    var local := Attach(LOCAL_LINE, NONE, body);
    BodyStarts(rest);
    ParseLocal(local, body);
    AttachSignature(local);
    var data := Attach(DATA_PARAM, NONE, local);
    ParseDataParam(data, Cons(Punct("{"), local));
    AttachSignature(data);
    var params := Attach(NAME_PARAM, NONE, data);
    ParseParams(params, data, Cons(Punct("{"), local));
    AttachSignature(params);
    ParseDefinition(params, local, body, rest);
  }

  lemma {:induction false} BodyStarts(rest: Tokens)
    ensures BodyList(rest).Cons? && BodyList(rest).head == Word("for")
  {
  }

  lemma {:induction false} ParseFunction(id: string, f: Function, params: Tokens, local: Tokens, body: Tokens, rest: Tokens)
    requires !IsKeyword(id)
    requires Parameters(params) == Some((f.params, Cons(Punct("{"), local)))
    requires Locals(local) == Some((f.locals, body))
    requires Statements(body) == Some((f.body, rest))
    ensures FunctionDefinition(Cons(Word(id), Cons(Punct("("), params))) == Some((Define(id, f), rest))
  {
  }

  lemma {:induction false} ParseStaticBool(ts: Tokens)
    ensures Declaration(Cons(Word("static"), Cons(Word("bool"), ts))) == FunctionDefinition(ts)
  {
  }

  lemma {:induction false} ParseDefinition(params: Tokens, local: Tokens, body: Tokens, rest: Tokens)
    requires Parameters(params) == Some((FIND.params, Cons(Punct("{"), local)))
    requires Locals(local) == Some((FIND.locals, body))
    requires Statements(body) == Some((FIND.body, rest))
    ensures Declaration(Cons(Word("static"), Cons(Word("bool"), Cons(Word("find_embedded_file"), Cons(Punct("("),
      params))))) == Some((FIND_DECL, rest))
  {
    ParseFunction("find_embedded_file", FIND, params, local, body, rest);
    ParseStaticBool(Cons(Word("find_embedded_file"), Cons(Punct("("), params)));
  }
}
