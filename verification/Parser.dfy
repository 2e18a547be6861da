/** Tokens to declarations, by recursive descent. */
module Parser {
  import opened Basics
  import opened Numerals
  import opened Lexer
  import opened Counting
  import opened Syntax

  datatype Tokens = Nil | Cons(head: Token, tail: Tokens)

  /** The tokens `ts` in front of `rest`. */
  function Listed(ts: seq<Token>, rest: Tokens): Tokens {
    if ts == [] then rest else Cons(ts[0], Listed(ts[1..], rest))
  }

  function Length(ts: Tokens): nat {
    match ts
    case Nil => 0
    case Cons(_, rest) => 1 + Length(rest)
  }

  /** A value read from the front of a token list, and what is left of the list. */
  type Parsed<+T> = Option<(T, Tokens)>

  /** The characters in the literals of a token list. */
  function ListHeld(ts: Tokens): nat {
    match ts
    case Nil => 0
    case Cons(t, rest) => TokenWeight(t) + ListHeld(rest)
  }

  /** The characters in the literal of a declaration. */
  function DeclWeight(d: Decl): nat { if DeclaresString(d) then Weight(d.literal) else 0 }

  /** How often `std` stands in a token list. */
  function StdCount(ts: Tokens): nat {
    match ts
    case Nil => 0
    case Cons(t, rest) => (if t == Word("std") then 1 else 0) + StdCount(rest)
  }

  /** What is left of a list after a reader has consumed some of it, or nothing. */
  predicate Left(rest: Tokens, ts: Tokens) {
    Length(rest) <= Length(ts) && ListHeld(rest) <= ListHeld(ts) && StdCount(rest) <= StdCount(ts)
  }

  /** The reader made progress: it consumed at least one token. */
  predicate Shorter<T>(r: Parsed<T>, ts: Tokens) { r.Some? ==> Left(r.value.1, ts) && Length(r.value.1) < Length(ts) }

  predicate DeclaresString(d: Decl) { d.FromLiteral? || d.FromArray? }

  /** A declaration takes its literal from the tokens it consumes. */
  predicate TakesLiteral(r: Parsed<Decl>, ts: Tokens) {
    r.Some? ==> DeclWeight(r.value.0) + ListHeld(r.value.1) <= ListHeld(ts)
  }

  // ----- single tokens

  function Eat(ts: Tokens, t: Token): (r: Option<Tokens>)
    ensures r.Some? ==> Left(r.value, ts) && Length(r.value) < Length(ts)
  {
    match ts
    case Nil => None
    case Cons(h, rest) => if h == t then Some(rest) else None
  }

  /** The keywords of this part of the language, with the macro NULL. */
  predicate IsKeyword(w: string) {
    w == "static" || w == "const" || w == "struct" || w == "bool" || w == "for" || w == "if" ||
    w == "return" || w == "true" || w == "false" || w == "NULL"
  }

  function Name(ts: Tokens): (r: Parsed<string>)
    ensures Shorter(r, ts)
  {
    match ts
    case Cons(Word(w), rest) => if IsKeyword(w) then None else Some((w, rest))
    case _ => None
  }

  // ----- expressions, by precedence

  function Primary(ts: Tokens): (r: Parsed<Expr>)
    ensures Shorter(r, ts)
  {
    match ts
    case Cons(Word(w), rest) =>
      if w == "NULL" then Some((Null, rest))
      else if w == "true" then Some((Bool(true), rest))
      else if w == "false" then Some((Bool(false), rest))
      else if IsKeyword(w) then None
      else Some((Var(w), rest))
    case _ => None
  }

  /** `->field` and `++` after an operand. */
  function Postfix(e: Expr, ts: Tokens): (r: Parsed<Expr>)
    ensures r.Some? ==> Left(r.value.1, ts)
    decreases Length(ts)
  {
    match ts
    case Cons(Punct(op), rest) =>
      if op == "->" then
        var (field, rest') :- Name(rest);
        Postfix(Arrow(e, field), rest')
      else if op == "++" then Postfix(PostIncrement(e), rest)
      else Some((e, ts))
    case _ => Some((e, ts))
  }

  function Unary(ts: Tokens): (r: Parsed<Expr>)
    ensures Shorter(r, ts)
    decreases Length(ts)
  {
    if ts.Cons? && ts.head == Punct("*") then
      var (e, rest) :- Unary(ts.tail);
      Some((Deref(e), rest))
    else
      var (e, rest) :- Primary(ts);
      Postfix(e, rest)
  }

  /** `==` and `!=`, to the left. */
  function Comparisons(e: Expr, ts: Tokens): (r: Parsed<Expr>)
    ensures r.Some? ==> Left(r.value.1, ts)
    decreases Length(ts)
  {
    match ts
    case Cons(Punct(op), rest) =>
      if op == "==" || op == "!=" then
        var (e', rest') :- Unary(rest);
        Comparisons(if op == "==" then Equal(e, e') else NotEqual(e, e'), rest')
      else Some((e, ts))
    case _ => Some((e, ts))
  }

  /** `=`, to the right. */
  function Expression(ts: Tokens): (r: Parsed<Expr>)
    ensures Shorter(r, ts)
    decreases Length(ts)
  {
    var (e1, rest1) :- Unary(ts);
    var (e2, rest2) :- Comparisons(e1, rest1);
    match rest2
    case Cons(Punct(op), rest3) =>
      if op == "=" then
        var (e3, rest4) :- Expression(rest3);
        Some((Assign(e2, e3), rest4))
      else Some((e2, rest2))
    case _ => Some((e2, rest2))
  }

  // ----- statements

  function ExpressionThen(ts: Tokens, stop: string): (r: Parsed<Expr>)
    ensures Shorter(r, ts)
  {
    var (e, rest) :- Expression(ts);
    var rest' :- Eat(rest, Punct(stop));
    Some((e, rest'))
  }

  function Statement(ts: Tokens): (r: Parsed<Stmt>)
    ensures Shorter(r, ts)
    decreases Length(ts), 0
  {
    if ts.Cons? && ts.head == Word("for") then
      var rest0 :- Eat(ts.tail, Punct("("));
      var (init, rest1) :- ExpressionThen(rest0, ";");
      var (cond, rest2) :- ExpressionThen(rest1, ";");
      var (step, rest3) :- ExpressionThen(rest2, ")");
      var (body, rest4) :- Block(rest3);
      Some((For(init, cond, step, body), rest4))
    else if ts.Cons? && ts.head == Word("if") then
      var rest0 :- Eat(ts.tail, Punct("("));
      var (cond, rest1) :- ExpressionThen(rest0, ")");
      var (body, rest2) :- Block(rest1);
      Some((If(cond, body), rest2))
    else if ts.Cons? && ts.head == Word("return") then
      var (e, rest1) :- ExpressionThen(ts.tail, ";");
      Some((Return(e), rest1))
    else
      var (e, rest1) :- ExpressionThen(ts, ";");
      Some((Do(e), rest1))
  }

  function Block(ts: Tokens): (r: Parsed<seq<Stmt>>)
    ensures Shorter(r, ts)
    decreases Length(ts), 1
  {
    var rest :- Eat(ts, Punct("{"));
    Statements(rest)
  }

  /** Statements up to and including the closing brace. */
  function Statements(ts: Tokens): (r: Parsed<seq<Stmt>>)
    ensures Shorter(r, ts)
    decreases Length(ts), 1
  {
    if ts.Cons? && ts.head == Punct("}") then Some(([], ts.tail))
    else
      var (s, rest) :- Statement(ts);
      var (ss, rest') :- Statements(rest);
      Some(([s] + ss, rest'))
  }

  // ----- functions

  function StdString(ts: Tokens): (r: Option<Tokens>)
    ensures r.Some? ==> Left(r.value, ts) && Length(r.value) < Length(ts)
  {
    var rest0 :- Eat(ts, Word("std"));
    var rest1 :- Eat(rest0, Punct("::"));
    Eat(rest1, Word("string"))
  }

  function Parameter(ts: Tokens): (r: Parsed<Param>)
    ensures Shorter(r, ts)
  {
    var isConst := ts.Cons? && ts.head == Word("const");
    var rest0 :- StdString(if isConst then ts.tail else ts);
    var rest1 :- Eat(rest0, Punct("&"));
    var (id, rest2) :- Name(rest1);
    Some((Param(id, isConst), rest2))
  }

  /** One parameter or more, up to and including the closing parenthesis. */
  function Parameters(ts: Tokens): (r: Parsed<seq<Param>>)
    ensures Shorter(r, ts)
    decreases Length(ts)
  {
    var (p, rest) :- Parameter(ts);
    match rest
    case Cons(Punct(op), rest') =>
      if op == ")" then Some(([p], rest'))
      else if op == "," then
        var (ps, rest'') :- Parameters(rest');
        Some(([p] + ps, rest''))
      else None
    case _ => None
  }

  /** The local declarations at the head of a function body. */
  function Locals(ts: Tokens): (r: Parsed<seq<Local>>)
    ensures r.Some? ==> Left(r.value.1, ts)
    decreases Length(ts)
  {
    match ts
    case Cons(Word(w), rest) =>
      if w == "const" then
        var rest0 :- Eat(rest, Word("struct"));
        var (tag, rest1) :- Name(rest0);
        var rest2 :- Eat(rest1, Punct("*"));
        var (id, rest3) :- Name(rest2);
        var rest4 :- Eat(rest3, Punct(";"));
        var (ls, rest5) :- Locals(rest4);
        Some(([Local(tag, id)] + ls, rest5))
      else Some(([], ts))
    case _ => Some(([], ts))
  }

  /** After `static bool`. */
  function FunctionDefinition(ts: Tokens): (r: Parsed<Decl>)
    ensures Shorter(r, ts) && TakesLiteral(r, ts) && (r.Some? ==> !DeclaresString(r.value.0))
  {
    var (id, rest0) :- Name(ts);
    var rest1 :- Eat(rest0, Punct("("));
    var (params, rest2) :- Parameters(rest1);
    var rest3 :- Eat(rest2, Punct("{"));
    var (locals, rest4) :- Locals(rest3);
    var (body, rest5) :- Statements(rest4);
    Some((Define(id, Function(params, locals, body)), rest5))
  }

  // ----- constants

  function Literal(ts: Tokens): (r: Parsed<string>)
    ensures Shorter(r, ts) && (r.Some? ==> Weight(r.value.0) + ListHeld(r.value.1) <= ListHeld(ts))
  {
    match ts
    case Cons(Str(v), rest) => Some((v, rest))
    case _ => None
  }

  function Integer(ts: Tokens): (r: Parsed<nat>)
    ensures Shorter(r, ts)
  {
    match ts
    case Cons(Number(w), rest) =>
      var n :- IntegerLiteral(w);
      Some((n, rest))
    case _ => None
  }

  /** After `static const std::string`. */
  function StringConstant(ts: Tokens): (r: Parsed<Decl>)
    ensures Shorter(r, ts) && TakesLiteral(r, ts)
  {
    var (id, rest0) :- Name(ts);
    var rest1 :- Eat(rest0, Punct("="));
    if rest1.Cons? && rest1.head.Str? then
      var rest2 :- Eat(rest1.tail, Punct(";"));
      Some((FromLiteral(id, rest1.head.value), rest2))
    else
      var rest2 :- StdString(rest1);
      var rest3 :- Eat(rest2, Punct("("));
      var (v, rest4) :- Literal(rest3);
      var rest5 :- Eat(rest4, Punct(","));
      var (n, rest6) :- Integer(rest5);
      var rest7 :- Eat(rest6, Punct(")"));
      var rest8 :- Eat(rest7, Punct(";"));
      Some((FromArray(id, v, n), rest8))
  }

  // ----- the table

  /** Members `const std::string *id;` up to and including the closing brace. */
  function Fields(ts: Tokens): (r: Parsed<seq<string>>)
    ensures Shorter(r, ts)
    decreases Length(ts)
  {
    if ts.Cons? && ts.head == Punct("}") then Some(([], ts.tail))
    else
      var rest0 :- Eat(ts, Word("const"));
      var rest1 :- StdString(rest0);
      var rest2 :- Eat(rest1, Punct("*"));
      var (id, rest3) :- Name(rest2);
      var rest4 :- Eat(rest3, Punct(";"));
      var (ids, rest5) :- Fields(rest4);
      Some(([id] + ids, rest5))
  }

  function PointerInit(ts: Tokens): (r: Parsed<Address>)
    ensures Shorter(r, ts)
  {
    match ts
    case Cons(Word(w), rest) => if w == "NULL" then Some((NullAddress, rest)) else None
    case Cons(Punct(op), rest) =>
      if op == "&" then
        var (id, rest') :- Name(rest);
        Some((AddressOf(id), rest'))
      else None
    case _ => None
  }

  /** Initializers up to and including the closing brace; a last comma is allowed. */
  function RowInits(ts: Tokens): (r: Parsed<seq<Address>>)
    ensures Shorter(r, ts)
    decreases Length(ts)
  {
    if ts.Cons? && ts.head == Punct("}") then Some(([], ts.tail))
    else
      var (a, rest) :- PointerInit(ts);
      match rest
      case Cons(Punct(op), rest') =>
        if op == "}" then Some(([a], rest'))
        else if op == "," then
          var (more, rest'') :- RowInits(rest');
          Some(([a] + more, rest''))
        else None
      case _ => None
  }

  /** Rows up to and including the closing brace; a last comma is allowed. */
  function RowList(ts: Tokens): (r: Parsed<seq<seq<Address>>>)
    ensures Shorter(r, ts)
    decreases Length(ts)
  {
    if ts.Cons? && ts.head == Punct("}") then Some(([], ts.tail))
    else
      var rest0 :- Eat(ts, Punct("{"));
      var (row, rest) :- RowInits(rest0);
      match rest
      case Cons(Punct(op), rest') =>
        if op == "}" then Some(([row], rest'))
        else if op == "," then
          var (rows, rest'') :- RowList(rest');
          Some(([row] + rows, rest''))
        else None
      case _ => None
  }

  /** After `static const struct`. */
  function TableDefinition(ts: Tokens): (r: Parsed<Decl>)
    ensures Shorter(r, ts) && TakesLiteral(r, ts) && (r.Some? ==> !DeclaresString(r.value.0))
  {
    var (tag, rest0) :- Name(ts);
    var rest1 :- Eat(rest0, Punct("{"));
    var (fields, rest2) :- Fields(rest1);
    var (id, rest3) :- Name(rest2);
    var rest4 :- Eat(rest3, Punct("["));
    var rest5 :- Eat(rest4, Punct("]"));
    var rest6 :- Eat(rest5, Punct("="));
    var rest7 :- Eat(rest6, Punct("{"));
    var (rows, rest8) :- RowList(rest7);
    var rest9 :- Eat(rest8, Punct(";"));
    Some((Table(tag, fields, id, rows), rest9))
  }

  // ----- declarations

  function Declaration(ts: Tokens): (r: Parsed<Decl>)
    ensures Shorter(r, ts) && TakesLiteral(r, ts)
    ensures r.Some? && DeclaresString(r.value.0) ==> StdCount(ts) > 0
  {
    var rest0 :- Eat(ts, Word("static"));
    match rest0
    case Cons(Word(w), rest1) =>
      if w == "bool" then FunctionDefinition(rest1)
      else if w != "const" then None
      else if rest1.Cons? && rest1.head == Word("struct") then TableDefinition(rest1.tail)
      else
        var rest2 :- StdString(rest1);
        StringConstant(rest2)
    case _ => None
  }

  /** The characters in the literals of declarations. */
  function DeclsWeight(ds: seq<Decl>): nat {
    if ds == [] then 0 else DeclWeight(ds[0]) + DeclsWeight(ds[1..])
  }

  function Declarations(ts: Tokens): (r: Option<seq<Decl>>)
    ensures r.Some? ==> DeclsWeight(r.value) <= ListHeld(ts)
    ensures r.Some? && (exists i :: 0 <= i < |r.value| && DeclaresString(r.value[i])) ==> StdCount(ts) > 0
    decreases Length(ts)
  {
    if ts.Nil? then Some([])
    else
      var (d, rest) :- Declaration(ts);
      var ds :- Declarations(rest);
      assert ([d] + ds)[1..] == ds;
      Some([d] + ds)
  }
}
