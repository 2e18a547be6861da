/** The part of C++ the header is written in. */
module Syntax {

  datatype Expr =
    | Var(id: string)
    | Null
    | Bool(value: bool)
    | Arrow(pointer: Expr, field: string)
    | Deref(pointer: Expr)
    | PostIncrement(target: Expr)
    | Equal(left: Expr, right: Expr)
    | NotEqual(left: Expr, right: Expr)
    | Assign(target: Expr, source: Expr)

  datatype Stmt =
    | For(init: Expr, cond: Expr, step: Expr, body: seq<Stmt>)
    | If(cond: Expr, body: seq<Stmt>)
    | Return(result: Expr)
    | Do(expr: Expr)

  /** `const std::string &id` or `std::string &id`. */
  datatype Param = Param(id: string, isConst: bool)

  /** `const struct tag *id;` */
  datatype Local = Local(tag: string, id: string)

  datatype Function = Function(params: seq<Param>, locals: seq<Local>, body: seq<Stmt>)

  /** An initializer of a pointer. */
  datatype Address = NullAddress | AddressOf(id: string)

  datatype Decl =
    | FromLiteral(id: string, literal: string)                 // static const std::string id = "...";
    | FromArray(id: string, literal: string, count: nat)       // static const std::string id = std::string("...", n);
    | Table(tag: string, fields: seq<string>, id: string, rows: seq<seq<Address>>)
    | Define(id: string, code: Function)                   // static bool id(...) { ... }
}
