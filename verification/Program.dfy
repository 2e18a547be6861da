/** Declarations to a program: static initialization, in the order of the text. */
module Program {
  import opened Basics
  import opened Lexer
  import opened Preprocessor
  import opened Syntax
  import opened Parser

  /** A table of pointers: its columns and, for each row, where each pointer points. */
  datatype Array = Array(tag: string, fields: seq<string>, rows: seq<seq<Address>>)

  datatype Program = Program(
    strings: map<string, string>,
    arrays: map<string, Array>,
    functions: map<string, Function>)

  const NO_PROGRAM := Program(map[], map[], map[])

  predicate Declared(p: Program, id: string) {
    id in p.strings || id in p.arrays || id in p.functions
  }

  /** `std::string(const char *)`: the characters before the first zero. */
  function UpToZero(s: string): string {
    if s == "" || s[0] == '\0' then "" else [s[0]] + UpToZero(s[1..])
  }

  /** An address in an initializer must be that of a string declared before it. */
  predicate Resolves(p: Program, a: Address) { a.AddressOf? ==> a.id in p.strings }

  predicate RowResolves(p: Program, width: nat, row: seq<Address>) {
    |row| == width && forall i :: 0 <= i < |row| ==> Resolves(p, row[i])
  }

  predicate TagDeclared(p: Program, tag: string) {
    exists id :: id in p.arrays && p.arrays[id].tag == tag
  }

  /**
   * Adds a declaration. An identifier and a structure are declared once; an array of `n` characters has a
   * zero after them, and a constructor that reads beyond that has no modelled meaning, nor
   * has a table or a function that refers to anything but what is declared here.
   */
  function Declare(p: Program, d: Decl): Verdict<Program> {
    if Declared(p, d.id) then IllFormed
    else match d
      case FromLiteral(id, v) => Accepted(p.(strings := p.strings[id := UpToZero(v)]))
      case FromArray(id, v, n) =>
        if n <= |v| + 1 then Accepted(p.(strings := p.strings[id := (v + ['\0'])[..n]])) else NotModelled
      case Table(tag, fields, id, rows) =>
        if TagDeclared(p, tag) then IllFormed
        else if forall i :: 0 <= i < |rows| ==> RowResolves(p, |fields|, rows[i])
        then Accepted(p.(arrays := p.arrays[id := Array(tag, fields, rows)]))
        else NotModelled
      case Define(id, f) =>
        if forall i :: 0 <= i < |f.locals| ==> TagDeclared(p, f.locals[i].tag)
        then Accepted(p.(functions := p.functions[id := f]))
        else NotModelled
  }

  function DeclareAll(p: Program, ds: seq<Decl>): Verdict<Program>
    decreases |ds|
  {
    if ds == [] then Accepted(p)
    else
      var p' :- Declare(p, ds[0]);
      DeclareAll(p', ds[1..])
  }

  /** Tokens to a program; tokens that do not parse may be declarations of another kind. */
  function Compile(toks: seq<Token>): Verdict<Program> {
    match Declarations(Listed(toks, Nil))
    case None => NotModelled
    case Some(ds) => DeclareAll(NO_PROGRAM, ds)
  }

  /** What a compiler makes of logical lines. */
  function Translate(text: string): Verdict<Program> {
    var raw :- Lex(text);
    var toks :- Preprocess(raw);
    Compile(toks)
  }

  /** What a compiler makes of a whole source text. */
  function Load(text: string): Verdict<Program> { Translate(Splice(text)) }

  // ----- declarations one after the other

  lemma {:induction false} DeclareAppend(p: Program, a: seq<Decl>, b: seq<Decl>, q: Program)
    requires DeclareAll(p, a) == Accepted(q)
    ensures DeclareAll(p, a + b) == DeclareAll(q, b)
    decreases |a|
  {
    if a == [] {
      assert a + b == b;
    } else {
      assert (a + b)[1..] == a[1..] + b;
      DeclareAppend(Declare(p, a[0]).value, a[1..], b, q);
    }
  }

  /** A string keeps the value it was declared with. */
  lemma {:induction false} StringsKept(p: Program, ds: seq<Decl>, id: string)
    requires id in p.strings
    ensures var q := DeclareAll(p, ds); q.Accepted? ==> id in q.value.strings && q.value.strings[id] == p.strings[id]
    decreases |ds|
  {
    if ds != [] {
      var p' := Declare(p, ds[0]);
      if p'.Accepted? {
        StringsKept(p'.value, ds[1..], id);
      }
    }
  }
}
