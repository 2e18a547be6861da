/** What the preprocessor makes of the tokens of a template. */
module Phases {
  import opened Basics
  import opened Lexer
  import opened DataLiterals
  import opened Layout
  import opened Preprocessor

  const GUARD := "TRANSLATION_FILES_H"

  /** The tokens of a piece once its literals are concatenated. */
  function JoinedOf(p: Piece, f: Fill): seq<Token> {
    if p.DataLiterals? then [Str(f.contents)] else TokensOf(Code, p, f)
  }

  function JoinedOfAll(ps: Pieces, f: Fill): seq<Token>
    decreases ps
  {
    match ps
    case End => []
    case Then(p, rest) => JoinedOf(p, f) + JoinedOfAll(rest, f)
  }

  /** The kind of the last token so far. */
  datatype Last = Literal | Other

  function LastAfter(last: Last, p: Piece): Last {
    match p
    case NameLiteral | DataLiterals => Literal
    case Gap(_) | Eol => last
    case _ => Other
  }

  /**
   * The template is code: it holds no directive, no word that starts like the guard's name,
   * and no two literals side by side. `last` is what comes just before it.
   */
  predicate IsCode(last: Last, ps: Pieces)
    decreases ps
  {
    match ps
    case End => last.Other?
    case Then(p, rest) => IsCodePiece(last, p) && IsCode(LastAfter(last, p), rest)
  }

  predicate IsCodePiece(last: Last, p: Piece) {
    match p
    case Hash => false
    case Id(w, _) => w != "" && w[0] != 'T'
    case Op(op, _) => op != "" && op[0] != '#'
    case NameLiteral | DataLiterals => last.Other?
    case _ => true
  }

  predicate EndsInLiteral(ts: seq<Token>) { ts != [] && ts[|ts| - 1].Str? }

  function LastOf(ts: seq<Token>): Last { if EndsInLiteral(ts) then Literal else Other }

  lemma {:induction false} TakeMoreLiterals(u: Unit, v: string, cs: seq<string>)
    requires Ready(u) && EndsInLiteral(u.out) && u.out[|u.out| - 1].value == v
    ensures TakeAll(u, Literals(cs)) == u.(out := u.out[..|u.out| - 1] + [Str(v + Flatten(cs))])
    decreases |cs|
  {
    if cs == [] {
      assert v + "" == v;
      assert u.out[..|u.out| - 1] + [Str(v)] == u.out;
    } else {
      var u' := u.(out := u.out[..|u.out| - 1] + [Str(v + cs[0])]);
      assert Take(u, Str(cs[0])) == u';
      assert Literals(cs)[1..] == Literals(cs[1..]);
      TakeMoreLiterals(u', v + cs[0], cs[1..]);
      assert v + cs[0] + Flatten(cs[1..]) == v + Flatten(cs);
    }
  }

  /** The rows of a file become one literal that reads its bytes. */
  lemma {:induction false} TakeRows(u: Unit, s: seq<Byte>)
    requires Ready(u) && !EndsInLiteral(u.out) && s != []
    ensures TakeAll(u, Literals(Chunks(s))) == u.(out := u.out + [Str(s)])
  {
    var cs := Chunks(s);
    var u' := u.(out := u.out + [Str(cs[0])]);
    assert Take(u, Str(cs[0])) == u';
    assert Literals(cs)[1..] == Literals(cs[1..]);
    TakeMoreLiterals(u', cs[0], cs[1..]);
    ChunksFlatten(s);
    assert Flatten(cs) == cs[0] + Flatten(cs[1..]);
  }

  lemma {:induction false} TakePiece(u: Unit, line: Line, p: Piece, f: Fill)
    requires Ready(u) && u.library && u.defined <= {GUARD} && !line.Directive? && f.contents != []
    requires IsCodePiece(LastOf(u.out), p)
    ensures TakeAll(u, TokensOf(line, p, f)) == u.(out := u.out + JoinedOf(p, f))
    ensures LastOf(u.out + JoinedOf(p, f)) == LastAfter(LastOf(u.out), p)
  {
    match p
    case DataLiterals => TakeRows(u, f.contents);
    case NameLiteral => Take1(u, Str(Value(f.name)));
    case NameIdent => assert NameId(f.index)[0] == 't'; TakeOrdinary(u, TokensOf(line, p, f));
    case DataIdent => assert DataId(f.index)[0] == 't'; TakeOrdinary(u, TokensOf(line, p, f));
    case _ => TakeOrdinary(u, TokensOf(line, p, f));
  }

  lemma {:induction false} CopyTwice(u: Unit, a: seq<Token>, b: seq<Token>, x: seq<Token>, y: seq<Token>)
    requires TakeAll(u, a) == u.(out := u.out + x)
    requires TakeAll(u.(out := u.out + x), b) == u.(out := u.out + x + y)
    ensures TakeAll(u, a + b) == u.(out := u.out + (x + y))
    ensures u.out + x + y == u.out + (x + y)
  {
    TakeAppend(u, a, b);
    assert u.out + x + y == u.out + (x + y);
  }

  /** Code is copied, its literals concatenated. */
  lemma {:induction false} TakePieces(u: Unit, line: Line, ps: Pieces, f: Fill)
    requires Ready(u) && u.library && u.defined <= {GUARD} && !line.Directive? && f.contents != []
    requires IsCode(LastOf(u.out), ps)
    ensures TakeAll(u, TokensOfAll(line, ps, f)) == u.(out := u.out + JoinedOfAll(ps, f))
    ensures !EndsInLiteral(u.out + JoinedOfAll(ps, f))
    decreases ps
  {
    match ps
    case End => assert u.out + [] == u.out;
    case Then(p, rest) =>
      TakePiece(u, line, p, f);
      TakePieces(u.(out := u.out + JoinedOf(p, f)), LineAfter(line, p), rest, f);
      CopyTwice(u, TokensOf(line, p, f), TokensOfAll(LineAfter(line, p), rest, f), JoinedOf(p, f), JoinedOfAll(rest, f));
  }
}
