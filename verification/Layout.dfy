/**
 * The printed lines as templates: words, operators and blanks, with holes where the
 * generator formats an index, a name, the bytes of a file or their count. The lexer reads
 * any such template piece by piece, whatever fills the holes.
 */
module Layout {
  import opened Basics
  import opened Numerals
  import opened HeaderText
  import opened Lexer
  import opened DataLiterals

  datatype Piece =
    | Id(word: string, spaced: bool)    // with or without a blank after it
    | Op(op: string, spaced: bool)
    | Gap(blanks: string)
    | Eol
    | Hash
    // holes
    | NameIdent
    | DataIdent
    | NameLiteral
    | DataLiterals
    | Count

  datatype Pieces = End | Then(head: Piece, tail: Pieces)

  /** What fills the holes. */
  datatype Fill = Fill(index: nat, name: string, contents: seq<Byte>)

  function NameId(i: nat): string { "translation_file_name_" + Dec(i) }

  function DataId(i: nat): string { "translation_file_data_" + Dec(i) }

  function Text(p: Piece, f: Fill): string {
    match p
    case Id(w, spaced) => if spaced then w + " " else w
    case Op(op, spaced) => if spaced then op + " " else op
    case Gap(b) => b
    case Eol => "\n"
    case Hash => "#"
    case NameIdent => NameId(f.index)
    case DataIdent => DataId(f.index)
    case NameLiteral => "\"" + f.name + "\""
    case DataLiterals => DataBody(f.contents) + "\""
    case Count => Dec(|f.contents|)
  }

  function TextAll(ps: Pieces, f: Fill): string
    decreases ps
  {
    match ps
    case End => ""
    case Then(p, rest) => Text(p, f) + TextAll(rest, f)
  }

  predicate IsWord(w: string) {
    w != "" && IsWordStart(w[0]) && forall i :: 0 <= i < |w| ==> IsWordChar(w[i])
  }

  predicate IsOp(op: string) {
    (|op| == 1 && (IsSolo(op[0]) || IsOpStart(op[0]))) ||
    (|op| == 2 && IsOpStart(op[0]) && OpExtends([op[0]], op[1]))
  }

  predicate WellFormed(p: Piece) {
    match p
    case Id(w, _) => IsWord(w)
    case Op(op, _) => IsOp(op)
    case Gap(b) => b != "" && forall i :: 0 <= i < |b| ==> b[i] == ' '
    case _ => true
  }

  // ----- where a piece leaves the lexer

  /** The mode up to what the token under way holds. */
  function Shape(m: Mode): Mode {
    match m
    case InWord(_) => InWord("")
    case InNumber(_) => InNumber("")
    case _ => m
  }

  /** A state between tokens or with a complete token not yet ended. */
  predicate Pending(m: Mode) {
    m.Space? || m.InWord? || m.InNumber? || m.InPunct? || m.StrEnd?
  }

  function ShapeAfter(p: Piece): Mode {
    match p
    case Id(_, spaced) => if spaced then Space else InWord("")
    case NameIdent | DataIdent => InWord("")
    case Count => InNumber("")
    case Op(op, spaced) => if spaced || (|op| == 1 && IsSolo(op[0])) then Space else InPunct(op)
    case NameLiteral | DataLiterals => StrEnd
    case _ => Space
  }

  function LineAfter(line: Line, p: Piece): Line {
    match p
    case Eol => Fresh
    case Gap(_) => line
    case Hash => Directive
    case _ => if line.Fresh? then Code else line
  }

  function TokensOf(line: Line, p: Piece, f: Fill): seq<Token> {
    match p
    case Id(w, _) => [Word(w)]
    case Op(op, _) => [Punct(op)]
    case Gap(_) => []
    case Eol => if line.Directive? then [EndOfDirective] else []
    case Hash => [Punct("#")]
    case NameIdent => [Word(NameId(f.index))]
    case DataIdent => [Word(DataId(f.index))]
    case NameLiteral => [Str(Value(f.name))]
    case DataLiterals => Literals(Chunks(f.contents))
    case Count => [Number(Dec(|f.contents|))]
  }

  function TokensOfAll(line: Line, ps: Pieces, f: Fill): seq<Token>
    decreases ps
  {
    match ps
    case End => []
    case Then(p, rest) => TokensOf(line, p, f) + TokensOfAll(LineAfter(line, p), rest, f)
  }

  function LineAfterAll(line: Line, ps: Pieces): Line
    decreases ps
  {
    match ps
    case End => line
    case Then(p, rest) => LineAfterAll(LineAfter(line, p), rest)
  }

  /** The piece can follow a token read in a mode of shape `m`. */
  predicate Follows(m: Mode, line: Line, p: Piece)
    requires WellFormed(p)
  {
    match p
    case Id(w, _) => Ends(m, w[0])
    case Op(op, _) => Ends(m, op[0])
    case Gap(_) => Ends(m, ' ')
    case Eol => Ends(m, '\n')
    case Hash => m.Space? && line.Fresh?
    case NameIdent | DataIdent => Ends(m, 't')
    case NameLiteral | Count => m.Space?
    case DataLiterals => m.Space? && line.Code?
  }

  /** Each piece is well formed and can follow the one before it; the last leaves no token open. */
  predicate Chained(m: Mode, line: Line, ps: Pieces)
    decreases ps
  {
    match ps
    case End => m.Space?
    case Then(p, rest) =>
      WellFormed(p) && Follows(m, line, p) && Chained(ShapeAfter(p), LineAfter(line, p), rest)
  }

  // ----- reading the pieces

  lemma {:induction false} RunWordChars(st: State, w: string, more: string)
    requires st.mode == InWord(w)
    requires forall i :: 0 <= i < |more| ==> IsWordChar(more[i])
    ensures Run(st, more) == st.(mode := InWord(w + more))
    decreases |more|
  {
    if more == "" {
      assert w + more == w;
    } else {
      RunWordChars(Step(st, more[0]), w + [more[0]], more[1..]);
      assert w + [more[0]] + more[1..] == w + more;
    }
  }

  lemma {:induction false} RunDigits(st: State, w: string, more: string)
    requires st.mode == InNumber(w)
    requires AllDigits(more)
    ensures Run(st, more) == st.(mode := InNumber(w + more))
    decreases |more|
  {
    if more == "" {
      assert w + more == w;
    } else {
      RunDigits(Step(st, more[0]), w + [more[0]], more[1..]);
      assert w + [more[0]] + more[1..] == w + more;
    }
  }

  lemma {:induction false} RunPlain(st: State, v: string, more: string)
    requires st.mode == InStr(v)
    requires Plain(more)
    ensures Run(st, more) == st.(mode := InStr(v + more))
    decreases |more|
  {
    if more == "" {
      assert v + more == v;
    } else {
      RunPlain(Step(st, more[0]), v + [more[0]], more[1..]);
      assert v + [more[0]] + more[1..] == v + more;
    }
  }

  lemma {:induction false} RunBlanks(st: State, b: string)
    requires st.mode.Space?
    requires forall i :: 0 <= i < |b| ==> b[i] == ' '
    ensures Run(st, b) == st
    decreases |b|
  {
    if b != "" {
      RunBlanks(st, b[1..]);
    }
  }

  lemma {:induction false} RunFirst(st: State, s: string)
    requires s != "" && Ends(st.mode, s[0])
    ensures Run(st, s) == Run(Start(Settle(st), s[0]), s[1..])
  {
  }

  lemma {:induction false} RunWord(st: State, w: string)
    requires Pending(st.mode) && IsWord(w) && Ends(st.mode, w[0])
    ensures Run(st, w) == Begin(Settle(st), InWord(w))
  {
    RunFirst(st, w);
    RunWordChars(Begin(Settle(st), InWord([w[0]])), [w[0]], w[1..]);
    assert [w[0]] + w[1..] == w;
  }

  lemma {:induction false} RunNumber(st: State, w: string)
    requires Pending(st.mode) && w != "" && AllDigits(w) && Ends(st.mode, w[0])
    ensures Run(st, w) == Begin(Settle(st), InNumber(w))
  {
    RunFirst(st, w);
    RunDigits(Begin(Settle(st), InNumber([w[0]])), [w[0]], w[1..]);
    assert [w[0]] + w[1..] == w;
  }

  lemma {:induction false} RunOp(st: State, op: string)
    requires Pending(st.mode) && IsOp(op) && Ends(st.mode, op[0])
    ensures Run(st, op) ==
      if |op| == 1 && IsSolo(op[0]) then Emit(Begin(Settle(st), Space), Punct(op))
      else Begin(Settle(st), InPunct(op))
  {
    RunFirst(st, op);
    if |op| == 1 {
      assert [op[0]] == op && op[1..] == "";
    } else {
      assert op[1..] == [op[1]] && [op[0]] + [op[1]] == op;
      Run1(Begin(Settle(st), InPunct([op[0]])), op[1]);
    }
  }

  lemma {:induction false} RunSpaced(st: State, s: string)
    requires Pending(Run(st, s).mode)
    ensures Run(st, s + " ") == Settle(Run(st, s))
  {
    RunAppend(st, s, " ");
    Run1(Run(st, s), ' ');
  }

  lemma {:induction false} RunQuoted(st: State, s: string)
    requires st.mode.Space? && Closes(s)
    ensures Run(st, "\"" + s + "\"") == Begin(State(StrEnd, st.toks + [Str(Value(s))], st.line), StrEnd)
  {
    var open := Begin(st, InStr(""));
    RunAppend(st, "\"" + s, "\"");
    RunAppend(st, "\"", s);
    Run1(st, '"');
    RunInLiteral(open, s);
    RunClose(Run(open, s));
  }

  /** A literal reads plain characters as they are. */
  lemma {:induction false} PlainCloses(s: string)
    requires Plain(s)
    ensures Closes(s) && Value(s) == s
  {
    var st := State(InStr(""), [], Code);
    RunPlain(st, "", s);
    RunInLiteral(st, s);
    assert "" + s == s;
  }

  lemma {:induction false} IdentsAreWords(i: nat)
    ensures IsWord(NameId(i)) && IsWord(DataId(i))
  {
    DecRead(i);
  }

  /** The lexer has gone from `st` past pieces with the given tokens, up to the end of the last. */
  predicate Past(st: State, r: State, shape: Mode, ts: seq<Token>, line: Line) {
    Pending(r.mode) && Shape(r.mode) == shape && r.line == line && Settle(r).toks == Settle(st).toks + ts
  }

  lemma {:induction false} RunHole(st: State, p: Piece, f: Fill)
    requires p.NameIdent? || p.DataIdent? || p.NameLiteral? || p.DataLiterals? || p.Count?
    requires Pending(st.mode) && Follows(Shape(st.mode), st.line, p)
    requires Closes(f.name) && f.contents != []
    ensures Past(st, Run(st, Text(p, f)), ShapeAfter(p), TokensOf(st.line, p, f), LineAfter(st.line, p))
  {
    match p
    case NameIdent => IdentsAreWords(f.index); RunWord(st, NameId(f.index));
    case DataIdent => IdentsAreWords(f.index); RunWord(st, DataId(f.index));
    case NameLiteral => RunQuoted(st, f.name);
    case DataLiterals => RunLiterals(st, f.contents);
    case Count => DecRead(|f.contents|); RunNumber(st, Dec(|f.contents|));
  }

  lemma {:induction false} RunToken(st: State, p: Piece, f: Fill)
    requires (p.Id? || p.Op?) && Pending(st.mode) && WellFormed(p) && Follows(Shape(st.mode), st.line, p)
    ensures Past(st, Run(st, Text(p, f)), ShapeAfter(p), TokensOf(st.line, p, f), LineAfter(st.line, p))
  {
    if p.Id? {
      RunWord(st, p.word);
      RunSpaced(st, p.word);
    } else {
      RunOp(st, p.op);
      RunSpaced(st, p.op);
    }
  }

  /** One piece, from any state whose mode it can follow. */
  lemma {:induction false} RunPiece(st: State, p: Piece, f: Fill)
    requires Pending(st.mode) && WellFormed(p) && Follows(Shape(st.mode), st.line, p)
    requires Closes(f.name) && f.contents != []
    ensures Past(st, Run(st, Text(p, f)), ShapeAfter(p), TokensOf(st.line, p, f), LineAfter(st.line, p))
  {
    match p
    case Id(_, _) => RunToken(st, p, f);
    case Op(_, _) => RunToken(st, p, f);
    case Gap(b) => RunFirst(st, b); RunBlanks(Settle(st), b[1..]);
    case Eol => RunFirst(st, "\n");
    case Hash => RunFirst(st, "#");
    case _ => RunHole(st, p, f);
  }

  lemma {:induction false} PastTrans(a: State, b: State, c: State, m: Mode, n: Mode, s: seq<Token>, t: seq<Token>,
    k: Line, l: Line)
    requires Past(a, b, m, s, k) && Past(b, c, n, t, l)
    ensures Past(a, c, n, s + t, l)
  {
  }

  lemma {:induction false} PastPieces(st: State, ps: Pieces, f: Fill)
    requires Pending(st.mode) && Chained(Shape(st.mode), st.line, ps)
    requires Closes(f.name) && f.contents != []
    ensures Past(st, Run(st, TextAll(ps, f)), Space, TokensOfAll(st.line, ps, f), LineAfterAll(st.line, ps))
    decreases ps
  {
    match ps
    case End =>
    case Then(p, rest) =>
      var mid, line := Run(st, Text(p, f)), LineAfter(st.line, p);
      RunAppend(st, Text(p, f), TextAll(rest, f));
      RunPiece(st, p, f);
      PastPieces(mid, rest, f);
      PastTrans(st, mid, Run(mid, TextAll(rest, f)), ShapeAfter(p), Space,
                TokensOf(st.line, p, f), TokensOfAll(line, rest, f), line, LineAfterAll(line, rest));
  }

  /** A template is read piece by piece, whatever fills its holes. */
  lemma {:induction false} RunPieces(st: State, ps: Pieces, f: Fill)
    requires st.mode.Space? && Chained(Space, st.line, ps)
    requires Closes(f.name) && f.contents != []
    ensures Run(st, TextAll(ps, f)) ==
      State(Space, st.toks + TokensOfAll(st.line, ps, f), LineAfterAll(st.line, ps))
  {
    PastPieces(st, ps, f);
  }
}
