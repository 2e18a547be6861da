/** Fragments of source text, by what the first translation phases make of them. */
module Fragments {
  import opened Lexer
  import opened Layout
  import opened Preprocessor
  import opened Phases
  import opened Parser

  /** Read between tokens on a line of kind `l`, the text is the tokens `ts` and leaves a line of kind `l'`. */
  ghost predicate Lexes(s: string, l: Line, ts: seq<Token>, l': Line) {
    forall st: State {:trigger Run(st, s)} :: st.mode.Space? && st.line == l ==> Run(st, s) == State(Space, st.toks + ts, l')
  }

  /** The tokens hold no directive, and inside the include guard they are copied as `js`. */
  ghost predicate Copies(ts: seq<Token>, js: seq<Token>) {
    && NoHash(ts)
    && forall u: Unit {:trigger TakeAll(u, ts)} :: Ready(u) && u.library && u.defined <= {GUARD} && !EndsInLiteral(u.out) ==>
         TakeAll(u, ts) == u.(out := u.out + js) && !EndsInLiteral(u.out + js)
  }

  /** The text is code whose tokens, literals concatenated, are `js`. */
  ghost predicate IsFragment(s: string, l: Line, js: seq<Token>, l': Line) {
    exists ts :: Lexes(s, l, ts, l') && Copies(ts, js)
  }

  lemma {:induction false} LexesAppend(a: string, b: string, k: Line, l: Line, m: Line, s: seq<Token>, t: seq<Token>)
    requires Lexes(a, k, s, l) && Lexes(b, l, t, m)
    ensures Lexes(a + b, k, s + t, m)
  {
    forall st: State | st.mode.Space? && st.line == k
      ensures Run(st, a + b) == State(Space, st.toks + (s + t), m)
    {
      RunAppend(st, a, b);
      assert st.toks + s + t == st.toks + (s + t);
    }
  }

  lemma {:induction false} CopiesAppend(s: seq<Token>, t: seq<Token>, x: seq<Token>, y: seq<Token>)
    requires Copies(s, x) && Copies(t, y)
    ensures Copies(s + t, x + y)
  {
    forall u: Unit | Ready(u) && u.library && u.defined <= {GUARD} && !EndsInLiteral(u.out)
      ensures TakeAll(u, s + t) == u.(out := u.out + (x + y)) && !EndsInLiteral(u.out + (x + y))
    {
      CopyTwice(u, s, t, x, y);
    }
  }

  lemma {:induction false} FragmentAppend(a: string, b: string, k: Line, l: Line, m: Line, x: seq<Token>, y: seq<Token>)
    requires IsFragment(a, k, x, l) && IsFragment(b, l, y, m)
    ensures IsFragment(a + b, k, x + y, m)
  {
    var s :| Lexes(a, k, s, l) && Copies(s, x);
    var t :| Lexes(b, l, t, m) && Copies(t, y);
    LexesAppend(a, b, k, l, m, s, t);
    CopiesAppend(s, t, x, y);
  }

  lemma {:induction false} EmptyFragment(l: Line)
    ensures IsFragment("", l, [], l)
  {
    assert Lexes("", l, [], l) by {
      forall st: State | st.mode.Space? && st.line == l ensures Run(st, "") == State(Space, st.toks + [], l) {
        assert st.toks + [] == st.toks;
      }
    }
    assert Copies([], []) by {
      forall u: Unit | Ready(u) && u.library && u.defined <= {GUARD} && !EndsInLiteral(u.out)
        ensures TakeAll(u, []) == u.(out := u.out + []) && !EndsInLiteral(u.out + [])
      {
        assert u.out + [] == u.out;
      }
    }
  }

  lemma {:induction false} CodeHasNoHash(last: Last, line: Line, ps: Pieces, f: Fill)
    requires IsCode(last, ps)
    ensures NoHash(TokensOfAll(line, ps, f))
    decreases ps
  {
    match ps
    case End =>
    case Then(p, rest) => CodeHasNoHash(LastAfter(last, p), LineAfter(line, p), rest, f);
  }

  /** What the holes of a template may be filled with. */
  predicate Filled(f: Fill) { Closes(f.name) && f.contents != [] }

  /**
   * The rest of a template of code, after a token of shape `m` and kind `last` on a line of
   * kind `l`; it leaves a line of kind `l'`.
   */
  predicate IsRestOfTemplate(m: Mode, l: Line, last: Last, ps: Pieces, l': Line)
    decreases ps
  {
    match ps
    case End => m.Space? && last.Other? && l == l'
    case Then(p, rest) =>
      WellFormed(p) && Follows(m, l, p) && IsCodePiece(last, p) &&
      IsRestOfTemplate(ShapeAfter(p), LineAfter(l, p), LastAfter(last, p), rest, l')
  }

  /** The template is code that starts on a line of kind `l` and ends on one of kind `l'`. */
  predicate IsTemplate(ps: Pieces, l: Line, l': Line) {
    !l.Directive? && IsRestOfTemplate(Space, l, Other, ps, l')
  }

  lemma {:induction false} TemplateParts(m: Mode, l: Line, last: Last, ps: Pieces, l': Line)
    requires IsRestOfTemplate(m, l, last, ps, l')
    ensures Chained(m, l, ps) && IsCode(last, ps) && LineAfterAll(l, ps) == l'
    decreases ps
  {
    match ps
    case End =>
    case Then(p, rest) => TemplateParts(ShapeAfter(p), LineAfter(l, p), LastAfter(last, p), rest, l');
  }

  lemma {:induction false} TemplateLexes(ps: Pieces, f: Fill, l: Line, l': Line)
    requires IsTemplate(ps, l, l') && Filled(f)
    ensures Lexes(TextAll(ps, f), l, TokensOfAll(l, ps, f), l')
  {
    TemplateParts(Space, l, Other, ps, l');
    forall st: State | st.mode.Space? && st.line == l
      ensures Run(st, TextAll(ps, f)) == State(Space, st.toks + TokensOfAll(l, ps, f), l')
    {
      RunPieces(st, ps, f);
    }
  }

  lemma {:induction false} TemplateCopies(ps: Pieces, f: Fill, l: Line, l': Line)
    requires IsTemplate(ps, l, l') && Filled(f)
    ensures Copies(TokensOfAll(l, ps, f), JoinedOfAll(ps, f))
  {
    var ts, js := TokensOfAll(l, ps, f), JoinedOfAll(ps, f);
    TemplateParts(Space, l, Other, ps, l');
    CodeHasNoHash(Other, l, ps, f);
    forall u: Unit | Ready(u) && u.library && u.defined <= {GUARD} && !EndsInLiteral(u.out)
      ensures TakeAll(u, ts) == u.(out := u.out + js) && !EndsInLiteral(u.out + js)
    {
      TakePieces(u, l, ps, f);
    }
  }

  /** The text of a template is a fragment, whatever fills its holes. */
  lemma {:induction false} TemplateFragment(s: string, ps: Pieces, f: Fill, l: Line, l': Line)
    requires IsTemplate(ps, l, l') && Filled(f) && s == TextAll(ps, f)
    ensures IsFragment(s, l, JoinedOfAll(ps, f), l')
  {
    TemplateLexes(ps, f, l, l');
    TemplateCopies(ps, f, l, l');
  }

  /** A filling with nothing but a number, for templates without holes for a name or for bytes. */
  function Numbered(i: nat): (f: Fill)
    ensures Filled(f)
  {
    Fill(i, "", ['x'])
  }

  const NONE := Numbered(0)

  /** One more line in front of a fragment. */
  lemma {:induction false} Prepend(t: string, ps: Pieces, k: Line, l: Line, s: string, js: seq<Token>, m: Line)
    returns (s': string, js': seq<Token>)
    requires IsTemplate(ps, k, l) && TextAll(ps, NONE) == t && IsFragment(s, l, js, m)
    ensures s' == t + s && js' == JoinedOfAll(ps, NONE) + js && IsFragment(s', k, js', m)
  {
    TemplateFragment(t, ps, NONE, k, l);
    FragmentAppend(t, s, k, l, m, JoinedOfAll(ps, NONE), js);
    s', js' := t + s, JoinedOfAll(ps, NONE) + js;
  }

  // ----- as the parser sees them

  /** The joined tokens of a template in front of `rest`. */
  function Attach(ps: Pieces, f: Fill, rest: Tokens): Tokens
    decreases ps
  {
    match ps
    case End => rest
    case Then(p, more) =>
      match p
      case Gap(_) | Eol => Attach(more, f, rest)
      case Id(w, _) => Cons(Word(w), Attach(more, f, rest))
      case Op(op, _) => Cons(Punct(op), Attach(more, f, rest))
      case _ => if JoinedOf(p, f) == [] then Attach(more, f, rest) else Cons(JoinedOf(p, f)[0], Attach(more, f, rest))
  }

  lemma {:induction false} ListedAppend(a: seq<Token>, b: seq<Token>, rest: Tokens)
    ensures Listed(a + b, rest) == Listed(a, Listed(b, rest))
    decreases |a|
  {
    if a == [] {
      assert a + b == b;
    } else {
      assert (a + b)[1..] == a[1..] + b;
      ListedAppend(a[1..], b, rest);
    }
  }

  lemma {:induction false} ListedTemplate(ps: Pieces, f: Fill, rest: Tokens)
    ensures Listed(JoinedOfAll(ps, f), rest) == Attach(ps, f, rest)
    decreases ps
  {
    match ps
    case End =>
    case Then(p, more) =>
      ListedAppend(JoinedOf(p, f), JoinedOfAll(more, f), rest);
      ListedTemplate(more, f, rest);
      assert |JoinedOf(p, f)| <= 1;
      assert |JoinedOf(p, f)| == 1 ==> JoinedOf(p, f)[1..] == [];
  }

  /** One more line in front of a token list. */
  lemma {:induction false} ListedPrepend(ps: Pieces, js: seq<Token>, rest: Tokens, ts: Tokens)
    returns (js': seq<Token>, ts': Tokens)
    requires Listed(js, rest) == ts
    ensures js' == JoinedOfAll(ps, NONE) + js && ts' == Attach(ps, NONE, ts) && Listed(js', rest) == ts'
  {
    ListedAppend(JoinedOfAll(ps, NONE), js, rest);
    ListedTemplate(ps, NONE, ts);
    js', ts' := JoinedOfAll(ps, NONE) + js, Attach(ps, NONE, ts);
  }
}
