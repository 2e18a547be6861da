/**
 * Translation phases 4 and 6 (section 5.2 of ISO/IEC 14882:2017): directives are obeyed,
 * groups that are switched off are dropped, object-like macros with an empty body are
 * expanded, and adjacent string literals are concatenated, each decoded on its own. Of the
 * library there is `<string>` only; without it nothing is known of `std`.
 */
module Preprocessor {
  import opened Basics
  import opened Lexer

  datatype Unit = Unit(
    defined: set<string>,               // macros, all with an empty body
    library: bool,                      // <string> has been included
    groups: seq<bool>,                  // the open conditional groups: is each one kept?
    directive: Option<seq<Token>>,      // the tokens of the directive under way
    out: seq<Token>,
    ok: bool)

  const EMPTY_UNIT := Unit({}, false, [], None, [], true)

  predicate Active(u: Unit) { false !in u.groups }

  /** Adds a token, joining a string literal to one just before it. */
  function Join(out: seq<Token>, t: Token): seq<Token> {
    if t.Str? && out != [] && out[|out| - 1].Str?
    then out[..|out| - 1] + [Str(out[|out| - 1].value + t.value)]
    else out + [t]
  }

  const INCLUDE_STRING := [Word("include"), Punct("<"), Word("string"), Punct(">")]

  /** Directives on which the extent of groups depends. */
  predicate IsConditional(w: string) {
    w == "if" || w == "ifdef" || w == "ifndef" || w == "elif" || w == "else" || w == "endif"
  }

  /** In a group that is dropped, other directives have no effect; conditional ones of another form are not known. */
  function Obey(u: Unit, d: seq<Token>): Unit {
    if |d| == 2 && d[0] == Word("ifndef") && d[1].Word? then
      u.(groups := u.groups + [d[1].text !in u.defined])
    else if |d| == 1 && d[0] == Word("endif") && u.groups != [] then
      u.(groups := u.groups[..|u.groups| - 1])
    else if d != [] && d[0].Word? && IsConditional(d[0].text) then u.(ok := false)
    else if !Active(u) then u
    else if |d| == 2 && d[0] == Word("define") && d[1].Word? then
      u.(defined := u.defined + {d[1].text})
    else if d == INCLUDE_STRING then u.(library := true)
    else u.(ok := false)
  }

  function Take(u: Unit, t: Token): Unit {
    if !u.ok then u
    else if u.directive.Some? then
      if t.EndOfDirective? then Obey(u.(directive := None), u.directive.value)
      else u.(directive := Some(u.directive.value + [t]))
    else if t == Punct("#") then u.(directive := Some([]))
    else if !Active(u) || (t.Word? && t.text in u.defined) then u
    else if t == Word("std") && !u.library then u.(ok := false)
    else u.(out := Join(u.out, t))
  }

  function TakeAll(u: Unit, ts: seq<Token>): Unit
    decreases |ts|, u
  {
    if ts == [] then u else TakeAll(Take(u, ts[0]), ts[1..])
  }

  /** Every directive is known, and every group is closed. */
  function Preprocess(ts: seq<Token>): Verdict<seq<Token>> {
    var u := TakeAll(EMPTY_UNIT, ts);
    if !u.ok || u.directive.Some? then NotModelled
    else if u.groups != [] then IllFormed
    else Accepted(u.out)
  }

  // ----- runs of tokens

  lemma {:induction false} TakeAppend(u: Unit, a: seq<Token>, b: seq<Token>)
    ensures TakeAll(u, a + b) == TakeAll(TakeAll(u, a), b)
    decreases |a|
  {
    if a == [] {
      assert a + b == b;
    } else {
      assert (a + b)[1..] == a[1..] + b;
      TakeAppend(Take(u, a[0]), a[1..], b);
    }
  }

  lemma {:induction false} Take1(u: Unit, t: Token)
    ensures TakeAll(u, [t]) == Take(u, t)
  {
    assert [t][1..] == [];
  }

  lemma {:induction false} TakeDirectiveTokens(u: Unit, d: seq<Token>)
    requires u.ok && u.directive.Some? && EndOfDirective !in d
    ensures TakeAll(u, d) == u.(directive := Some(u.directive.value + d))
    decreases |d|
  {
    if d == [] {
      assert u.directive.value + d == u.directive.value;
    } else {
      var u' := Take(u, d[0]);
      TakeDirectiveTokens(u', d[1..]);
      assert u'.directive.value + d[1..] == u.directive.value + d;
    }
  }

  /** A whole directive has the effect its tokens ask for. */
  lemma {:induction false} TakeDirective(u: Unit, d: seq<Token>)
    requires u.ok && u.directive.None? && EndOfDirective !in d
    ensures TakeAll(u, [Punct("#")] + d + [EndOfDirective]) == Obey(u, d)
  {
    var u1 := u.(directive := Some([]));
    TakeAppend(u, [Punct("#")] + d, [EndOfDirective]);
    TakeAppend(u, [Punct("#")], d);
    Take1(u, Punct("#"));
    TakeDirectiveTokens(u1, d);
    assert [] + d == d;
    Take1(u1.(directive := Some(d)), EndOfDirective);
  }

  predicate NoHash(ts: seq<Token>) { Punct("#") !in ts }

  /** Tokens in a group that is switched off are dropped. */
  lemma {:induction false} TakeSkipped(u: Unit, ts: seq<Token>)
    requires u.ok && u.directive.None? && !Active(u) && NoHash(ts)
    ensures TakeAll(u, ts) == u
    decreases |ts|
  {
    if ts != [] {
      TakeSkipped(u, ts[1..]);
    }
  }

  /** A token that is copied as it stands. */
  predicate Ordinary(u: Unit, t: Token) {
    t != Punct("#") && !t.Str? && !(t.Word? && t.text in u.defined) && (t == Word("std") ==> u.library)
  }

  predicate Ready(u: Unit) { u.ok && u.directive.None? && Active(u) }

  lemma {:induction false} TakeOrdinary(u: Unit, ts: seq<Token>)
    requires Ready(u) && forall i :: 0 <= i < |ts| ==> Ordinary(u, ts[i])
    ensures TakeAll(u, ts) == u.(out := u.out + ts)
    decreases |ts|
  {
    if ts == [] {
      assert u.out + ts == u.out;
    } else {
      var u' := u.(out := u.out + [ts[0]]);
      TakeOrdinary(u', ts[1..]);
      assert u'.out + ts[1..] == u.out + ts;
    }
  }
}
