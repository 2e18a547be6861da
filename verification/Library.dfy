/** What `#include <string>` is for: without it no constant is a `std::string`. */
module Library {
  import opened Basics
  import opened Lexer
  import opened Preprocessor
  import opened Syntax
  import opened Parser
  import opened Program

  /** The tokens `#include <string>` with the end of their line. */
  const INCLUDE_LINE := [Punct("#")] + INCLUDE_STRING + [EndOfDirective]

  ghost predicate Includes(ts: seq<Token>) {
    exists a: seq<Token>, b: seq<Token> :: ts == a + INCLUDE_LINE + b
  }

  lemma IncludesMore(ts: seq<Token>, t: Token)
    requires Includes(ts)
    ensures Includes(ts + [t])
  {
    var a, b :| ts == a + INCLUDE_LINE + b;
    assert ts + [t] == a + INCLUDE_LINE + (b + [t]);
  }

  /** The directive under way stands at the end of what has been read. */
  ghost predicate UnderWay(u: Unit, ts: seq<Token>) {
    u.directive.Some? ==> exists a: seq<Token> :: ts == a + ([Punct("#")] + u.directive.value)
  }

  lemma {:induction false} TakeSnoc(u: Unit, ts: seq<Token>, t: Token)
    ensures TakeAll(u, ts + [t]) == Take(TakeAll(u, ts), t)
  {
    TakeAppend(u, ts, [t]);
    Take1(TakeAll(u, ts), t);
  }

  lemma {:induction false} StaysUnderWay(u: Unit, ts: seq<Token>, t: Token)
    requires u.ok && UnderWay(u, ts)
    ensures Take(u, t).ok ==> UnderWay(Take(u, t), ts + [t])
  {
    var u' := Take(u, t);
    if u'.directive.Some? && u.directive.Some? {
      var a :| ts == a + ([Punct("#")] + u.directive.value);
      assert ts + [t] == a + ([Punct("#")] + u'.directive.value);
    } else if u'.directive.Some? && u'.ok {
      assert ts + [t] == ts + ([Punct("#")] + []);
    }
  }

  lemma {:induction false} IncludedNow(u: Unit, ts: seq<Token>, t: Token)
    requires u.ok && UnderWay(u, ts) && !u.library && Take(u, t).library
    ensures Includes(ts + [t])
  {
    assert u.directive == Some(INCLUDE_STRING) && t == EndOfDirective;
    var a :| ts == a + ([Punct("#")] + INCLUDE_STRING);
    assert ts + [t] == a + INCLUDE_LINE + [];
  }

  /** The library is there only after the line that includes it. */
  lemma {:induction false} LibraryIsIncluded(ts: seq<Token>)
    ensures var u := TakeAll(EMPTY_UNIT, ts); (u.ok ==> UnderWay(u, ts)) && (u.library ==> Includes(ts))
    decreases |ts|
  {
    if ts != [] {
      var n := |ts| - 1;
      var u, t := TakeAll(EMPTY_UNIT, ts[..n]), ts[n];
      LibraryIsIncluded(ts[..n]);
      assert ts == ts[..n] + [t];
      TakeSnoc(EMPTY_UNIT, ts[..n], t);
      if u.ok {
        StaysUnderWay(u, ts[..n], t);
      }
      if u.library {
        IncludesMore(ts[..n], t);
      } else if Take(u, t).library {
        IncludedNow(u, ts[..n], t);
      }
    }
  }

  lemma {:induction false} TakeStd(u: Unit, t: Token)
    requires Word("std") in u.out ==> u.library
    ensures Word("std") in Take(u, t).out ==> Take(u, t).library
  {
    if !t.Str? {
      assert Join(u.out, t) == u.out + [t];
    } else {
      assert Word("std") in Join(u.out, t) ==> Word("std") in u.out;
    }
  }

  /** `std` is kept only when the library is there. */
  lemma {:induction false} StdNeedsLibrary(u: Unit, ts: seq<Token>)
    requires Word("std") in u.out ==> u.library
    ensures Word("std") in TakeAll(u, ts).out ==> TakeAll(u, ts).library
    decreases |ts|
  {
    if ts != [] {
      TakeStd(u, ts[0]);
      StdNeedsLibrary(Take(u, ts[0]), ts[1..]);
    }
  }

  lemma {:induction false} CountedIsThere(ts: seq<Token>)
    ensures StdCount(Listed(ts, Nil)) > 0 ==> Word("std") in ts
    decreases |ts|
  {
    if ts != [] {
      CountedIsThere(ts[1..]);
    }
  }

  lemma {:induction false} StringsAreDeclared(p: Program, ds: seq<Decl>)
    requires forall i :: 0 <= i < |ds| ==> !DeclaresString(ds[i])
    ensures DeclareAll(p, ds).Accepted? ==> DeclareAll(p, ds).value.strings == p.strings
    decreases |ds|
  {
    if ds != [] && Declare(p, ds[0]).Accepted? {
      assert !DeclaresString(ds[0]);
      StringsAreDeclared(Declare(p, ds[0]).value, ds[1..]);
    }
  }

  lemma {:induction false} CompiledStrings(js: seq<Token>)
    ensures Compile(js).Accepted? && Compile(js).value.strings != map[] ==> Word("std") in js
  {
    CountedIsThere(js);
    var ds := Declarations(Listed(js, Nil));
    if ds.Some? && StdCount(Listed(js, Nil)) == 0 {
      StringsAreDeclared(NO_PROGRAM, ds.value);
    }
  }

  /** Any text, of a header or not: if a constant of its program is a string, it includes `<string>`. */
  lemma {:induction false} StringsNeedInclude(text: string)
    requires Translate(text).Accepted? && Translate(text).value.strings != map[]
    ensures Includes(Lex(text).value)
  {
    var raw := Lex(text).value;
    var js := Preprocess(raw).value;
    CompiledStrings(js);
    StdNeedsLibrary(EMPTY_UNIT, raw);
    LibraryIsIncluded(raw);
  }
}
