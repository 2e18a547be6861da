/**
 * When the text of a header determines the files it was made from: names are printed as they
 * are, so a name can hold the text that stands between two names.
 */
module Uniqueness {
  import opened Basics
  import opened Numerals
  import opened HeaderText
  import opened Lacking
  import opened Injectivity

  /** What stands between the name of file `i`, with bytes `c`, and the name of file `i + 1`, without its first quote. */
  function SeamTail(i: nat, c: seq<Byte>): string { AfterName(i, c, NamePrefix(i + 1)) }

  function Seam(i: nat, c: seq<Byte>): string { "\"" + SeamTail(i, c) }

  predicate Occurs(t: string, s: string)
    decreases |s|
  {
    |t| <= |s| && (t <= s || (s != "" && Occurs(t, s[1..])))
  }

  /** A seam between files `n` and `n + 1` stands in one of their names; a quote that delimits the name may belong to it. */
  predicate SeamStands(n: nat, c: Contents, left: string, right: string) {
    Occurs(Seam(n, c), left + "\"") || Occurs(Seam(n, c), "\"" + right)
  }

  ghost predicate Ambiguous(n: nat, left: string, right: string) { exists c: Contents :: SeamStands(n, c, left, right) }

  /** No seam between neighbours stands in their names; files are numbered from `i`. */
  ghost predicate Tight(fs: seq<File>, i: nat)
    decreases |fs|
  {
    |fs| >= 2 ==> !Ambiguous(i, fs[0].name, fs[1].name) && Tight(fs[1..], i + 1)
  }

  /** The header is that of no other list. */
  ghost predicate Unique(fs: seq<File>) { forall gs: seq<File> :: Header(gs) == Header(fs) ==> gs == fs }

  // ----- a quote before a semicolon stands only at the end of a name

  predicate Calm(s: string) { forall k :: 0 <= k < |s| - 1 ==> s[k] != '"' || s[k + 1] != ';' }

  lemma {:induction false} CalmAppend(a: string, b: string)
    requires Calm(a) && Calm(b) && (a == "" || a[|a| - 1] != '"' || b == "" || b[0] != ';')
    ensures Calm(a + b)
  {
    var s := a + b;
    forall k | 0 <= k < |s| - 1
      ensures s[k] != '"' || s[k + 1] != ';'
    {
      if k < |a| - 1 {
        assert s[k] == a[k] && s[k + 1] == a[k + 1];
      } else if k >= |a| {
        assert s[k] == b[k - |a|] && s[k + 1] == b[k + 1 - |a|];
      }
    }
  }

  lemma {:induction false} DataCloseCalm(n: nat)
    ensures Calm(DataClose(n)) && |DataClose(n)| > 0 && DataClose(n)[0] == '"' && DataClose(n)[|DataClose(n)| - 1] != '"'
  {
    DecLacks(n, '"');
    var tail := Dec(n) + ");\n\n";
    Assoc("\",\n  ", Dec(n), ");\n\n");
    assert '"' !in tail && Calm("\",\n  ");
    CalmAppend("\",\n  ", tail);
  }

  lemma {:induction false} AfterNameCalm(i: nat, c: seq<Byte>, rest: string)
    requires ';' !in rest
    ensures Calm(AfterName(i, c, rest))
  {
    DataOpenLacks(i, '"');
    BodyLacks(c, ';');
    DataCloseCalm(|c|);
    CalmAppend(DataBody(c), DataClose(|c|));
    CalmAppend(DataBody(c) + DataClose(|c|), rest);
    CalmAppend(";\n" + DataOpen(i), DataBody(c) + DataClose(|c|) + rest);
  }

  /** A quote and a semicolon after a calm text: at best its last character is that quote. */
  lemma {:induction false} QuoteAfter(u: string, r: string, w: string, t: string)
    requires Calm(u) && u + r == w + ("\"" + t) && t != "" && t[0] == ';'
    ensures |w| + 1 >= |u|
  {
    var s := u + r;
    assert s[|w|] == '"' && s[|w| + 1] == ';';
    assert forall k :: 0 <= k < |u| ==> s[k] == u[k];
  }

  // ----- the text after the first name

  function After(fs: seq<File>, i: nat): string
    requires fs != []
  {
    AfterName(i, fs[0].contents, Definitions(fs[1..], i + 1))
  }

  lemma {:induction false} DefinitionsAfter(fs: seq<File>, i: nat)
    requires fs != []
    ensures Definitions(fs, i) == NamePrefix(i) + (fs[0].name + ("\"" + After(fs, i)))
  {
    DefinitionCut(i, fs[0], Definitions(fs[1..], i + 1));
  }

  lemma AfterNameShape(s: string, o: string, b: string, p: string, r: string)
    ensures (s + o) + (b + (p + r)) == (s + o) + (b + p) + r
  {
  }

  lemma {:induction false} AfterIsSeam(fs: seq<File>, i: nat)
    requires |fs| >= 2
    ensures After(fs, i) == SeamTail(i, fs[0].contents) + (fs[1].name + ("\"" + After(fs[1..], i + 1)))
  {
    DefinitionsAfter(fs[1..], i + 1);
    var c := fs[0].contents;
    AfterNameShape(";\n", DataOpen(i), DataBody(c) + DataClose(|c|), NamePrefix(i + 1),
      fs[1].name + ("\"" + After(fs[1..], i + 1)));
  }

  lemma {:induction false} AfterStarts(fs: seq<File>, i: nat)
    requires fs != []
    ensures After(fs, i) != "" && After(fs, i)[0] == ';'
  {
    var c := fs[0].contents;
    var rest := DataBody(c) + DataClose(|c|) + Definitions(fs[1..], i + 1);
    Assoc(";\n", DataOpen(i), rest);
  }

  lemma {:induction false} SeamTailCalm(i: nat, c: seq<Byte>)
    ensures Calm(SeamTail(i, c))
  {
    NamePrefixLacks(i + 1, ';');
    AfterNameCalm(i, c, NamePrefix(i + 1));
  }

  lemma {:induction false} SeamTailEnds(i: nat, c: seq<Byte>)
    ensures SeamTail(i, c) != "" && SeamTail(i, c)[|SeamTail(i, c)| - 1] == '"'
  {
    var p := NamePrefix(i + 1);
    assert p[|p| - 1] == '"';
    AfterNameShape(";\n", DataOpen(i), DataBody(c) + DataClose(|c|), p, "");
    assert SeamTail(i, c)[|SeamTail(i, c)| - 1] == p[|p| - 1];
  }

  /** A name that ends after the text of the first definition has begun ends after the whole seam, and there is one. */
  lemma {:induction false} EndsAfterSeam(fs: seq<File>, i: nat, w: string, t: string)
    requires fs != [] && After(fs, i) == w + ("\"" + t) && t != "" && t[0] == ';'
    ensures |fs| >= 2 && |w| + 1 >= |SeamTail(i, fs[0].contents)|
  {
    if |fs| == 1 {
      assert Definitions(fs[1..], i + 1) == "";
      AfterNameCalm(i, fs[0].contents, "");
      assert After(fs, i) + "" == After(fs, i);
      QuoteAfter(After(fs, i), "", w, t);
    } else {
      SeamTailCalm(i, fs[0].contents);
      AfterIsSeam(fs, i);
      QuoteAfter(SeamTail(i, fs[0].contents), fs[1].name + ("\"" + After(fs[1..], i + 1)), w, t);
    }
  }

  // ----- two lists with one text

  lemma Suffix(a: string, x: string, b: string, y: string) returns (v: string)
    requires a + x == b + y && |a| <= |b|
    ensures b == a + v && x == v + y
  {
    v := b[|a|..];
    assert b == a + v by {
      assert (a + x)[..|a|] == (b + y)[..|a|];
      assert (a + x)[..|a|] == a && (b + y)[..|a|] == b[..|a|];
    }
    Assoc(a, v, y);
    CancelLeft(a, x, v + y);
  }

  lemma {:induction false} OccursIn(x: string, t: string, y: string, s: string)
    requires s == x + t + y
    ensures Occurs(t, s)
    decreases |x|
  {
    if x == "" {
      assert s == t + y;
    } else if s != "" {
      assert s[1..] == x[1..] + t + y;
      OccursIn(x[1..], t, y, s[1..]);
    }
  }

  lemma LongerShape(a: string, q: string, w: string, u: string, y: string)
    requires w + q == u + y
    ensures (a + (q + w)) + q == a + (q + u) + y
  {
    assert (a + (q + w)) + q == a + (q + (w + q));
  }

  /** The first name of `fs` is longer than that of `gs`, so it holds the seam of `gs`. */
  lemma {:induction false} LongerName(fs: seq<File>, gs: seq<File>, i: nat, w: string)
    requires fs != [] && gs != [] && fs[0].name == gs[0].name + ("\"" + w)
    requires w + ("\"" + After(fs, i)) == After(gs, i)
    ensures |gs| >= 2 && forall right :: SeamStands(i, gs[0].contents, fs[0].name, right)
  {
    AfterStarts(fs, i);
    EndsAfterSeam(gs, i, w, After(fs, i));
    AfterIsSeam(gs, i);
    var u, r := SeamTail(i, gs[0].contents), gs[1].name + ("\"" + After(gs[1..], i + 1));
    Assoc(w, "\"", After(fs, i));
    var y := Suffix(u, r, w + "\"", After(fs, i));
    LongerShape(gs[0].name, "\"", w, u, y);
    OccursIn(gs[0].name, Seam(i, gs[0].contents), y, fs[0].name + "\"");
  }

  lemma ShorterShape(u: string, n: string, q: string, a: string, w: string, v: string, m: string, b: string)
    requires u + (n + (q + a)) == w + (q + (v + (m + (q + b))))
    ensures (u + n) + (q + a) == (w + (q + (v + m))) + (q + b)
  {
    assert (u + n) + (q + a) == u + (n + (q + a));
    assert (w + (q + (v + m))) + (q + b) == w + (q + (v + (m + (q + b))));
  }

  /** What ends in a quote and, past it, holds a seam that starts at that quote or later. */
  lemma {:induction false} HeldBehindQuote(u: string, n: string, w: string, v: string, x: string)
    requires u != "" && u[|u| - 1] == '"' && |w| + 1 >= |u| && u + n == w + ("\"" + v) + x
    ensures Occurs("\"" + v, "\"" + n)
  {
    var s := "\"" + v;
    var w' := w[|u| - 1..];
    var u' := u[..|u| - 1];
    assert u == u' + "\"";
    assert u + n == u' + ("\"" + n);
    assert |w| >= |u'|;
    assert w == u' + w' by {
      assert (u + n)[..|u'|] == u' && (w + s + x)[..|u'|] == w[..|u'|];
    }
    assert w + s + x == u' + (w' + s + x);
    CancelLeft(u', "\"" + n, w' + s + x);
    OccursIn(w', s, x, "\"" + n);
  }

  /** A text that is one character or more longer starts with the quote the other starts with. */
  lemma QuoteSuffix(x: string, a: string, b: string) returns (w: string)
    requires x != "" && "\"" + a == x + ("\"" + b)
    ensures x == "\"" + w && a == w + ("\"" + b)
  {
    assert ("\"" + a)[0] == '"' == x[0];
    w := x[1..];
    assert x == "\"" + w;
    Assoc("\"", w, "\"" + b);
    CancelLeft("\"", a, w + ("\"" + b));
  }

  /** Two names end in one text: either the first holds the seam before the second, or it ends earlier. */
  lemma NamesEnd(u: string, n: string, a: string, w: string, v: string, m: string, b: string)
    returns (w': string)
    requires u + (n + ("\"" + a)) == w + ("\"" + (v + (m + ("\"" + b))))
    requires u != "" && u[|u| - 1] == '"' && |w| + 1 >= |u|
    ensures Occurs("\"" + v, "\"" + n) || a == w' + ("\"" + b)
  {
    w' := "";
    ShorterShape(u, n, "\"", a, w, v, m, b);
    var mine, yours := u + n, w + ("\"" + (v + m));
    if |yours| <= |mine| {
      var x := Suffix(yours, "\"" + b, mine, "\"" + a);
      assert mine == w + ("\"" + v) + (m + x);
      HeldBehindQuote(u, n, w, v, m + x);
    } else {
      var x := Suffix(mine, "\"" + a, yours, "\"" + b);
      w' := QuoteSuffix(x, a, b);
    }
  }

  /**
   * A name of `gs` ends later than the name of the same number of `fs`. This lag cannot last to
   * the last name, and where it ends a name of `fs` holds a whole seam of `gs`.
   */
  lemma {:induction false} Lagging(fs: seq<File>, gs: seq<File>, i: nat, w: string)
    requires fs != [] && |fs| == |gs| && After(fs, i) == w + ("\"" + After(gs, i))
    ensures !Tight(fs, i)
    decreases |fs|
  {
    AfterStarts(gs, i);
    EndsAfterSeam(fs, i, w, After(gs, i));
    var c := gs[0].contents;
    var w' := LagStep(fs, gs, i, w);
    if SeamStands(i, c, fs[0].name, fs[1].name) {
      SeamLoosens(fs, i, c);
    } else {
      Lagging(fs[1..], gs[1..], i + 1, w');
    }
  }

  lemma {:induction false} SeamLoosens(fs: seq<File>, i: nat, c: Contents)
    requires |fs| >= 2 && SeamStands(i, c, fs[0].name, fs[1].name)
    ensures !Tight(fs, i)
  {
  }

  lemma {:induction false} LagStep(fs: seq<File>, gs: seq<File>, i: nat, w: string) returns (w': string)
    requires |fs| == |gs| >= 2 && After(fs, i) == w + ("\"" + After(gs, i)) && |w| + 1 >= |SeamTail(i, fs[0].contents)|
    ensures SeamStands(i, gs[0].contents, fs[0].name, fs[1].name) || After(fs[1..], i + 1) == w' + ("\"" + After(gs[1..], i + 1))
  {
    AfterIsSeam(fs, i);
    AfterIsSeam(gs, i);
    SeamTailEnds(i, fs[0].contents);
    w' := NamesEnd(SeamTail(i, fs[0].contents), fs[1].name, After(fs[1..], i + 1),
                   w, SeamTail(i, gs[0].contents), gs[1].name, After(gs[1..], i + 1));
  }

  // ----- the first difference

  lemma {:induction false} SameName(fs: seq<File>, gs: seq<File>, i: nat)
    requires fs != [] && gs != [] && fs[0].name == gs[0].name && Definitions(fs, i) == Definitions(gs, i)
    ensures fs[0] == gs[0] && Definitions(fs[1..], i + 1) == Definitions(gs[1..], i + 1)
  {
    DefinitionsAfter(fs, i);
    DefinitionsAfter(gs, i);
    CancelLeft(NamePrefix(i), fs[0].name + ("\"" + After(fs, i)), gs[0].name + ("\"" + After(gs, i)));
    CancelLeft(fs[0].name, "\"" + After(fs, i), "\"" + After(gs, i));
    CancelLeft("\"", After(fs, i), After(gs, i));
    var c, d := fs[0].contents, gs[0].contents;
    var x, y := Definitions(fs[1..], i + 1), Definitions(gs[1..], i + 1);
    CancelLeft(";\n" + DataOpen(i), DataBody(c) + DataClose(|c|) + x, DataBody(d) + DataClose(|d|) + y);
    DataUnique(c, x, d, y);
  }

  lemma {:induction false} NamesDiffer(fs: seq<File>, gs: seq<File>, i: nat) returns (w: string)
    requires fs != [] && gs != [] && fs[0].name != gs[0].name && Definitions(fs, i) == Definitions(gs, i)
    ensures || (fs[0].name == gs[0].name + ("\"" + w) && w + ("\"" + After(fs, i)) == After(gs, i))
            || After(fs, i) == w + ("\"" + After(gs, i))
  {
    DefinitionsAfter(fs, i);
    DefinitionsAfter(gs, i);
    CancelLeft(NamePrefix(i), fs[0].name + ("\"" + After(fs, i)), gs[0].name + ("\"" + After(gs, i)));
    if |gs[0].name| <= |fs[0].name| {
      var v := Suffix(gs[0].name, "\"" + After(gs, i), fs[0].name, "\"" + After(fs, i));
      assert gs[0].name + "" == gs[0].name;
      w := QuoteSuffix(v, After(gs, i), After(fs, i));
    } else {
      var v := Suffix(fs[0].name, "\"" + After(fs, i), gs[0].name, "\"" + After(gs, i));
      w := QuoteSuffix(v, After(fs, i), After(gs, i));
    }
  }

  lemma {:induction false} DifferentNames(fs: seq<File>, gs: seq<File>, i: nat)
    requires fs != [] && |fs| == |gs| && fs[0].name != gs[0].name && Definitions(fs, i) == Definitions(gs, i)
    ensures !Tight(fs, i)
  {
    var w := NamesDiffer(fs, gs, i);
    if After(fs, i) == w + ("\"" + After(gs, i)) {
      Lagging(fs, gs, i, w);
    } else {
      LongerName(fs, gs, i, w);
      SeamLoosens(fs, i, gs[0].contents);
    }
  }

  /** Two lists of one length with one text: where they first differ, or later, the first is not tight. */
  lemma {:induction false} DifferentMeansLoose(fs: seq<File>, gs: seq<File>, i: nat)
    requires |fs| == |gs| && fs != gs && Definitions(fs, i) == Definitions(gs, i)
    ensures !Tight(fs, i)
    decreases |fs|
  {
    if fs[0].name != gs[0].name {
      DifferentNames(fs, gs, i);
    } else {
      SameName(fs, gs, i);
      if fs[1..] == gs[1..] {
        SameParts(fs, gs);
      }
      DifferentMeansLoose(fs[1..], gs[1..], i + 1);
    }
  }

  lemma SameParts(xs: seq<File>, ys: seq<File>)
    requires xs != [] && ys != [] && xs[0] == ys[0] && xs[1..] == ys[1..]
    ensures xs == ys
  {
    assert xs == [xs[0]] + xs[1..] && ys == [ys[0]] + ys[1..];
  }
}
