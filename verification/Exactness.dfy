/**
 * Exactly which headers load as they should, over all lists of files: within the modelled
 * part of C++, no name that is not plain is made up for by anything else in the header.
 */
module Exactness {
  import opened Basics
  import opened HeaderText
  import opened Lexer
  import opened Counting
  import opened Layout
  import opened Preprocessor
  import opened Syntax
  import opened Parser
  import opened Program
  import opened Loading
  import opened NameValues
  import opened Splicing
  import opened Meaning
  import opened Budget

  // ----- preprocessing and parsing add nothing

  lemma {:induction false} JoinHolds(out: seq<Token>, t: Token)
    ensures Decoded(Join(out, t)) == Decoded(out) + TokenWeight(t)
  {
    var n := |out| - 1;
    if t.Str? && out != [] && out[n].Str? {
      DecodedSnoc(out[..n], Str(out[n].value + t.value));
      WeightAppend(out[n].value, t.value);
    } else {
      DecodedSnoc(out, t);
    }
  }

  lemma {:induction false} DecodedFirst(ts: seq<Token>)
    requires ts != []
    ensures Decoded(ts) == TokenWeight(ts[0]) + Decoded(ts[1..])
  {
    assert ts == [ts[0]] + ts[1..];
    DecodedAppend([ts[0]], ts[1..]);
    DecodedSnoc([], ts[0]);
    assert [] + [ts[0]] == [ts[0]];
  }

  lemma {:induction false} TakeOut(u: Unit, t: Token)
    ensures Take(u, t).out == u.out || Take(u, t).out == Join(u.out, t)
  {
  }

  lemma {:induction false} TakeBound(u: Unit, ts: seq<Token>)
    ensures Decoded(TakeAll(u, ts).out) <= Decoded(u.out) + Decoded(ts)
    decreases |ts|
  {
    if ts != [] {
      TakeOut(u, ts[0]);
      JoinHolds(u.out, ts[0]);
      TakeBound(Take(u, ts[0]), ts[1..]);
      DecodedFirst(ts);
    }
  }

  lemma {:induction false} PreprocessBound(ts: seq<Token>)
    ensures Preprocess(ts).Accepted? ==> Decoded(Preprocess(ts).value) <= Decoded(ts)
  {
    TakeBound(EMPTY_UNIT, ts);
    assert Decoded([]) == 0;
  }

  lemma {:induction false} ListedHolds(ts: seq<Token>)
    ensures ListHeld(Listed(ts, Nil)) == Decoded(ts)
    decreases |ts|
  {
    if ts != [] {
      ListedHolds(ts[1..]);
      DecodedFirst(ts);
    }
  }

  // ----- the strings of a program

  function SlotWeight(m: map<string, string>, id: string): nat { if id in m then Weight(m[id]) else 0 }

  /** The characters in the constants of files 1 to `n`. */
  function StringsWeight(m: map<string, string>, n: nat): nat {
    if n == 0 then 0 else StringsWeight(m, n - 1) + SlotWeight(m, NameId(n)) + SlotWeight(m, DataId(n))
  }

  /** A string of another file leaves the first `n` alone. */
  lemma {:induction false} OtherString(m: map<string, string>, n: nat, id: string, v: string)
    requires forall k: nat :: 1 <= k <= n ==> !OfFile(id, k)
    ensures StringsWeight(m[id := v], n) == StringsWeight(m, n)
    decreases n
  {
    if n > 0 {
      OtherString(m, n - 1, id, v);
      assert !OfFile(id, n);
    }
  }

  /** A string adds its characters once at most. */
  lemma {:induction false} StringAdds(m: map<string, string>, n: nat, id: string, v: string)
    ensures StringsWeight(m[id := v], n) <= StringsWeight(m, n) + Weight(v)
    decreases n
  {
    if n > 0 {
      if OfFile(id, n) {
        forall k: nat | 1 <= k <= n - 1 ensures !OfFile(id, k) {
          IdentsDistinct(k, n);
          IdentsDistinct(n, k);
        }
        OtherString(m, n - 1, id, v);
        IdentsDistinct(n, n);
      } else {
        StringAdds(m, n - 1, id, v);
      }
    }
  }

  lemma {:induction false} PrefixWeight(s: string, n: nat)
    requires n <= |s|
    ensures Weight(s[..n]) <= Weight(s)
  {
    assert s == s[..n] + s[n..];
    WeightAppend(s[..n], s[n..]);
  }

  lemma {:induction false} DeclareAdds(p: Program, d: Decl, n: nat)
    ensures var q := Declare(p, d);
      q.Accepted? ==> StringsWeight(q.value.strings, n) <= StringsWeight(p.strings, n) + DeclWeight(d)
  {
    match d
    case FromLiteral(id, v) =>
      UpToZeroParts(v);
      WeightBound(UpToZero(v));
      StringAdds(p.strings, n, id, UpToZero(v));
    case FromArray(id, v, count) =>
      if count <= |v| + 1 {
        PrefixWeight(v + ['\0'], count);
        WeightSnoc(v, '\0');
        StringAdds(p.strings, n, id, (v + ['\0'])[..count]);
      }
    case _ =>
  }

  lemma {:induction false} DeclareAllAdds(p: Program, ds: seq<Decl>, n: nat)
    ensures var q := DeclareAll(p, ds);
      q.Accepted? ==> StringsWeight(q.value.strings, n) <= StringsWeight(p.strings, n) + DeclsWeight(ds)
    decreases |ds|
  {
    if ds != [] {
      DeclareAdds(p, ds[0], n);
      var p' := Declare(p, ds[0]);
      if p'.Accepted? {
        DeclareAllAdds(p'.value, ds[1..], n);
      }
    }
  }

  lemma {:induction false} NoStrings(n: nat)
    ensures StringsWeight(map[], n) == 0
    decreases n
  {
    if n > 0 {
      NoStrings(n - 1);
    }
  }

  lemma {:induction false} CompileBound(js: seq<Token>, n: nat)
    ensures Compile(js).Accepted? ==> StringsWeight(Compile(js).value.strings, n) <= Decoded(js)
  {
    ListedHolds(js);
    NoStrings(n);
    var ds := Declarations(Listed(js, Nil));
    if ds.Some? {
      DeclareAllAdds(NO_PROGRAM, ds.value, n);
    }
  }

  lemma {:induction false} TranslateBound(text: string, n: nat)
    ensures Translate(text).Accepted? ==>
      Lex(text).Accepted? && StringsWeight(Translate(text).value.strings, n) <= Decoded(Lex(text).value)
  {
    var raw := Lex(text);
    if raw.Accepted? {
      PreprocessBound(raw.value);
      var js := Preprocess(raw.value);
      if js.Accepted? {
        CompileBound(js.value, n);
      }
    }
  }

  // ----- what a right program holds

  lemma {:induction false} TotalAppend(xs: seq<File>, f: File)
    ensures Total(xs + [f]) == Total(xs) + |f.name| + Weight(f.contents)
    decreases |xs|
  {
    if xs == [] {
      assert xs + [f] == [f] && [f][1..] == [];
    } else {
      assert (xs + [f])[1..] == xs[1..] + [f];
      TotalAppend(xs[1..], f);
    }
  }

  lemma {:induction false} FilesWeight(fs: seq<File>, k: nat)
    requires k <= |fs|
    ensures StringsWeight(FileStrings(map[], fs, 1), k) == Total(fs[..k])
    decreases k
  {
    if k > 0 {
      FilesWeight(fs, k - 1);
      FileStringsAt(map[], fs, 1, k - 1);
      assert fs[..k] == fs[..k - 1] + [fs[k - 1]];
      TotalAppend(fs[..k - 1], fs[k - 1]);
      WeightBound(fs[k - 1].name);
    }
  }

  lemma {:induction false} SpliceTotal(fs: seq<File>)
    ensures Total(SpliceFiles(fs)) <= Total(fs)
    ensures SpliceFiles(fs) != fs ==> Total(SpliceFiles(fs)) < Total(fs)
    decreases |fs|
  {
    if fs != [] {
      SplicePart(fs[0].name);
      SpliceTotal(fs[1..]);
      assert SpliceFiles(fs)[1..] == SpliceFiles(fs[1..]);
      assert fs == [fs[0]] + fs[1..] && SpliceFiles(fs) == [SpliceFile(fs[0])] + SpliceFiles(fs[1..]);
    }
  }

  lemma {:induction false} SplicedBound(fs: seq<File>)
    requires !PlainNames(fs)
    ensures var r := Lex(Header(SpliceFiles(fs))); r.Accepted? ==> Decoded(r.value) < Total(fs)
  {
    HeaderBound(SpliceFiles(fs));
    SpliceTotal(fs);
  }

  lemma {:induction false} RightWeight(fs: seq<File>)
    ensures StringsWeight(ProgramOf(fs).strings, |fs|) == Total(fs)
  {
    FilesWeight(fs, |fs|);
    assert fs[..|fs|] == fs;
  }

  lemma {:induction false} TooLight(text: string, p: Program, n: nat, total: nat)
    requires Lex(text).Accepted? ==> Decoded(Lex(text).value) < total
    requires StringsWeight(p.strings, n) == total
    ensures Translate(text) != Accepted(p)
  {
    TranslateBound(text, n);
  }

  lemma {:induction false} SpecialTranslationDiffers(fs: seq<File>, ss: seq<File>)
    requires !PlainNames(fs) && ss == SpliceFiles(fs)
    ensures Translate(Header(ss)) != Accepted(ProgramOf(fs))
  {
    SplicedBound(fs);
    RightWeight(fs);
    TooLight(Header(ss), ProgramOf(fs), |fs|, Total(fs));
  }

  /** A header with a name that is not plain does not load to the program of its files. */
  lemma {:induction false} SpecialHeaderDiffers(fs: seq<File>)
    requires !PlainNames(fs)
    ensures Load(Header(fs)) != Accepted(ProgramOf(fs))
  {
    SpecialTranslationDiffers(fs, SpliceFiles(fs));
    SpliceHeader(fs);
  }

  /**
   * For every list of files: the header loads to the program of its files if and only if
   * all names are plain and no file is empty.
   */
  lemma {:induction false} LoadsAsListedIff(fs: seq<File>)
    ensures Load(Header(fs)) == Accepted(ProgramOf(fs)) <==> PlainNames(fs) && NonEmptyFiles(fs)
  {
    if PlainNames(fs) {
      LoadsIffNonEmpty(fs);
    } else {
      SpecialHeaderDiffers(fs);
    }
  }
}
