/** What a name reads once it is printed between quotes, as it stands. */
module NameValues {
  import opened Basics
  import opened Lexer
  import opened DataLiterals
  import opened Layout
  import opened Program
  import opened Counting

  // ----- its characters are bytes

  predicate AreBytes(s: string) { forall i :: 0 <= i < |s| ==> s[i] as int < 256 }

  /** The literal under way holds bytes. */
  predicate HoldsBytes(m: Mode) {
    match m
    case InStr(v) => AreBytes(v)
    case Escape(v) => AreBytes(v)
    case HexStart(v) => AreBytes(v)
    case Hex(v, _) => AreBytes(v)
    case Octal(v, _, _) => AreBytes(v)
    case Ucn(v, _, _, _) => AreBytes(v)
    case _ => true
  }

  lemma {:induction false} InsideBytes(st: State, v: string, c: char)
    requires AreBytes(v) && c as int < 256
    ensures HoldsBytes(InsideString(st, v, c).mode)
  {
  }

  lemma {:induction false} ContinueBytes(m: Mode, c: char)
    requires HoldsBytes(m) && c as int < 256
    ensures HoldsBytes(Continue(m, c))
  {
  }

  lemma {:induction false} StepBytes(st: State, c: char)
    requires HoldsBytes(st.mode) && c as int < 256
    ensures HoldsBytes(Step(st, c).mode)
  {
    if !Ends(st.mode, c) {
      if Between(st.mode, c) {
        InsideBytes(st, ReadSoFar(st.mode), c);
      } else {
        ContinueBytes(st.mode, c);
      }
    }
  }

  lemma {:induction false} InLiteralBytes(m: Mode, s: string)
    requires HoldsBytes(m) && AreBytes(s)
    ensures HoldsBytes(InLiteral(m, s))
    decreases |s|
  {
    if s != "" {
      StepBytes(State(m, [], Code), s[0]);
      InLiteralBytes(Step(State(m, [], Code), s[0]).mode, s[1..]);
    }
  }

  lemma {:induction false} UpToZeroParts(s: string)
    ensures '\0' !in UpToZero(s) && |UpToZero(s)| <= |s| && |UpToZero(s)| <= Weight(s)
    ensures AreBytes(s) ==> AreBytes(UpToZero(s))
    ensures '\0' !in s ==> UpToZero(s) == s
    decreases |s|
  {
    if s != "" && s[0] != '\0' {
      UpToZeroParts(s[1..]);
      assert s == [s[0]] + s[1..];
      WeightAppend([s[0]], s[1..]);
      WeightSnoc("", s[0]);
      assert "" + [s[0]] == [s[0]];
    }
  }

  /** The constant declared with the name between quotes. */
  function ReadName(name: CString): (r: CString)
    ensures r == UpToZero(Value(name))
  {
    InLiteralBytes(InStr(""), name);
    UpToZeroParts(Value(name));
    UpToZero(Value(name))
  }

  lemma {:induction false} SplicePart(s: string)
    ensures |Splice(s)| <= |s| && (|Splice(s)| == |s| ==> Splice(s) == s)
    ensures forall c :: c in Splice(s) ==> c in s
    decreases |s|
  {
    if |s| >= 2 && s[0] == '\\' && s[1] == '\n' {
      SplicePart(s[2..]);
    } else if s != "" {
      SplicePart(s[1..]);
    }
  }

  function SpliceName(name: CString): (r: CString)
    ensures r == Splice(name)
  {
    SplicePart(name);
    var r := Splice(name);
    assert forall i :: 0 <= i < |r| ==> r[i] in name;
    r
  }

  /** What the compiler makes of a name without quotes; `s` are the logical lines of its text. */
  function NameVerdict(s: string): Verdict<string> {
    var m := InLiteral(InStr(""), s);
    if Between(m, '"') then Accepted(ReadSoFar(m))
    else if m.Unknown? || m.Hex? || m.Octal? then NotModelled
    else IllFormed
  }

  lemma {:induction false} VerdictOfClosing(s: string)
    requires '"' !in s
    ensures Closes(s) <==> NameVerdict(s).Accepted?
    ensures Closes(s) ==> NameVerdict(s) == Accepted(Value(s))
  {
  }

  // ----- a name that is not plain

  /** The position of the first character that a literal does not hold as it stands. */
  lemma {:induction false} FirstSpecial(s: string) returns (k: nat)
    requires !Plain(s)
    ensures k < |s| && Plain(s[..k]) && (s[k] == '"' || s[k] == '\\' || s[k] == '\n')
    decreases |s|
  {
    if s[0] == '"' || s[0] == '\\' || s[0] == '\n' {
      k := 0;
    } else {
      assert !Plain(s[1..]) by {
        var i :| 0 <= i < |s| && (s[i] == '"' || s[i] == '\\' || s[i] == '\n');
        assert s[1..][i - 1] == s[i];
      }
      var j := FirstSpecial(s[1..]);
      k := j + 1;
      assert forall i :: 0 < i < k ==> s[i] == s[1..][..j][i - 1];
    }
  }

  lemma {:induction false} SpecialStep(st: State, v: string, c: char)
    requires st.mode == InStr(v) && (c == '"' || c == '\\' || c == '\n')
    ensures Held(Step(st, c)) <= Held(st)
  {
    InsideBound(st, v, c);
  }

  /** A name that is not plain puts fewer characters into literals than it has. */
  lemma {:induction false} SpecialNameLoses(st: State, name: string)
    requires st.mode == InStr("") && !Plain(name)
    ensures Held(Run(st, name)) < Held(st) + |name|
  {
    var k := FirstSpecial(name);
    var a, b := name[..k], name[k + 1..];
    assert name == a + ([name[k]] + b);
    RunAppend(st, a, [name[k]] + b);
    RunPlain(st, "", a);
    assert "" + a == a;
    var st1 := st.(mode := InStr(a));
    WeightBound(a);
    assert Weight("") == 0;
    RunAppend(st1, [name[k]], b);
    Run1(st1, name[k]);
    SpecialStep(st1, a, name[k]);
    RunBound(Step(st1, name[k]), b);
  }

  lemma {:induction false} ValueBound(s: string)
    requires '"' !in s
    ensures Weight(Value(s)) <= |s| && (!Plain(s) ==> Weight(Value(s)) < |s|)
  {
    var st := State(InStr(""), [], Code);
    assert Held(st) == 0;
    RunInLiteral(st, s);
    RunBound(st, s);
    ReadBound(InLiteral(InStr(""), s));
    assert Decoded([]) == 0;
    if !Plain(s) {
      SpecialNameLoses(st, s);
    }
  }

  /** The literal of a name without quotes reads the name if and only if the name is plain; otherwise it reads less. */
  lemma {:induction false} ReadsBackIffPlain(name: CString)
    requires '"' !in name
    ensures ReadName(SpliceName(name)) == name <==> Plain(name)
    ensures !Plain(name) ==> |ReadName(SpliceName(name))| < |name|
    ensures Plain(name) ==> SpliceName(name) == name && Closes(name)
  {
    var s := SpliceName(name);
    SplicePart(name);
    ValueBound(s);
    UpToZeroParts(Value(s));
    if Plain(name) {
      SpliceKeeps(name);
      PlainCloses(name);
      UpToZeroParts(name);
    }
  }
}
