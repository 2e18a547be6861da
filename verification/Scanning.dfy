/** Whether a list of files is tight, decided by scanning its names. */
module Scanning {
  import opened Basics
  import opened Numerals
  import opened HeaderText
  import opened Uniqueness
  import opened Twins

  // ----- the rendering of bytes, from the front

  /** What the loop prints for the bytes `s` when `j` bytes came before them. */
  function BodyFrom(s: seq<Byte>, j: nat): string
    decreases |s|
  {
    if s == [] then "" else Separator(j) + EscapedByte(s[0]) + BodyFrom(s[1..], j + 1)
  }

  lemma SnocShape(a: string, b: string, c: string, d: string, e: string)
    ensures a + b + (c + d + e) == (a + b + c) + d + e
  {
  }

  lemma {:induction false} BodyFromSnoc(s: seq<Byte>, j: nat, b: Byte)
    ensures BodyFrom(s + [b], j) == BodyFrom(s, j) + Separator(j + |s|) + EscapedByte(b)
    decreases |s|
  {
    if s == [] {
      assert s + [b] == [b] && [b][1..] == [] && BodyFrom([], j + 1) == "";
    } else {
      assert (s + [b])[0] == s[0] && (s + [b])[1..] == s[1..] + [b];
      BodyFromSnoc(s[1..], j + 1, b);
      SnocShape(Separator(j), EscapedByte(s[0]), BodyFrom(s[1..], j + 1), Separator(j + |s|), EscapedByte(b));
    }
  }

  lemma {:induction false} BodyFromStart(s: seq<Byte>)
    ensures BodyFrom(s, 0) == DataBody(s)
    decreases |s|
  {
    if s != [] {
      var n := |s| - 1;
      BodyFromStart(s[..n]);
      assert s == s[..n] + [s[n]];
      BodyFromSnoc(s[..n], 0, s[n]);
    }
  }

  // ----- reading it

  function ByteOf(a: char, b: char): Byte
    requires IsPrintedDigit(a) && IsPrintedDigit(b)
  {
    (HexValue(a) * 16 + HexValue(b)) as char
  }

  /** A byte stands at the start of `s`, rendered as byte number `j`. */
  predicate ByteAt(s: string, j: nat) {
    var t := Separator(j) + "\\x";
    t <= s && |s| >= |t| + 2 && IsPrintedDigit(s[|t|]) && IsPrintedDigit(s[|t| + 1])
  }

  /** The bytes rendered at the start of `s`, as many as there are, and what follows them. */
  function ScanBytes(s: string, j: nat): (seq<Byte>, string)
    decreases |s|
  {
    if ByteAt(s, j) then
      var n := |Separator(j) + "\\x"|;
      var (more, rest) := ScanBytes(s[n + 2..], j + 1);
      ([ByteOf(s[n], s[n + 1])] + more, rest)
    else ([], s)
  }

  lemma {:induction false} ByteReads(s: string, j: nat)
    requires ByteAt(s, j)
    ensures var n := |Separator(j) + "\\x"|;
      s == Separator(j) + EscapedByte(ByteOf(s[n], s[n + 1])) + s[n + 2..]
  {
    var t := Separator(j) + "\\x";
    var n := |t|;
    var b := ByteOf(s[n], s[n + 1]);
    assert Hex2(b as int) == [s[n], s[n + 1]];
    assert s == t + [s[n], s[n + 1]] + s[n + 2..];
    assert EscapedByte(b) == "\\x" + [s[n], s[n + 1]];
  }

  lemma {:induction false} ScanSound(s: string, j: nat)
    ensures var r := ScanBytes(s, j); s == BodyFrom(r.0, j) + r.1
    decreases |s|
  {
    if ByteAt(s, j) {
      var n := |Separator(j) + "\\x"|;
      ByteReads(s, j);
      ScanSound(s[n + 2..], j + 1);
      var b, r := ByteOf(s[n], s[n + 1]), ScanBytes(s[n + 2..], j + 1);
      assert ([b] + r.0)[1..] == r.0;
      Assoc(Separator(j) + EscapedByte(b), BodyFrom(r.0, j + 1), r.1);
    }
  }

  lemma {:induction false} ByteStands(b: Byte, j: nat, rest: string)
    ensures var s, n := Separator(j) + EscapedByte(b) + rest, |Separator(j) + "\\x"|;
      ByteAt(s, j) && ByteOf(s[n], s[n + 1]) == b && s[n + 2..] == rest
  {
    var t, h := Separator(j) + "\\x", Hex2(b as int);
    var s, n := Separator(j) + EscapedByte(b) + rest, |t|;
    Hex2Read(b as int);
    assert s == t + h + rest;
    assert s[n] == h[0] && s[n + 1] == h[1];
  }

  lemma {:induction false} NoByteAtClose(n: nat, rest: string, j: nat)
    ensures !ByteAt(DataClose(n) + rest, j)
  {
    var s, t := DataClose(n) + rest, Separator(j) + "\\x";
    assert s[0] == '"' && s[1] == ',' by {
      assert DataClose(n)[0] == '"' && DataClose(n)[1] == ',';
    }
    assert t[0] != '"' || t[1] != ',';
  }

  lemma {:induction false} ScanComplete(c: seq<Byte>, j: nat, n: nat, rest: string)
    ensures ScanBytes(BodyFrom(c, j) + (DataClose(n) + rest), j) == (c, DataClose(n) + rest)
    decreases |c|
  {
    var tail := DataClose(n) + rest;
    if c == [] {
      assert "" + tail == tail;
      NoByteAtClose(n, rest, j);
    } else {
      var more := BodyFrom(c[1..], j + 1);
      Assoc(Separator(j) + EscapedByte(c[0]), more, tail);
      ByteStands(c[0], j, more + tail);
      ScanComplete(c[1..], j + 1, n, rest);
      assert c == [c[0]] + c[1..];
    }
  }

  // ----- seams

  function SeamStart(n: nat): string { "\";\n" + DataOpen(n) }

  /** Some seam between files `n` and `n + 1` stands at the start of `s`. */
  predicate SeamAt(n: nat, s: string) {
    SeamStart(n) <= s &&
    var (c, rest) := ScanBytes(s[|SeamStart(n)|..], 0);
    |c| <= INT_MAX && DataClose(|c|) + NamePrefix(n + 1) <= rest
  }

  lemma SeamShape(q: string, s: string, o: string, b: string, c: string, p: string)
    ensures q + (s + o + (b + c + p)) == (q + s + o) + (b + (c + p))
  {
  }

  lemma {:induction false} SeamParts(n: nat, c: seq<Byte>)
    ensures Seam(n, c) == SeamStart(n) + (BodyFrom(c, 0) + (DataClose(|c|) + NamePrefix(n + 1)))
  {
    BodyFromStart(c);
    assert "\";\n" == "\"" + ";\n";
    SeamShape("\"", ";\n", DataOpen(n), DataBody(c), DataClose(|c|), NamePrefix(n + 1));
  }

  lemma PrefixRest(p: string, s: string) returns (y: string)
    requires p <= s
    ensures s == p + y && y == s[|p|..]
  {
    y := s[|p|..];
  }

  lemma {:induction false} SeamIsAt(n: nat, s: string, c: Contents, y: string)
    requires SeamStart(n) <= s && ScanBytes(s[|SeamStart(n)|..], 0) == (c, DataClose(|c|) + (NamePrefix(n + 1) + y))
    ensures SeamAt(n, s)
  {
    Assoc(DataClose(|c|), NamePrefix(n + 1), y);
  }

  lemma {:induction false} SeamFound(n: nat, c: Contents, s: string)
    requires Seam(n, c) <= s
    ensures SeamAt(n, s)
  {
    var y := PrefixRest(Seam(n, c), s);
    SeamParts(n, c);
    SeamRest(SeamStart(n), BodyFrom(c, 0), DataClose(|c|), NamePrefix(n + 1), y, s);
    ScanComplete(c, 0, |c|, NamePrefix(n + 1) + y);
    SeamIsAt(n, s, c, y);
  }

  lemma SeamRest(h: string, b: string, d: string, p: string, y: string, s: string)
    requires s == h + (b + (d + p)) + y
    ensures h <= s && s[|h|..] == b + (d + (p + y))
  {
    assert s == h + (b + (d + (p + y)));
  }

  lemma PartsArePrefix(h: string, b: string, e: string, y: string)
    ensures h + (b + e) <= h + (b + (e + y))
  {
    assert h + (b + (e + y)) == h + (b + e) + y;
  }

  lemma {:induction false} SeamRead(n: nat, s: string) returns (c: Contents)
    requires SeamAt(n, s)
    ensures Seam(n, c) <= s
  {
    var t := PrefixRest(SeamStart(n), s);
    var r := ScanBytes(t, 0);
    c := r.0;
    ScanSound(t, 0);
    var e := DataClose(|c|) + NamePrefix(n + 1);
    var y := PrefixRest(e, r.1);
    SeamParts(n, c);
    PartsArePrefix(SeamStart(n), BodyFrom(c, 0), e, y);
  }

  /** Some seam between files `n` and `n + 1` stands in `s`. */
  predicate HoldsSeam(n: nat, s: string)
    decreases |s|
  {
    SeamAt(n, s) || (s != "" && HoldsSeam(n, s[1..]))
  }

  lemma {:induction false} HoldsSeamOf(n: nat, c: Contents, s: string)
    requires Occurs(Seam(n, c), s)
    ensures HoldsSeam(n, s)
    decreases |s|
  {
    if Seam(n, c) <= s {
      SeamFound(n, c, s);
    } else {
      HoldsSeamOf(n, c, s[1..]);
    }
  }

  lemma {:induction false} OccursLater(t: string, s: string)
    requires s != "" && Occurs(t, s[1..])
    ensures Occurs(t, s)
  {
  }

  lemma {:induction false} SeamHeld(n: nat, s: string) returns (c: Contents)
    requires HoldsSeam(n, s)
    ensures Occurs(Seam(n, c), s)
    decreases |s|
  {
    if SeamAt(n, s) {
      c := SeamRead(n, s);
      assert |Seam(n, c)| <= |s|;
    } else {
      c := SeamHeld(n, s[1..]);
      OccursLater(Seam(n, c), s);
    }
  }

  // ----- the decision

  /** No seam between neighbours stands in their names, as a program can tell. */
  predicate IsTight(fs: seq<File>, i: nat)
    decreases |fs|
  {
    |fs| >= 2 ==>
      !HoldsSeam(i, fs[0].name + "\"") && !HoldsSeam(i, "\"" + fs[1].name) && IsTight(fs[1..], i + 1)
  }

  lemma {:induction false} AmbiguousIffHeld(n: nat, left: string, right: string)
    ensures Ambiguous(n, left, right) <==> HoldsSeam(n, left + "\"") || HoldsSeam(n, "\"" + right)
  {
    if c: Contents :| SeamStands(n, c, left, right) {
      if Occurs(Seam(n, c), left + "\"") {
        HoldsSeamOf(n, c, left + "\"");
      } else {
        HoldsSeamOf(n, c, "\"" + right);
      }
    }
    if HoldsSeam(n, left + "\"") {
      var c := SeamHeld(n, left + "\"");
      assert SeamStands(n, c, left, right);
    }
    if HoldsSeam(n, "\"" + right) {
      var c := SeamHeld(n, "\"" + right);
      assert SeamStands(n, c, left, right);
    }
  }

  lemma {:induction false} TightIsDecided(fs: seq<File>, i: nat)
    ensures IsTight(fs, i) <==> Tight(fs, i)
    decreases |fs|
  {
    if |fs| >= 2 {
      AmbiguousIffHeld(i, fs[0].name, fs[1].name);
      TightIsDecided(fs[1..], i + 1);
    }
  }

  /** A scan of the names decides whether the header belongs to this list only. */
  lemma {:induction false} UniqueIffScanned(fs: seq<File>)
    ensures Unique(fs) <==> IsTight(fs, 1)
  {
    UniqueIffTight(fs);
    TightIsDecided(fs, 1);
  }
}
