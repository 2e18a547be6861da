/** Definitions and rows of a longer list, from those of its parts. */
module Numbering {
  import opened Basics
  import opened HeaderText

  lemma {:induction false} DefinitionsUnfold(xs: seq<File>, ys: seq<File>, i: nat)
    requires xs != []
    ensures Definitions(xs + ys, i) == Definition(i, xs[0]) + Definitions(xs[1..] + ys, i + 1)
    ensures Definitions(xs, i) == Definition(i, xs[0]) + Definitions(xs[1..], i + 1)
  {
    assert (xs + ys)[1..] == xs[1..] + ys;
  }

  lemma {:induction false} DefinitionsRegroup(f: File, xs: seq<File>, ys: seq<File>, i: nat, n: nat)
    requires Definitions(xs + ys, i + 1) == Definitions(xs, i + 1) + Definitions(ys, n)
    ensures Definition(i, f) + Definitions(xs + ys, i + 1) == Definition(i, f) + Definitions(xs, i + 1) + Definitions(ys, n)
  {
    Assoc(Definition(i, f), Definitions(xs, i + 1), Definitions(ys, n));
  }

  /** Definitions are numbered on: those of `ys` come after those of `xs`, shifted by their number. */
  lemma {:induction false} DefinitionsAppend(xs: seq<File>, ys: seq<File>, i: nat, n: nat)
    requires n == i + |xs|
    ensures Definitions(xs + ys, i) == Definitions(xs, i) + Definitions(ys, n)
    decreases |xs|
  {
    if xs == [] {
      assert xs + ys == ys;
    } else {
      DefinitionsAppend(xs[1..], ys, i + 1, n);
      DefinitionsUnfold(xs, ys, i);
      DefinitionsRegroup(xs[0], xs[1..], ys, i, n);
    }
  }

  lemma {:induction false} OneDefinition(f: File, i: nat)
    ensures Definitions([f], i) == Definition(i, f)
  {
    assert [f][1..] == [];
    assert Definition(i, f) + "" == Definition(i, f);
  }

  lemma {:induction false} DefinitionsSnoc(fs: seq<File>, f: File, i: nat)
    requires i == 1 + |fs|
    ensures Definitions(fs + [f], 1) == Definitions(fs, 1) + Definition(i, f)
  {
    DefinitionsAppend(fs, [f], 1, i);
    OneDefinition(f, i);
  }

  lemma {:induction false} RowsUnfold(i: nat, n: nat)
    requires i < n
    ensures Rows(i, n) == Row(i) + Rows(i + 1, n)
  {
  }

  lemma {:induction false} RowsRegroup(i: nat, n: nat, m: nat)
    requires Rows(i + 1, m) == Rows(i + 1, n) + Row(n)
    ensures Row(i) + Rows(i + 1, m) == Row(i) + Rows(i + 1, n) + Row(n)
  {
    Assoc(Row(i), Rows(i + 1, n), Row(n));
  }

  lemma {:induction false} LastRow(n: nat, m: nat)
    requires m == n + 1
    ensures Rows(n, m) == Rows(n, n) + Row(n)
  {
    assert Rows(m, m) == "" && Rows(n, n) == "";
    assert Row(n) + "" == Row(n) == "" + Row(n);
  }

  lemma {:induction false} RowsSnoc(i: nat, n: nat, m: nat)
    requires i <= n && m == n + 1
    ensures Rows(i, m) == Rows(i, n) + Row(n)
    decreases n - i
  {
    if i < n {
      RowsSnoc(i + 1, n, m);
      RowsUnfold(i, n);
      RowsUnfold(i, m);
      RowsRegroup(i, n, m);
    } else {
      LastRow(n, m);
    }
  }
}
