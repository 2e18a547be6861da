/** The lookup function of the header, run on any table. */
module Lookup {
  import opened Basics
  import opened Syntax
  import opened Program
  import opened Machine

  const NAME_FIELD := Arrow(Var("p"), "name")
  const DATA_FIELD := Arrow(Var("p"), "data")
  const FOUND := [Do(Assign(Var("data"), Deref(DATA_FIELD))), Return(Bool(true))]
  const COMPARE := If(Equal(Deref(NAME_FIELD), Var("name")), FOUND)
  const AT_ROW := NotEqual(NAME_FIELD, Null)
  const ADVANCE := PostIncrement(Var("p"))
  const SCAN := For(Assign(Var("p"), Var("embedded_files")), AT_ROW, ADVANCE, [COMPARE])

  /** The function the text of the header defines. */
  const FIND :=
    Function([Param("name", true), Param("data", false)],
             [Local("embedded_file", "p")],
             [SCAN, Return(Bool(false))])

  /** The program holds the lookup function and a table of name and data pointers for it. */
  predicate HasTable(q: Program, rows: seq<seq<Address>>) {
    && "find_embedded_file" in q.functions && q.functions["find_embedded_file"] == FIND
    && "embedded_files" in q.arrays && q.arrays["embedded_files"] == Array("embedded_file", ["name", "data"], rows)
    && forall i :: 0 <= i < |rows| ==> RowResolves(q, 2, rows[i])
  }

  datatype Answer = Hit(data: string) | Miss | Crash

  /** What the table answers from row `i` on; reading past the end or through NULL is a crash. */
  function Search(q: Program, rows: seq<seq<Address>>, i: nat, name: string): Answer
    requires HasTable(q, rows)
    decreases |rows| - i
  {
    if i >= |rows| then Crash
    else if rows[i][0].NullAddress? then Miss
    else if q.strings[rows[i][0].id] != name then Search(q, rows, i + 1, name)
    else if rows[i][1].NullAddress? then Crash
    else Hit(q.strings[rows[i][1].id])
  }

  function Variables(name: string, data: string, p: Value): Env {
    Env(map["name" := Text(name), "data" := Text(data), "p" := p], {"name"})
  }

  function AtRow(name: string, data: string, i: nat): Env {
    Variables(name, data, RowAt("embedded_files", i))
  }

  function PointerValue(a: Address): Value {
    if a.NullAddress? then NullPointer else StringAt(a.id)
  }

  lemma {:induction false} Columns()
    ensures Column(["name", "data"], "name") == Some(0)
    ensures Column(["name", "data"], "data") == Some(1)
  {
    assert ["name", "data"][1..] == ["data"];
    assert Column(["data"], "data") == Some(0);
  }

  lemma {:induction false} EvalFields(q: Program, rows: seq<seq<Address>>, i: nat, name: string, data: string)
    requires HasTable(q, rows) && i < |rows|
    ensures Eval(q, AtRow(name, data, i), NAME_FIELD) == Some((PointerValue(rows[i][0]), AtRow(name, data, i)))
    ensures Eval(q, AtRow(name, data, i), DATA_FIELD) == Some((PointerValue(rows[i][1]), AtRow(name, data, i)))
  {
    Columns();
    assert RowResolves(q, 2, rows[i]);
    var env := AtRow(name, data, i);
    assert Eval(q, env, Var("p")) == Some((RowAt("embedded_files", i), env));
  }

  lemma {:induction false} EvalPastEnd(q: Program, rows: seq<seq<Address>>, i: nat, name: string, data: string)
    requires HasTable(q, rows) && i >= |rows|
    ensures Eval(q, AtRow(name, data, i), AT_ROW) == None
  {
    var env := AtRow(name, data, i);
    assert Eval(q, env, Var("p")) == Some((RowAt("embedded_files", i), env));
    assert Eval(q, env, NAME_FIELD) == None;
  }

  lemma {:induction false} EvalAtRow(q: Program, rows: seq<seq<Address>>, i: nat, name: string, data: string)
    requires HasTable(q, rows) && i < |rows|
    ensures Eval(q, AtRow(name, data, i), AT_ROW) == Some((Truth(!rows[i][0].NullAddress?), AtRow(name, data, i)))
  {
    EvalFields(q, rows, i, name, data);
    var env := AtRow(name, data, i);
    assert Eval(q, env, Null) == Some((NullPointer, env));
  }

  lemma {:induction false} EvalAdvance(q: Program, rows: seq<seq<Address>>, i: nat, name: string, data: string)
    requires HasTable(q, rows) && i < |rows|
    ensures var r := Eval(q, AtRow(name, data, i), ADVANCE); r.Some? && r.value.1 == AtRow(name, data, i + 1)
  {
    var env := AtRow(name, data, i);
    assert Eval(q, env, Var("p")) == Some((RowAt("embedded_files", i), env));
    var env' := Store(env, Var("p"), RowAt("embedded_files", i + 1));
    assert env'.Some? && env'.value.vars == AtRow(name, data, i + 1).vars;
  }

  lemma {:induction false} ExecFound(q: Program, rows: seq<seq<Address>>, i: nat, name: string, data: string, fuel: nat)
    requires HasTable(q, rows) && i < |rows|
    ensures Exec(q, AtRow(name, data, i), FOUND, fuel) ==
      if rows[i][1].NullAddress? then Undefined
      else Returned(Truth(true), AtRow(name, q.strings[rows[i][1].id], i))
  {
    var env := AtRow(name, data, i);
    EvalFields(q, rows, i, name, data);
    assert RowResolves(q, 2, rows[i]) && Resolves(q, rows[i][1]);
    if !rows[i][1].NullAddress? {
      var d := q.strings[rows[i][1].id];
      assert Eval(q, env, Deref(DATA_FIELD)) == Some((Text(d), env));
      var env' := Store(env, Var("data"), Text(d));
      assert env'.Some? && env'.value.vars == AtRow(name, d, i).vars;
      assert ExecOne(q, env, FOUND[0], fuel) == Next(AtRow(name, d, i));
      assert FOUND[1..] == [Return(Bool(true))];
      assert Exec(q, AtRow(name, d, i), [Return(Bool(true))], fuel) == Returned(Truth(true), AtRow(name, d, i));
    } else {
      assert Eval(q, env, Deref(DATA_FIELD)) == None;
      assert ExecOne(q, env, FOUND[0], fuel) == Undefined;
    }
  }

  /** One turn of the loop body on a row with a name. */
  lemma {:induction false} ExecCompare(q: Program, rows: seq<seq<Address>>, i: nat, name: string, data: string, fuel: nat)
    requires HasTable(q, rows) && i < |rows| && rows[i][0].AddressOf?
    ensures rows[i][0].id in q.strings
    ensures Exec(q, AtRow(name, data, i), [COMPARE], fuel) ==
      if q.strings[rows[i][0].id] == name then Exec(q, AtRow(name, data, i), FOUND, fuel)
      else Next(AtRow(name, data, i))
  {
    var env := AtRow(name, data, i);
    EvalFields(q, rows, i, name, data);
    assert RowResolves(q, 2, rows[i]) && Resolves(q, rows[i][0]);
    var n := q.strings[rows[i][0].id];
    assert Eval(q, env, Deref(NAME_FIELD)) == Some((Text(n), env));
    assert Eval(q, env, Var("name")) == Some((Text(name), env));
    assert Eval(q, env, Equal(Deref(NAME_FIELD), Var("name"))) == Some((Truth(n == name), env));
    assert ExecOne(q, env, COMPARE, fuel) == if n == name then Exec(q, env, FOUND, fuel) else Next(env);
    assert [COMPARE][1..] == [];
    ExecFound(q, rows, i, name, data, fuel);
  }

  /** One turn of the loop. */
  lemma {:induction false} LoopTurn(q: Program, rows: seq<seq<Address>>, i: nat, name: string, data: string, fuel: nat)
    requires HasTable(q, rows) && i < |rows| && rows[i][0].AddressOf? && fuel > 0
    ensures rows[i][0].id in q.strings
    ensures q.strings[rows[i][0].id] == name ==>
      Loop(q, AtRow(name, data, i), AT_ROW, ADVANCE, [COMPARE], fuel) == Exec(q, AtRow(name, data, i), FOUND, fuel)
    ensures q.strings[rows[i][0].id] != name ==>
      Loop(q, AtRow(name, data, i), AT_ROW, ADVANCE, [COMPARE], fuel) ==
        Loop(q, AtRow(name, data, i + 1), AT_ROW, ADVANCE, [COMPARE], fuel - 1)
  {
    EvalAtRow(q, rows, i, name, data);
    ExecCompare(q, rows, i, name, data, fuel);
    ExecFound(q, rows, i, name, data, fuel);
    EvalAdvance(q, rows, i, name, data);
  }

  lemma {:induction false} LoopStops(q: Program, rows: seq<seq<Address>>, i: nat, name: string, data: string, fuel: nat)
    requires HasTable(q, rows)
    ensures i >= |rows| ==> Loop(q, AtRow(name, data, i), AT_ROW, ADVANCE, [COMPARE], fuel) == Undefined
    ensures i < |rows| && rows[i][0].NullAddress? ==>
      Loop(q, AtRow(name, data, i), AT_ROW, ADVANCE, [COMPARE], fuel) == Next(AtRow(name, data, i))
  {
    if i >= |rows| {
      EvalPastEnd(q, rows, i, name, data);
    } else {
      EvalAtRow(q, rows, i, name, data);
    }
  }

  /** The loop from row `i` on: it stops at row `k`. */
  lemma {:induction false} LoopSearches(q: Program, rows: seq<seq<Address>>, i: nat, name: string, data: string, fuel: nat)
    returns (k: nat)
    requires HasTable(q, rows) && i <= |rows| <= i + fuel
    ensures Loop(q, AtRow(name, data, i), AT_ROW, ADVANCE, [COMPARE], fuel) ==
      match Search(q, rows, i, name)
      case Hit(d) => Returned(Truth(true), AtRow(name, d, k))
      case Miss => Next(AtRow(name, data, k))
      case Crash => Undefined
    decreases fuel
  {
    k := i;
    if i == |rows| || rows[i][0].NullAddress? {
      LoopStops(q, rows, i, name, data, fuel);
    } else {
      LoopTurn(q, rows, i, name, data, fuel);
      if q.strings[rows[i][0].id] == name {
        ExecFound(q, rows, i, name, data, fuel);
      } else {
        k := LoopSearches(q, rows, i + 1, name, data, fuel - 1);
      }
    }
  }

  function CallAnswer(a: Answer, name: string, data: string): Call {
    match a
    case Hit(d) => Done(Truth(true), [Some(Text(name)), Some(Text(d))])
    case Miss => Done(Truth(false), [Some(Text(name)), Some(Text(data))])
    case Crash => UndefinedBehaviour
  }

  lemma {:induction false} CallEnv(name: string, data: string)
    ensures Env(BindLocals(BindParams(FIND.params, [name, data]), FIND.locals), Frozen(FIND.params))
         == Variables(name, data, Unset)
  {
    var ps := FIND.params;
    assert ps[1..] == [Param("data", false)] && [name, data][1..] == [data];
    assert BindParams(ps[1..], [data]) == map["data" := Text(data)];
    assert BindParams(ps, [name, data]) == map["data" := Text(data), "name" := Text(name)];
    var vars := map["data" := Text(data), "name" := Text(name), "p" := Unset];
    assert FIND.locals[1..] == [];
    assert BindLocals(BindParams(ps, [name, data]), FIND.locals) == vars;
    assert vars == Variables(name, data, Unset).vars;
    assert Frozen(ps) == {"name"} by {
      assert ps[0].isConst && ps[0].id == "name" && !ps[1].isConst;
    }
  }

  lemma {:induction false} ExecFind(q: Program, rows: seq<seq<Address>>, name: string, data: string, fuel: nat)
    returns (k: nat)
    requires HasTable(q, rows) && fuel >= |rows|
    ensures Exec(q, Variables(name, data, Unset), FIND.body, fuel) ==
      match Search(q, rows, 0, name)
      case Hit(d) => Returned(Truth(true), AtRow(name, d, k))
      case Miss => Returned(Truth(false), AtRow(name, data, k))
      case Crash => Undefined
  {
    var env, start := Variables(name, data, Unset), AtRow(name, data, 0);
    assert Eval(q, env, Var("embedded_files")) == Some((RowAt("embedded_files", 0), env));
    var env' := Store(env, Var("p"), RowAt("embedded_files", 0));
    assert env'.Some? && env'.value.vars == start.vars;
    assert Eval(q, env, SCAN.init) == Some((RowAt("embedded_files", 0), start));
    k := LoopSearches(q, rows, 0, name, data, fuel);
    var o := Loop(q, start, AT_ROW, ADVANCE, [COMPARE], fuel);
    assert ExecOne(q, env, SCAN, fuel) == o;
    assert FIND.body[1..] == [Return(Bool(false))];
    if o.Next? {
      assert Exec(q, o.env, [Return(Bool(false))], fuel) == Returned(Truth(false), o.env);
    }
  }

  /**
   * Whatever the table, a call goes round the loop at most once a row and ends the way the
   * table is searched: with the first row of that name, or false and `data` untouched.
   */
  lemma {:induction false} CallSearches(q: Program, rows: seq<seq<Address>>, name: string, data: string, fuel: nat)
    requires HasTable(q, rows) && fuel >= |rows|
    ensures Invoke(q, "find_embedded_file", [name, data], fuel) == CallAnswer(Search(q, rows, 0, name), name, data)
  {
    CallEnv(name, data);
    var k := ExecFind(q, rows, name, data, fuel);
    var a := Search(q, rows, 0, name);
    if !a.Crash? {
      var call := Invoke(q, "find_embedded_file", [name, data], fuel);
      assert call.args[0] == Some(Text(name));
      assert call.args[1] == Some(Text(if a.Hit? then a.data else data));
      assert call.args == CallAnswer(a, name, data).args;
    }
  }

  // ----- what the search means

  /** Rows before `k` have a name, and it is another one. */
  predicate Passed(q: Program, rows: seq<seq<Address>>, name: string, k: nat)
    requires HasTable(q, rows) && k <= |rows|
  {
    forall j :: 0 <= j < k ==>
      RowResolves(q, 2, rows[j]) && rows[j][0].AddressOf? && Resolves(q, rows[j][0]) && q.strings[rows[j][0].id] != name
  }

  lemma {:induction false} SearchFrom(q: Program, rows: seq<seq<Address>>, name: string, k: nat)
    requires HasTable(q, rows) && k <= |rows| && Passed(q, rows, name, k)
    ensures Search(q, rows, 0, name) == Search(q, rows, k, name)
    decreases k
  {
    if k > 0 {
      SearchFrom(q, rows, name, k - 1);
    }
  }

  lemma {:induction false} SearchStops(q: Program, rows: seq<seq<Address>>, name: string, k: nat) returns (stop: nat)
    requires HasTable(q, rows) && k <= |rows| && Passed(q, rows, name, k)
    ensures k <= stop <= |rows| && Passed(q, rows, name, stop)
    ensures stop < |rows| ==>
      RowResolves(q, 2, rows[stop]) && Resolves(q, rows[stop][0]) &&
      (rows[stop][0].NullAddress? || q.strings[rows[stop][0].id] == name)
    decreases |rows| - k
  {
    stop := k;
    if k < |rows| {
      assert RowResolves(q, 2, rows[k]) && Resolves(q, rows[k][0]);
      if rows[k][0].AddressOf? && q.strings[rows[k][0].id] != name {
        stop := SearchStops(q, rows, name, k + 1);
      }
    }
  }

  /** The search misses exactly when all rows before a NULL name were compared and differed. */
  lemma {:induction false} MissMeans(q: Program, rows: seq<seq<Address>>, name: string)
    requires HasTable(q, rows)
    ensures Search(q, rows, 0, name).Miss? <==>
      exists k :: 0 <= k < |rows| && Passed(q, rows, name, k) && RowResolves(q, 2, rows[k]) && rows[k][0].NullAddress?
  {
    var stop := SearchStops(q, rows, name, 0);
    SearchFrom(q, rows, name, stop);
    forall k | 0 <= k < |rows| && Passed(q, rows, name, k) && RowResolves(q, 2, rows[k]) && rows[k][0].NullAddress?
      ensures Search(q, rows, 0, name).Miss?
    {
      SearchFrom(q, rows, name, k);
    }
  }

  /** A name no row has: longer than all of them. */
  lemma {:induction false} UnusedName(q: Program, rows: seq<seq<Address>>, n: nat) returns (name: string)
    requires HasTable(q, rows) && n <= |rows|
    ensures forall j :: 0 <= j < n && RowResolves(q, 2, rows[j]) && rows[j][0].AddressOf? ==>
      Resolves(q, rows[j][0]) && |q.strings[rows[j][0].id]| < |name|
    decreases n
  {
    if n == 0 {
      name := "x";
    } else {
      name := UnusedName(q, rows, n - 1);
      assert RowResolves(q, 2, rows[n - 1]) && Resolves(q, rows[n - 1][0]);
      if rows[n - 1][0].AddressOf? {
        name := name + q.strings[rows[n - 1][0].id] + "x";
      }
    }
  }

  /** The name in row `j`. */
  function NameAt(q: Program, rows: seq<seq<Address>>, j: nat): string
    requires HasTable(q, rows) && j < |rows| && rows[j][0].AddressOf?
  {
    assert RowResolves(q, 2, rows[j]) && Resolves(q, rows[j][0]);
    q.strings[rows[j][0].id]
  }

  /** Row `j` has a name, and data if it is the first of that name. */
  predicate Answers(q: Program, rows: seq<seq<Address>>, j: nat)
    requires HasTable(q, rows) && j < |rows|
  {
    rows[j][0].AddressOf? && (Passed(q, rows, NameAt(q, rows, j), j) ==> rows[j][1].AddressOf?)
  }

  /** Row `k` has no name, and the rows before it answer. */
  predicate EndsAt(q: Program, rows: seq<seq<Address>>, k: nat)
    requires HasTable(q, rows)
  {
    k < |rows| && rows[k][0].NullAddress? && forall j :: 0 <= j < k ==> Answers(q, rows, j)
  }

  lemma {:induction false} EndedIsSafe(q: Program, rows: seq<seq<Address>>, k: nat, name: string)
    requires HasTable(q, rows) && EndsAt(q, rows, k)
    ensures !Search(q, rows, 0, name).Crash?
  {
    var stop := SearchStops(q, rows, name, 0);
    SearchFrom(q, rows, name, stop);
    assert stop <= k;
    if stop < k {
      assert Answers(q, rows, stop);
      assert RowResolves(q, 2, rows[stop]) && Resolves(q, rows[stop][1]);
    }
  }

  /** The first row that does not answer, up to `k`. */
  lemma {:induction false} FirstUnanswered(q: Program, rows: seq<seq<Address>>, k: nat) returns (j: nat)
    requires HasTable(q, rows) && k <= |rows|
    ensures j <= k && (forall i :: 0 <= i < j ==> Answers(q, rows, i)) && (j < k ==> !Answers(q, rows, j))
  {
    j := 0;
    while j < k && Answers(q, rows, j)
      invariant j <= k && forall i :: 0 <= i < j ==> Answers(q, rows, i)
    {
      j := j + 1;
    }
  }

  lemma {:induction false} UnendedCrashes(q: Program, rows: seq<seq<Address>>) returns (name: string)
    requires HasTable(q, rows) && forall k :: 0 <= k < |rows| ==> !EndsAt(q, rows, k)
    ensures Search(q, rows, 0, name).Crash?
  {
    var j := FirstUnanswered(q, rows, |rows|);
    if j < |rows| {
      assert RowResolves(q, 2, rows[j]) && !EndsAt(q, rows, j);
      name := NameAt(q, rows, j);
      SearchFrom(q, rows, name, j);
    } else {
      name := UnusedName(q, rows, |rows|);
      forall i | 0 <= i < |rows|
        ensures RowResolves(q, 2, rows[i]) && rows[i][0].AddressOf? && Resolves(q, rows[i][0]) && q.strings[rows[i][0].id] != name
      {
        assert RowResolves(q, 2, rows[i]) && Answers(q, rows, i);
      }
      SearchFrom(q, rows, name, |rows|);
    }
  }

  /**
   * What makes the function safe: no call has undefined behaviour if and only if some row
   * has no name, all rows before it have one, and the first row of each name has data.
   */
  lemma {:induction false} SafeIffTerminated(q: Program, rows: seq<seq<Address>>)
    requires HasTable(q, rows)
    ensures (forall name, data :: Invoke(q, "find_embedded_file", [name, data], |rows|) != UndefinedBehaviour)
       <==> exists k :: 0 <= k < |rows| && EndsAt(q, rows, k)
  {
    if k :| 0 <= k < |rows| && EndsAt(q, rows, k) {
      forall name, data ensures Invoke(q, "find_embedded_file", [name, data], |rows|) != UndefinedBehaviour {
        CallSearches(q, rows, name, data, |rows|);
        EndedIsSafe(q, rows, k, name);
      }
    } else {
      var name := UnendedCrashes(q, rows);
      CallSearches(q, rows, name, "", |rows|);
    }
  }
}
