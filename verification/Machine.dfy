/** Running a function of a loaded program. */
module Machine {
  import opened Basics
  import opened Syntax
  import opened Program

  datatype Value =
    | Truth(b: bool)
    | Text(s: string)
    | NullPointer
    | StringAt(id: string)                  // address of a string constant
    | RowAt(table: string, index: nat)      // address of a row, or one past the last
    | Unset                                 // an uninitialized local

  /** The parameters and locals of the running function. */
  datatype Env = Env(vars: map<string, Value>, frozen: set<string>)

  /** The position of the first column with the given name. */
  function Column(fields: seq<string>, field: string): Option<nat> {
    if fields == [] then None
    else if fields[0] == field then Some(0)
    else
      var k :- Column(fields[1..], field);
      Some(k + 1)
  }

  /** `p->field`: only rows of the array can be read. */
  function ReadField(p: Program, v: Value, field: string): Option<Value> {
    if v.RowAt? && v.table in p.arrays && v.index < |p.arrays[v.table].rows| then
      var a := p.arrays[v.table];
      var k :- Column(a.fields, field);
      if k < |a.rows[v.index]| then
        Some(if a.rows[v.index][k].NullAddress? then NullPointer else StringAt(a.rows[v.index][k].id))
      else None
    else None
  }

  /** Strings compare by contents, pointers to strings by what they point to. */
  function Same(a: Value, b: Value): Option<bool> {
    if a.Text? && b.Text? then Some(a.s == b.s)
    else if (a.NullPointer? || a.StringAt?) && (b.NullPointer? || b.StringAt?) then Some(a == b)
    else None
  }

  function Store(env: Env, target: Expr, v: Value): Option<Env> {
    if target.Var? && target.id in env.vars && target.id !in env.frozen &&
       (env.vars[target.id].Text? <==> v.Text?) && (v.Text? || v.RowAt?)
    then Some(env.(vars := env.vars[target.id := v]))
    else None
  }

  /** The value of an expression and its effect; None when the behaviour is undefined. */
  function Eval(p: Program, env: Env, e: Expr): Option<(Value, Env)>
    decreases e
  {
    match e
    case Var(id) =>
      if id in env.vars then
        if env.vars[id].Unset? then None else Some((env.vars[id], env))
      else if id in p.arrays then Some((RowAt(id, 0), env))
      else if id in p.strings then Some((Text(p.strings[id]), env))
      else None
    case Null => Some((NullPointer, env))
    case Bool(b) => Some((Truth(b), env))
    case Arrow(e1, field) =>
      var (v, env1) :- Eval(p, env, e1);
      var w :- ReadField(p, v, field);
      Some((w, env1))
    case Deref(e1) =>
      var (v, env1) :- Eval(p, env, e1);
      if v.StringAt? && v.id in p.strings then Some((Text(p.strings[v.id]), env1)) else None
    case PostIncrement(e1) =>
      var (v, env1) :- Eval(p, env, e1);
      if v.RowAt? && v.table in p.arrays && v.index < |p.arrays[v.table].rows| then
        var env2 :- Store(env1, e1, RowAt(v.table, v.index + 1));
        Some((v, env2))
      else None
    case Equal(l, r) =>
      var (v, env1) :- Eval(p, env, l);
      var (w, env2) :- Eval(p, env1, r);
      var same :- Same(v, w);
      Some((Truth(same), env2))
    case NotEqual(l, r) =>
      var (v, env1) :- Eval(p, env, l);
      var (w, env2) :- Eval(p, env1, r);
      var same :- Same(v, w);
      Some((Truth(!same), env2))
    case Assign(target, source) =>
      var (v, env1) :- Eval(p, env, source);
      var env2 :- Store(env1, target, v);
      Some((v, env2))
  }

  datatype Outcome =
    | Next(env: Env)
    | Returned(value: Value, env: Env)
    | Undefined
    | TimedOut        // a loop was still running when the fuel ran out

  /** Runs statements; each loop may go round at most `fuel` times. */
  function Exec(p: Program, env: Env, ss: seq<Stmt>, fuel: nat): Outcome
    decreases fuel, ss, 0
  {
    if ss == [] then Next(env)
    else
      var o := ExecOne(p, env, ss[0], fuel);
      if o.Next? then Exec(p, o.env, ss[1..], fuel) else o
  }

  function ExecOne(p: Program, env: Env, s: Stmt, fuel: nat): Outcome
    decreases fuel, s, 0
  {
    match s
    case Do(e) =>
      (match Eval(p, env, e)
       case None => Undefined
       case Some((_, env')) => Next(env'))
    case Return(e) =>
      (match Eval(p, env, e)
       case None => Undefined
       case Some((v, env')) => Returned(v, env'))
    case If(cond, body) =>
      (match Eval(p, env, cond)
       case None => Undefined
       case Some((v, env')) =>
         if !v.Truth? then Undefined
         else if v.b then Exec(p, env', body, fuel) else Next(env'))
    case For(init, cond, step, body) =>
      (match Eval(p, env, init)
       case None => Undefined
       case Some((_, env')) => Loop(p, env', cond, step, body, fuel))
  }

  function Loop(p: Program, env: Env, cond: Expr, step: Expr, body: seq<Stmt>, fuel: nat): Outcome
    decreases fuel, body, 1
  {
    match Eval(p, env, cond)
    case None => Undefined
    case Some((v, env1)) =>
      if !v.Truth? then Undefined
      else if !v.b then Next(env1)
      else if fuel == 0 then TimedOut
      else
        var o := Exec(p, env1, body, fuel);
        if !o.Next? then o
        else match Eval(p, o.env, step)
          case None => Undefined
          case Some((_, env2)) => Loop(p, env2, cond, step, body, fuel - 1)
  }

  // ----- calls

  function BindParams(ps: seq<Param>, args: seq<string>): map<string, Value>
    requires |ps| == |args|
  {
    if ps == [] then map[] else BindParams(ps[1..], args[1..])[ps[0].id := Text(args[0])]
  }

  function BindLocals(vars: map<string, Value>, ls: seq<Local>): map<string, Value>
    decreases |ls|
  {
    if ls == [] then vars else BindLocals(vars[ls[0].id := Unset], ls[1..])
  }

  function Frozen(ps: seq<Param>): set<string> {
    set i | 0 <= i < |ps| && ps[i].isConst :: ps[i].id
  }

  /** How a call ends: with a result and the final value of each argument passed by reference. */
  datatype Call =
    | Done(result: Value, args: seq<Option<Value>>)
    | NoSuchFunction
    | UndefinedBehaviour
    | StillRunning

  function Invoke(p: Program, f: string, args: seq<string>, fuel: nat): Call {
    if f !in p.functions || |p.functions[f].params| != |args| then NoSuchFunction
    else
      var Function(params, locals, body) := p.functions[f];
      var env := Env(BindLocals(BindParams(params, args), locals), Frozen(params));
      match Exec(p, env, body, fuel)
      case Returned(v, env') =>
        Done(v, seq(|params|, i requires 0 <= i < |params| =>
          if params[i].id in env'.vars then Some(env'.vars[params[i].id]) else None))
      case TimedOut => StillRunning
      case _ => UndefinedBehaviour
  }
}
