/** An evaluator for AutoLISP: one cell a symbol, so a bound function name calls what it is bound to,
    and dynamic scope. It evaluates every form, refused ones too; fuel bounds its recursion.

    A form the walk finds nothing in needs no more fuel than its own height, calls only names of the
    read tier, and binds none. */
module LispEval {

  import opened Wrappers
  import opened LispReader
  import opened LispWalk

  datatype Value =
    | Nil
    | Atom(text: string)
    | Datum(node: Node)                          // quoted
    | Cells(items: seq<Value>)
    | Subr(name: string)
    | Closure(params: Node, body: seq<Node>)

  type Env = map<string, Value>

  /** AutoCAD: which names have a function of their own, what a builtin answers (None: an error), which
      calls a higher-order one makes of its function, and a value's elements. The last argument is the
      number of calls before, for the drawing changes. */
  datatype Machine = Machine(
    builtin: string -> bool,
    answer: (string, seq<Value>, nat) -> Option<Value>,
    rounds: (string, seq<Value>, nat) -> nat,
    round: (string, seq<Value>, seq<Value>, nat) -> seq<Value>,
    elements: Value -> seq<Value>)

  datatype Outcome =
    | Done(value: Value, env: Env, calls: seq<string>)
    | Failed(env: Env, calls: seq<string>)
    | OutOfFuel

  datatype Listed =
    | Values(values: seq<Value>, env: Env, calls: seq<string>)
    | Broke(env: Env, calls: seq<string>)
    | Exhausted

  function Look(m: Machine, env: Env, name: string): Value {
    if name in env then env[name] else if m.builtin(name) then Subr(name) else Nil
  }

  /** The function a value is. */
  function Resolve(m: Machine, value: Value, env: Env): Option<Value> {
    match value
    case Datum(node) =>
      if node.Symbol? then
        var bound := Look(m, env, node.text);
        if bound.Subr? || bound.Closure? then Some(bound) else None
      else if LambdaForm(node) && |node.items| >= 2 then Some(Closure(node.items[1], node.items[2..]))
      else None
    case Subr(_) => Some(value)
    case Closure(_, _) => Some(value)
    case _ => None
  }

  // ── parameters ──

  /** The names before the `/`, or after it. */
  function Names(params: seq<Node>, k: nat, after: bool, slashed: bool): seq<string>
    decreases |params| - k
  {
    if k >= |params| then []
    else if params[k].Symbol? && params[k].text == "/" then Names(params, k + 1, after, true)
    else (if params[k].Symbol? && after == slashed then [params[k].text] else []) + Names(params, k + 1, after, slashed)
  }

  function Formals(params: Node): seq<string> {
    if params.List? then Names(params.items, 0, false, false) else []
  }

  function Locals(params: Node): seq<string> {
    if params.List? then Names(params.items, 0, true, false) else []
  }

  function Bound(env: Env, names: seq<string>, values: seq<Value>): Env
    requires |values| == |names|
    decreases |names|
  {
    if names == [] then env else Bound(env[names[0] := values[0]], names[1..], values[1..])
  }

  function Cleared(env: Env, names: seq<string>): Env {
    Bound(env, names, seq(|names|, _ => Nil))
  }

  /** The names as they were before a call. */
  function Restored(env: Env, was: Env, names: seq<string>): Env {
    map name | name in env.Keys + was.Keys && (if name in names then name in was else name in env) ::
      if name in names then was[name] else env[name]
  }

  function Leaving(outcome: Outcome, was: Env, names: seq<string>): Outcome {
    match outcome
    case Done(value, env, calls) => Done(value, Restored(env, was, names), calls)
    case Failed(env, calls) => Failed(Restored(env, was, names), calls)
    case OutOfFuel => OutOfFuel
  }

  // ── evaluation ──

  function Eval(m: Machine, node: Node, env: Env, calls: seq<string>, fuel: nat): Outcome
    decreases fuel, 1, 0
  {
    if fuel == 0 then OutOfFuel
    else
      match node
      case Number(_, _, digits) => Done(Atom(digits), env, calls)
      case Str(_, _, raw) => Done(Atom(raw), env, calls)
      case Symbol(_, _, name, _) => Done(Look(m, env, name), env, calls)
      case List(_, _, items, tail) =>
        if tail.Some? then Failed(env, calls)
        else if items == [] then Done(Nil, env, calls)
        else if items[0].Symbol? && items[0].text !in env then Builtin(m, items[0].text, items, env, calls + [items[0].text], fuel)
        else Computed(m, items, env, calls, fuel)
  }

  /** A call of a value: a lambda, or a name bound to one. */
  function Computed(m: Machine, items: seq<Node>, env: Env, calls: seq<string>, fuel: nat): Outcome
    requires fuel > 0 && items != []
    decreases fuel, 0, 0
  {
    match Eval(m, items[0], env, calls, fuel - 1)
    case Done(f, env1, calls1) =>
      (match EvalAll(m, items, 1, env1, calls1, fuel - 1)
       case Values(values, env2, calls2) => Apply(m, f, values, env2, calls2, fuel - 1)
       case Broke(env2, calls2) => Failed(env2, calls2)
       case Exhausted => OutOfFuel)
    case other => other
  }

  /** A call by a name no one bound. */
  function Builtin(m: Machine, name: string, items: seq<Node>, env: Env, calls: seq<string>, fuel: nat): Outcome
    requires fuel > 0 && items != []
    decreases fuel, 0, 0
  {
    if name == "quote" then if |items| == 2 then Done(Datum(items[1]), env, calls) else Failed(env, calls)
    else if name == "function" then if |items| == 2 then Done(Datum(items[1]), env, calls) else Failed(env, calls)
    else if name == "lambda" then if |items| >= 2 then Done(Closure(items[1], items[2..]), env, calls) else Failed(env, calls)
    else if name == "setq" then Pairs(m, items, 1, Nil, env, calls, fuel - 1)
    else if name == "if" then
      if |items| < 3 then Failed(env, calls)
      else
        (match Eval(m, items[1], env, calls, fuel - 1)
         case Done(test, env1, calls1) =>
           if test != Nil then Eval(m, items[2], env1, calls1, fuel - 1) else Body(m, items, 3, Nil, env1, calls1, fuel - 1)
         case other => other)
    else if name == "progn" then Body(m, items, 1, Nil, env, calls, fuel - 1)
    else if name == "and" then Until(m, items, 1, true, Atom("t"), env, calls, fuel - 1)
    else if name == "or" then Until(m, items, 1, false, Nil, env, calls, fuel - 1)
    else if name == "cond" then Clauses(m, items, 1, env, calls, fuel - 1)
    else if name == "foreach" then
      if |items| < 3 || !items[1].Symbol? then Failed(env, calls)
      else
        (match Eval(m, items[2], env, calls, fuel - 1)
         case Done(over, env1, calls1) =>
           Leaving(Each(m, items, m.elements(over), Nil, env1, calls1, fuel - 1), env1, [items[1].text])
         case other => other)
    else if name == "while" then
      (match Body(m, items[..if |items| > 1 then 2 else 1], 1, Nil, env, calls, fuel - 1)
       case Done(test, env1, calls1) =>
         if test == Nil then Done(Nil, env1, calls1)
         else
           (match Body(m, items, 2, Nil, env1, calls1, fuel - 1)
            case Done(_, env2, calls2) => Eval(m, List(0, 0, items, None), env2, calls2, fuel - 1)
            case other => other)
       case other => other)
    else if name == "repeat" then
      (match Body(m, items[..if |items| > 1 then 2 else 1], 1, Nil, env, calls, fuel - 1)
       case Done(count, env1, calls1) => Times(m, items, |m.elements(count)|, Nil, env1, calls1, fuel - 1)
       case other => other)
    else if name == "defun" then
      if |items| < 3 || !items[1].Symbol? then Failed(env, calls)
      else Done(Datum(items[1]), env[items[1].text := Closure(items[2], items[3..])], calls)
    else if name == "eval" then
      if |items| != 2 then Failed(env, calls)
      else
        (match Eval(m, items[1], env, calls, fuel - 1)
         case Done(Datum(node), env1, calls1) => Eval(m, node, env1, calls1, fuel - 1)
         case other => other)
    else
      (match EvalAll(m, items, 1, env, calls, fuel - 1)
       case Values(values, env1, calls1) => ApplyNamed(m, name, values, env1, calls1, fuel - 1)
       case Broke(env1, calls1) => Failed(env1, calls1)
       case Exhausted => OutOfFuel)
  }

  function EvalAll(m: Machine, items: seq<Node>, k: nat, env: Env, calls: seq<string>, fuel: nat): Listed
    decreases fuel, 2, |items| - k
  {
    if k >= |items| then Values([], env, calls)
    else
      match Eval(m, items[k], env, calls, fuel)
      case Done(value, env1, calls1) =>
        (match EvalAll(m, items, k + 1, env1, calls1, fuel)
         case Values(values, env2, calls2) => Values([value] + values, env2, calls2)
         case other => other)
      case Failed(env1, calls1) => Broke(env1, calls1)
      case OutOfFuel => Exhausted
  }

  /** The forms from `k`, for the last one's value. */
  function Body(m: Machine, items: seq<Node>, k: nat, last: Value, env: Env, calls: seq<string>, fuel: nat): Outcome
    decreases fuel, 2, |items| - k
  {
    if k >= |items| then Done(last, env, calls)
    else
      match Eval(m, items[k], env, calls, fuel)
      case Done(value, env1, calls1) => Body(m, items, k + 1, value, env1, calls1, fuel)
      case other => other
  }

  /** `and`, or with `all` false `or`: the forms from `k` until one settles it. */
  function Until(m: Machine, items: seq<Node>, k: nat, all: bool, last: Value, env: Env, calls: seq<string>, fuel: nat): Outcome
    decreases fuel, 2, |items| - k
  {
    if k >= |items| then Done(last, env, calls)
    else
      match Eval(m, items[k], env, calls, fuel)
      case Done(value, env1, calls1) =>
        if (value != Nil) == all then Until(m, items, k + 1, all, value, env1, calls1, fuel) else Done(value, env1, calls1)
      case other => other
  }

  function Pairs(m: Machine, items: seq<Node>, k: nat, last: Value, env: Env, calls: seq<string>, fuel: nat): Outcome
    decreases fuel, 2, |items| - k
  {
    if k >= |items| then Done(last, env, calls)
    else if k + 1 == |items| || !items[k].Symbol? then Failed(env, calls)
    else
      match Eval(m, items[k + 1], env, calls, fuel)
      case Done(value, env1, calls1) => Pairs(m, items, k + 2, value, env1[items[k].text := value], calls1, fuel)
      case other => other
  }

  function Clauses(m: Machine, items: seq<Node>, k: nat, env: Env, calls: seq<string>, fuel: nat): Outcome
    decreases fuel, 3, |items| - k
  {
    if k >= |items| then Done(Nil, env, calls)
    else if !items[k].List? || items[k].items == [] then Failed(env, calls)
    else
      match Eval(m, items[k].items[0], env, calls, fuel)
      case Done(test, env1, calls1) =>
        if test != Nil then Body(m, items[k].items, 1, test, env1, calls1, fuel)
        else Clauses(m, items, k + 1, env1, calls1, fuel)
      case other => other
  }

  /** `foreach`: the body once an element. */
  function Each(m: Machine, items: seq<Node>, over: seq<Value>, last: Value, env: Env, calls: seq<string>, fuel: nat): Outcome
    requires |items| >= 3 && items[1].Symbol?
    decreases fuel, 3, |over|
  {
    if over == [] then Done(last, env, calls)
    else
      match Body(m, items, 3, Nil, env[items[1].text := over[0]], calls, fuel)
      case Done(value, env1, calls1) => Each(m, items, over[1..], value, env1, calls1, fuel)
      case other => other
  }

  function Times(m: Machine, items: seq<Node>, count: nat, last: Value, env: Env, calls: seq<string>, fuel: nat): Outcome
    decreases fuel, 3, count
  {
    if count == 0 then Done(last, env, calls)
    else
      match Body(m, items, 2, Nil, env, calls, fuel)
      case Done(value, env1, calls1) => Times(m, items, count - 1, value, env1, calls1, fuel)
      case other => other
  }

  /** A function value called. */
  function Apply(m: Machine, f: Value, args: seq<Value>, env: Env, calls: seq<string>, fuel: nat): Outcome
    decreases fuel, 1, 0
  {
    if fuel == 0 then OutOfFuel
    else
      match Resolve(m, f, env)
      case Some(Subr(name)) =>
        if SpecialForm(name) then Failed(env, calls) else ApplyNamed(m, name, args, env, calls + [name], fuel - 1)
      case Some(Closure(params, body)) =>
        if |args| != |Formals(params)| then Failed(env, calls)
        else
          Leaving(Body(m, body, 0, Nil, Cleared(Bound(env, Formals(params), args), Locals(params)), calls, fuel - 1),
                  env, Formals(params) + Locals(params))
      case _ => Failed(env, calls)
  }

  function ApplyNamed(m: Machine, name: string, args: seq<Value>, env: Env, calls: seq<string>, fuel: nat): Outcome
    decreases fuel, 5, 0
  {
    if HigherOrder(name) then
      if |args| <= FunctionIndex(name) then Failed(env, calls)
      else Rounds(m, name, args, [], m.rounds(name, args, |calls|), env, calls, fuel)
    else
      match m.answer(name, args, |calls|)
      case Some(value) => Done(value, env, calls)
      case None => Failed(env, calls)
  }

  /** The calls a higher-order builtin makes of its function; one that catches errors fails no more. */
  function Rounds(
    m: Machine, name: string, args: seq<Value>, results: seq<Value>, left: nat, env: Env, calls: seq<string>, fuel: nat): Outcome
    requires |args| > FunctionIndex(name)
    decreases fuel, 4, left
  {
    if left == 0 then
      match m.answer(name, args + results, |calls|)
      case Some(value) => Done(value, env, calls)
      case None => Failed(env, calls)
    else
      match Apply(m, args[FunctionIndex(name)], m.round(name, args, results, |calls|), env, calls, fuel)
      case Done(value, env1, calls1) => Rounds(m, name, args, results + [value], left - 1, env1, calls1, fuel)
      case Failed(env1, calls1) => if name == "vl-catch-all-apply" then Done(Atom("error"), env1, calls1) else Failed(env1, calls1)
      case OutOfFuel => OutOfFuel
  }
}
