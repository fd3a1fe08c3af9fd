/** Read-tier soundness and termination (the claim of security_lisp.py:27-30). */
module LispSafety {

  import opened Wrappers
  import opened LispReader
  import opened LispWalk
  import opened LispEval

  function Max(a: nat, b: nat): nat {
    if a < b then b else a
  }

  function Height(node: Node): (h: nat)
    ensures h >= 1
    decreases node
  {
    match node
    case List(_, _, items, _) => 1 + Tallest(items, 0)
    case _ => 1
  }

  /** The greatest height from `k` on. */
  function Tallest(items: seq<Node>, k: nat): nat
    decreases items, |items| - k
  {
    if k >= |items| then 0 else Max(Height(items[k]), Tallest(items, k + 1))
  }

  /** No name of the read tier is bound. */
  ghost predicate Pristine(env: Env) {
    forall name | name in env :: SymbolTier(name) != Read
  }

  ghost predicate AllRead(calls: seq<string>) {
    forall i | 0 <= i < |calls| :: SymbolTier(calls[i]) == Read
  }

  ghost predicate Kept(env: Env, calls: seq<string>) {
    Pristine(env) && AllRead(calls)
  }

  /** It ended, and everything called was of the read tier, and nothing of it rebound. */
  ghost predicate Safe(outcome: Outcome) {
    match outcome
    case Done(_, env, calls) => Kept(env, calls)
    case Failed(env, calls) => Kept(env, calls)
    case OutOfFuel => false
  }

  ghost predicate SafeList(listed: Listed) {
    match listed
    case Values(_, env, calls) => Kept(env, calls)
    case Broke(env, calls) => Kept(env, calls)
    case Exhausted => false
  }

  predicate Clear(marks: Marks) {
    marks.findings == []
  }

  lemma BothClear(a: Marks, b: Marks)
    ensures Clear(Both(a, b)) <==> Clear(a) && Clear(b)
  {
  }

  lemma {:induction false} TallestAt(items: seq<Node>, k: nat, i: nat)
    requires k <= i < |items|
    ensures Height(items[i]) <= Tallest(items, k)
    decreases i - k
  {
    if k < i {
      TallestAt(items, k + 1, i);
    }
  }

  lemma {:induction false} TallestFrom(items: seq<Node>, k: nat, i: nat)
    requires k <= i
    ensures Tallest(items, i) <= Tallest(items, k)
    decreases i - k
  {
    if k < i {
      TallestFrom(items, k + 1, i);
    }
  }

  lemma {:induction false} TallestSlice(items: seq<Node>, j: nat, k: nat)
    requires j <= |items|
    ensures Tallest(items[j..], k) == Tallest(items, j + k)
    decreases |items| - k
  {
    if j + k < |items| {
      TallestSlice(items, j, k + 1);
    }
  }

  lemma {:induction false} AllClearSlice(items: seq<Node>, j: nat, k: nat, depth: nat, restricted: string -> bool)
    requires j <= |items|
    ensures MarkAll(items[j..], k, depth, restricted) == MarkAll(items, j + k, depth, restricted)
    decreases |items| - k
  {
    if j + k < |items| {
      AllClearSlice(items, j, k + 1, depth, restricted);
    }
  }

  lemma CalledKept(calls: seq<string>, name: string)
    requires AllRead(calls) && SymbolTier(name) == Read
    ensures AllRead(calls + [name])
  {
    hide SymbolTier;
  }

  // ── binding ──

  ghost predicate NoneRead(names: seq<string>) {
    forall i | 0 <= i < |names| :: SymbolTier(names[i]) != Read
  }

  lemma TargetBinds(node: Node, restricted: string -> bool)
    requires Clear(MarkTarget(node, restricted))
    ensures node.Symbol? && SymbolTier(node.text) != Read
  {
    hide SymbolTier;
  }

  lemma {:induction false} NamesBind(params: seq<Node>, k: nat, after: bool, slashed: bool, restricted: string -> bool)
    requires Clear(MarkParams(params, k, restricted))
    ensures NoneRead(Names(params, k, after, slashed))
    decreases |params| - k
  {
    hide SymbolTier, MarkTarget;
    if k < |params| {
      if params[k].Symbol? && params[k].text == "/" {
        NamesBind(params, k + 1, after, true, restricted);
      } else {
        BothClear(MarkTarget(params[k], restricted), MarkParams(params, k + 1, restricted));
        TargetBinds(params[k], restricted);
        NamesBind(params, k + 1, after, slashed, restricted);
      }
    }
  }

  lemma {:induction false} BoundPristine(env: Env, names: seq<string>, values: seq<Value>)
    requires |values| == |names| && Pristine(env) && NoneRead(names)
    ensures Pristine(Bound(env, names, values))
    decreases |names|
  {
    hide SymbolTier;
    if names != [] {
      forall i | 0 <= i < |names[1..]| ensures SymbolTier(names[1..][i]) != Read {
        assert names[1..][i] == names[i + 1];
      }
      BoundPristine(env[names[0] := values[0]], names[1..], values[1..]);
    }
  }

  lemma RestoredPristine(env: Env, was: Env, names: seq<string>)
    requires Pristine(env) && Pristine(was)
    ensures Pristine(Restored(env, was, names))
  {
    hide SymbolTier;
  }

  lemma LeavingSafe(outcome: Outcome, was: Env, names: seq<string>)
    requires Safe(outcome) && Pristine(was)
    ensures Safe(Leaving(outcome, was, names))
  {
    hide SymbolTier, Pristine, Restored;
    match outcome
    case Done(_, env, _) => RestoredPristine(env, was, names);
    case Failed(env, _) => RestoredPristine(env, was, names);
  }

  // ── functions written where they are called ──

  /** A function the walk approved: one plain builtin, or a lambda whose body it walked. */
  ghost predicate Approvable(f: Value, restricted: string -> bool, fuel: nat) {
    match f
    case Subr(name) => SymbolTier(name) == Read && !SpecialForm(name) && !HigherOrder(name) && fuel >= 1
    case Closure(params, body) =>
      && NoneRead(Formals(params)) && NoneRead(Locals(params))
      && fuel >= 1 + Tallest(body, 0)
      && exists depth: nat :: Clear(MarkAll(body, 0, depth, restricted))
    case _ => false
  }

  lemma LambdaApproved(items: seq<Node>, node: Node, depth: nat, restricted: string -> bool, fuel: nat)
    requires node.List? && node.items == items && items != [] && Clear(MarkLambda(node, depth, restricted)) && fuel >= Height(node)
    ensures |items| >= 2 && Approvable(Closure(items[1], items[2..]), restricted, fuel)
  {
    hide SymbolTier, MarkAll, Tallest, MarkParams, Names;
    var params := items[1];
    var bound := if params.Symbol? && params.text == "nil" then LispWalk.Approved(params)
                 else if params.List? && params.tail.None? then MarkParams(params.items, 0, restricted)
                 else Found(params, Never);
    BothClear(LispWalk.Approved(items[0]), bound);
    BothClear(Both(LispWalk.Approved(items[0]), bound), MarkAll(items, 2, depth + 1, restricted));
    if params.List? {
      NamesBind(params.items, 0, false, false, restricted);
      NamesBind(params.items, 0, true, false, restricted);
    }
    AllClearSlice(items, 2, 0, depth + 1, restricted);
    TallestSlice(items, 2, 0);
    TallestFrom(items, 0, 2);
  }

  /** What a literal function argument evaluates to, in any environment that binds no read name. */
  lemma LiteralResolves(
    m: Machine, node: Node, owner: Node, depth: nat, restricted: string -> bool, env: Env, calls: seq<string>, fuel: nat)
    requires Clear(MarkFunctionArgument(node, owner, depth, restricted)) && fuel >= Height(node) && Kept(env, calls)
    ensures var outcome := Eval(m, node, env, calls, fuel);
      && Safe(outcome)
      && (outcome.Done? ==> FunctionOf(m, outcome.value, restricted, fuel))
  {
    hide SymbolTier, MarkAll, Tallest, MarkLambda, MarkFunction;
    if QuoteForm(node) || FunctionForm(node) {
      QuotedResolves(m, node, depth, restricted, env, calls, fuel);
    } else {
      assert LambdaForm(node);
      LambdaApproved(node.items, node, depth + 1, restricted, fuel);
      ReadNames();
      CalledKept(calls, "lambda");
    }
  }

  lemma ReadNames()
    ensures forall name | SpecialForm(name) || HigherOrder(name) :: SymbolTier(name) == Read
  {
    hide ReadFunction, Cxr;
  }

  /** In every environment that binds no read name the value is a function the walk approved. */
  ghost predicate FunctionOf(m: Machine, value: Value, restricted: string -> bool, fuel: nat) {
    forall env | Pristine(env) ::
      Resolve(m, value, env).Some? ==> Approvable(Resolve(m, value, env).value, restricted, fuel)
  }

  lemma QuotedResolves(m: Machine, node: Node, depth: nat, restricted: string -> bool, env: Env, calls: seq<string>, fuel: nat)
    requires QuoteForm(node) || FunctionForm(node)
    requires Clear(MarkFunction(node.items[1], depth + 1, restricted)) && fuel >= Height(node) && Kept(env, calls)
    ensures var outcome := Eval(m, node, env, calls, fuel);
      && Safe(outcome)
      && (outcome.Done? ==> FunctionOf(m, outcome.value, restricted, fuel))
  {
    hide SymbolTier, MarkAll, Tallest, MarkLambda;
    var f := node.items[1];
    ReadNames();
    CalledKept(calls, node.items[0].text);
    TallestAt(node.items, 0, 1);
    if LambdaForm(f) {
      LambdaApproved(f.items, f, depth + 1, restricted, fuel);
    }
    assert Eval(m, node, env, calls, fuel) == Done(Datum(f), env, calls + [node.items[0].text]);
  }

  // ── evaluation ──

  lemma {:induction false} EvalSafe(
    m: Machine, node: Node, depth: nat, restricted: string -> bool, env: Env, calls: seq<string>, fuel: nat)
    requires Clear(MarkCode(node, depth, restricted)) && Kept(env, calls) && fuel >= Height(node)
    ensures Safe(Eval(m, node, env, calls, fuel))
    decreases fuel, 1, 0
  {
    hide SymbolTier, MarkAll, Tallest, MarkLambda, MarkSpecial, MarkArguments, Builtin, Computed, ReadFunction;
    if node.List? && node.items != [] {
      if node.items[0].Symbol? {
        CallSafe(m, node, depth, restricted, env, calls, fuel);
      } else {
        BothClear(MarkLambda(node.items[0], depth + 1, restricted), MarkAll(node.items, 1, depth + 1, restricted));
        ComputedSafe(m, node, depth, restricted, env, calls, fuel);
      }
    }
  }

  /** A lambda written as the head of its call. */
  lemma {:induction false} ComputedSafe(
    m: Machine, node: Node, depth: nat, restricted: string -> bool, env: Env, calls: seq<string>, fuel: nat)
    requires node.List? && node.items != [] && LambdaForm(node.items[0]) && Kept(env, calls) && fuel >= Height(node)
    requires Clear(MarkLambda(node.items[0], depth + 1, restricted)) && Clear(MarkAll(node.items, 1, depth + 1, restricted))
    ensures Safe(Computed(m, node.items, env, calls, fuel))
    decreases fuel, 0, 0
  {
    hide SymbolTier, MarkAll, Tallest, MarkLambda, EvalAll, Apply, Approvable;
    var head, items := node.items[0], node.items;
    var calls1 := calls + ["lambda"];
    TallestAt(items, 0, 0);
    TallestFrom(items, 0, 1);
    LambdaApproved(head.items, head, depth + 1, restricted, fuel - 1);
    LambdaEvaluates(m, head, depth + 1, restricted, env, calls, fuel - 1);
    EvalAllSafe(m, items, 1, depth + 1, restricted, env, calls1, fuel - 1);
    var f := Closure(head.items[1], head.items[2..]);
    match EvalAll(m, items, 1, env, calls1, fuel - 1)
    case Values(values, env2, calls2) => ApplySafe(m, f, restricted, values, env2, calls2, fuel - 1);
    case _ =>
  }

  lemma LambdaEvaluates(
    m: Machine, node: Node, depth: nat, restricted: string -> bool, env: Env, calls: seq<string>, fuel: nat)
    requires LambdaForm(node) && Clear(MarkLambda(node, depth, restricted)) && Kept(env, calls) && fuel >= 1
    ensures |node.items| >= 2 && Kept(env, calls + ["lambda"])
    ensures Eval(m, node, env, calls, fuel) == Done(Closure(node.items[1], node.items[2..]), env, calls + ["lambda"])
  {
    hide SymbolTier, MarkAll, MarkParams;
    ReadNames();
    CalledKept(calls, "lambda");
  }

  /** A call by name: the name is of the read tier, so no one bound it. */
  lemma {:induction false} CallSafe(
    m: Machine, node: Node, depth: nat, restricted: string -> bool, env: Env, calls: seq<string>, fuel: nat)
    requires node.List? && node.items != [] && node.items[0].Symbol? && Kept(env, calls) && fuel >= Height(node)
    requires Clear(MarkCode(node, depth, restricted))
    ensures Safe(Eval(m, node, env, calls, fuel))
    decreases fuel, 0, 2
  {
    hide SymbolTier, MarkAll, Tallest, MarkSpecial, MarkArguments, Builtin, ReadFunction;
    var name, items := node.items[0].text, node.items;
    var calls1 := calls + [name];
    BothClear(Found(node.items[0], SymbolTier(name)), MarkAll(items, 1, depth + 1, restricted));
    assert SymbolTier(name) == Read;
    CalledKept(calls, name);
    BothClear(LispWalk.Approved(node.items[0]), MarkAll(items, 1, depth + 1, restricted));
    BothClear(LispWalk.Approved(node.items[0]), MarkArguments(items, 1, FunctionIndex(name) + 1, depth + 1, restricted));
    if SpecialForm(name) {
      SpecialSafe(m, name, node, depth, restricted, env, calls1, fuel);
    } else if HigherOrder(name) {
      HigherOrderSafe(m, name, node, depth, restricted, env, calls1, fuel);
    } else {
      NoLoopIsRead();
      PlainSafe(m, name, node, depth, restricted, env, calls1, fuel);
    }
  }

  lemma {:induction false} PlainSafe(
    m: Machine, name: string, node: Node, depth: nat, restricted: string -> bool, env: Env, calls: seq<string>, fuel: nat)
    requires node.List? && node.items != [] && Kept(env, calls) && fuel >= Height(node)
    requires !SpecialForm(name) && !HigherOrder(name) && name !in {"while", "repeat", "defun"}
    requires Clear(MarkAll(node.items, 1, depth + 1, restricted))
    ensures Safe(Builtin(m, name, node.items, env, calls, fuel))
    decreases fuel, 0, 1
  {
    hide SymbolTier, MarkAll, Tallest, Kept, Body, Until, EvalAll, Eval;
    var items := node.items;
    TallestFrom(items, 0, 1);
    if name == "if" {
      IfSafe(m, items, depth, restricted, env, calls, fuel);
    } else if name == "progn" {
      BodySafe(m, items, 1, Nil, depth + 1, restricted, env, calls, fuel - 1);
    } else if name == "and" {
      UntilSafe(m, items, 1, true, Atom("t"), depth + 1, restricted, env, calls, fuel - 1);
    } else if name == "or" {
      UntilSafe(m, items, 1, false, Nil, depth + 1, restricted, env, calls, fuel - 1);
    } else {
      EvalAllSafe(m, items, 1, depth + 1, restricted, env, calls, fuel - 1);
    }
  }

  lemma {:induction false} IfSafe(
    m: Machine, items: seq<Node>, depth: nat, restricted: string -> bool, env: Env, calls: seq<string>, fuel: nat)
    requires items != [] && Kept(env, calls) && fuel >= 1 + Tallest(items, 1)
    requires Clear(MarkAll(items, 1, depth + 1, restricted))
    ensures Safe(Builtin(m, "if", items, env, calls, fuel))
    decreases fuel, 0, 0
  {
    hide SymbolTier, MarkCode, Kept, Body, Eval, Height;
    if |items| >= 3 {
      BothClear(MarkCode(items[1], depth + 1, restricted), MarkAll(items, 2, depth + 1, restricted));
      BothClear(MarkCode(items[2], depth + 1, restricted), MarkAll(items, 3, depth + 1, restricted));
      EvalSafe(m, items[1], depth + 1, restricted, env, calls, fuel - 1);
      match Eval(m, items[1], env, calls, fuel - 1)
      case Done(test, env1, calls1) =>
        EvalSafe(m, items[2], depth + 1, restricted, env1, calls1, fuel - 1);
        BodySafe(m, items, 3, Nil, depth + 1, restricted, env1, calls1, fuel - 1);
      case _ =>
    }
  }

  lemma {:induction false} SpecialSafe(
    m: Machine, name: string, node: Node, depth: nat, restricted: string -> bool, env: Env, calls: seq<string>, fuel: nat)
    requires SpecialForm(name) && node.List? && node.items != [] && Kept(env, calls) && fuel >= Height(node)
    requires Clear(MarkSpecial(name, node, depth, restricted))
    ensures Safe(Builtin(m, name, node.items, env, calls, fuel))
    decreases fuel, 0, 1
  {
    hide SymbolTier, MarkAll, MarkPairs, MarkClauses, MarkLambda, MarkSsget, Tallest, Kept, Clauses, Pairs, EvalAll, Each, Eval;
    var head, items := node.items[0], node.items;
    if name == "setq" {
      BothClear(LispWalk.Approved(head), MarkPairs(items, 1, depth + 1, restricted));
      TallestFrom(items, 0, 1);
      PairsSafe(m, items, 1, Nil, depth + 1, restricted, env, calls, fuel - 1);
    } else if name == "cond" {
      BothClear(LispWalk.Approved(head), MarkClauses(items, 1, depth + 1, restricted));
      TallestFrom(items, 0, 1);
      ClausesSafe(m, items, 1, depth + 1, restricted, env, calls, fuel - 1);
    } else if name == "foreach" {
      ForeachSafe(m, node, depth, restricted, env, calls, fuel);
    } else if name == "eval" {
      QuotedEvalSafe(m, node, depth, restricted, env, calls, fuel);
    } else if name == "ssget" {
      SsgetClear(node, depth, restricted);
      SsgetSafe(m, items, depth + 1, restricted, env, calls, fuel);
    }
  }

  lemma SsgetClear(node: Node, depth: nat, restricted: string -> bool)
    requires node.List? && node.items != [] && Clear(MarkSsget(node, depth, restricted))
    ensures |node.items| >= 2 && node.items[1].Str? && Clear(MarkAll(node.items, 2, depth + 1, restricted))
  {
    hide SymbolTier, SsgetMode, MarkAll;
  }

  lemma {:induction false} SsgetSafe(
    m: Machine, items: seq<Node>, depth: nat, restricted: string -> bool, env: Env, calls: seq<string>, fuel: nat)
    requires |items| >= 2 && items[1].Str? && Kept(env, calls) && fuel >= 1 + Tallest(items, 0)
    requires Clear(MarkAll(items, 2, depth, restricted))
    ensures Safe(Builtin(m, "ssget", items, env, calls, fuel))
    decreases fuel, 0, 0
  {
    hide SymbolTier, MarkAll, Kept, Tallest;
    TallestFrom(items, 0, 2);
    TallestAt(items, 0, 1);
    EvalAllSafe(m, items, 2, depth, restricted, env, calls, fuel - 1);
    assert Eval(m, items[1], env, calls, fuel - 1) == Done(Atom(items[1].text), env, calls);
    assert !HigherOrder("ssget");
  }

  lemma {:induction false} ForeachSafe(
    m: Machine, node: Node, depth: nat, restricted: string -> bool, env: Env, calls: seq<string>, fuel: nat)
    requires node.List? && node.items != [] && Kept(env, calls) && fuel >= Height(node)
    requires Clear(MarkSpecial("foreach", node, depth, restricted))
    ensures Safe(Builtin(m, "foreach", node.items, env, calls, fuel))
    decreases fuel, 0, 0
  {
    hide SymbolTier, MarkAll, MarkTarget, Tallest, Pristine, Each, Eval, Restored;
    var head, items := node.items[0], node.items;
    BothClear(LispWalk.Approved(head), MarkTarget(items[1], restricted));
    BothClear(Both(LispWalk.Approved(head), MarkTarget(items[1], restricted)), MarkAll(items, 2, depth + 1, restricted));
    AllClearAt(items, 2, depth + 1, restricted);
    TargetBinds(items[1], restricted);
    TallestAt(items, 0, 2);
    TallestFrom(items, 0, 3);
    EvalSafe(m, items[2], depth + 1, restricted, env, calls, fuel - 1);
    match Eval(m, items[2], env, calls, fuel - 1)
    case Done(over, env1, calls1) =>
      EachSafe(m, items, m.elements(over), Nil, depth + 1, restricted, env1, calls1, fuel - 1);
      LeavingSafe(Each(m, items, m.elements(over), Nil, env1, calls1, fuel - 1), env1, [items[1].text]);
    case _ =>
  }

  /** The first of a stretch walked clear, and the rest. */
  lemma AllClearAt(items: seq<Node>, k: nat, depth: nat, restricted: string -> bool)
    requires k < |items| && Clear(MarkAll(items, k, depth, restricted))
    ensures Clear(MarkCode(items[k], depth, restricted)) && Clear(MarkAll(items, k + 1, depth, restricted))
  {
    hide MarkCode;
    BothClear(MarkCode(items[k], depth, restricted), MarkAll(items, k + 1, depth, restricted));
  }

  lemma TallestStep(items: seq<Node>, k: nat)
    requires k < |items|
    ensures Height(items[k]) <= Tallest(items, k) && Tallest(items, k + 1) <= Tallest(items, k)
  {
    hide Height;
  }

  lemma {:induction false} QuotedEvalSafe(
    m: Machine, node: Node, depth: nat, restricted: string -> bool, env: Env, calls: seq<string>, fuel: nat)
    requires node.List? && node.items != [] && Kept(env, calls) && fuel >= Height(node)
    requires Clear(MarkSpecial("eval", node, depth, restricted))
    ensures Safe(Builtin(m, "eval", node.items, env, calls, fuel))
    decreases fuel, 0, 0
  {
    hide SymbolTier, MarkCode, Tallest;
    var quoted := node.items[1];
    BothClear(LispWalk.Approved(node.items[0]), MarkCode(quoted.items[1], depth + 1, restricted));
    TallestAt(node.items, 0, 1);
    TallestAt(quoted.items, 0, 1);
    ReadNames();
    CalledKept(calls, "quote");
    assert Eval(m, quoted, env, calls, fuel - 1) == Done(Datum(quoted.items[1]), env, calls + ["quote"]);
    EvalSafe(m, quoted.items[1], depth + 1, restricted, env, calls + ["quote"], fuel - 1);
  }

  lemma {:induction false} EvalAllSafe(
    m: Machine, items: seq<Node>, k: nat, depth: nat, restricted: string -> bool, env: Env, calls: seq<string>, fuel: nat)
    requires Clear(MarkAll(items, k, depth, restricted)) && Kept(env, calls) && fuel >= Tallest(items, k)
    ensures SafeList(EvalAll(m, items, k, env, calls, fuel))
    decreases fuel, 2, |items| - k
  {
    hide MarkAll, MarkCode, Height, Tallest, Eval, Kept;
    if k < |items| {
      AllClearAt(items, k, depth, restricted);
      TallestStep(items, k);
      EvalSafe(m, items[k], depth, restricted, env, calls, fuel);
      match Eval(m, items[k], env, calls, fuel)
      case Done(_, env1, calls1) => EvalAllSafe(m, items, k + 1, depth, restricted, env1, calls1, fuel);
      case _ =>
    }
  }

  lemma {:induction false} BodySafe(
    m: Machine, items: seq<Node>, k: nat, last: Value, depth: nat, restricted: string -> bool, env: Env, calls: seq<string>, fuel: nat)
    requires Clear(MarkAll(items, k, depth, restricted)) && Kept(env, calls) && fuel >= Tallest(items, k)
    ensures Safe(Body(m, items, k, last, env, calls, fuel))
    decreases fuel, 2, |items| - k
  {
    hide MarkAll, MarkCode, Height, Tallest, Eval, Kept;
    if k < |items| {
      AllClearAt(items, k, depth, restricted);
      TallestStep(items, k);
      EvalSafe(m, items[k], depth, restricted, env, calls, fuel);
      match Eval(m, items[k], env, calls, fuel)
      case Done(value, env1, calls1) => BodySafe(m, items, k + 1, value, depth, restricted, env1, calls1, fuel);
      case _ =>
    }
  }

  lemma {:induction false} UntilSafe(
    m: Machine, items: seq<Node>, k: nat, all: bool, last: Value, depth: nat, restricted: string -> bool, env: Env, calls: seq<string>, fuel: nat)
    requires Clear(MarkAll(items, k, depth, restricted)) && Kept(env, calls) && fuel >= Tallest(items, k)
    ensures Safe(Until(m, items, k, all, last, env, calls, fuel))
    decreases fuel, 2, |items| - k
  {
    hide MarkAll, MarkCode, Height, Tallest, Eval, Kept;
    if k < |items| {
      AllClearAt(items, k, depth, restricted);
      TallestStep(items, k);
      EvalSafe(m, items[k], depth, restricted, env, calls, fuel);
      match Eval(m, items[k], env, calls, fuel)
      case Done(value, env1, calls1) => UntilSafe(m, items, k + 1, all, value, depth, restricted, env1, calls1, fuel);
      case _ =>
    }
  }

  lemma BindingKept(env: Env, calls: seq<string>, name: string, value: Value)
    requires Kept(env, calls) && SymbolTier(name) != Read
    ensures Kept(env[name := value], calls)
  {
    hide SymbolTier;
  }

  lemma {:induction false} PairsSafe(
    m: Machine, items: seq<Node>, k: nat, last: Value, depth: nat, restricted: string -> bool, env: Env, calls: seq<string>, fuel: nat)
    requires Clear(MarkPairs(items, k, depth, restricted)) && Kept(env, calls) && fuel >= Tallest(items, k)
    ensures Safe(Pairs(m, items, k, last, env, calls, fuel))
    decreases fuel, 2, |items| - k
  {
    hide SymbolTier, MarkCode, MarkTarget, Height, Eval, Kept;
    if k + 1 < |items| {
      var target, code := MarkTarget(items[k], restricted), MarkCode(items[k + 1], depth, restricted);
      BothClear(target, code);
      BothClear(Both(target, code), MarkPairs(items, k + 2, depth, restricted));
      TargetBinds(items[k], restricted);
      EvalSafe(m, items[k + 1], depth, restricted, env, calls, fuel);
      match Eval(m, items[k + 1], env, calls, fuel)
      case Done(value, env1, calls1) =>
        BindingKept(env1, calls1, items[k].text, value);
        PairsSafe(m, items, k + 2, value, depth, restricted, env1[items[k].text := value], calls1, fuel);
      case _ =>
    }
  }

  lemma {:induction false} ClausesSafe(
    m: Machine, items: seq<Node>, k: nat, depth: nat, restricted: string -> bool, env: Env, calls: seq<string>, fuel: nat)
    requires Clear(MarkClauses(items, k, depth, restricted)) && Kept(env, calls) && fuel >= Tallest(items, k)
    ensures Safe(Clauses(m, items, k, env, calls, fuel))
    decreases fuel, 3, |items| - k
  {
    hide MarkAll, MarkCode, Tallest, Eval, Body, Kept;
    if k < |items| {
      var clause := items[k];
      var bad := !clause.List? || clause.tail.Some? || clause.items == [];
      BothClear(if bad then Found(clause, Never) else MarkAll(clause.items, 0, depth, restricted),
                MarkClauses(items, k + 1, depth, restricted));
      assert !bad;
      TallestStep(items, k);
      AllClearAt(clause.items, 0, depth, restricted);
      TallestStep(clause.items, 0);
      EvalSafe(m, clause.items[0], depth, restricted, env, calls, fuel);
      match Eval(m, clause.items[0], env, calls, fuel)
      case Done(test, env1, calls1) =>
        BodySafe(m, clause.items, 1, test, depth, restricted, env1, calls1, fuel);
        ClausesSafe(m, items, k + 1, depth, restricted, env1, calls1, fuel);
      case _ =>
    }
  }

  lemma {:induction false} EachSafe(
    m: Machine, items: seq<Node>, over: seq<Value>, last: Value, depth: nat, restricted: string -> bool, env: Env, calls: seq<string>, fuel: nat)
    requires |items| >= 3 && items[1].Symbol? && SymbolTier(items[1].text) != Read
    requires Clear(MarkAll(items, 3, depth, restricted)) && Kept(env, calls) && fuel >= Tallest(items, 3)
    ensures Safe(Each(m, items, over, last, env, calls, fuel))
    decreases fuel, 3, |over|
  {
    hide SymbolTier, MarkAll, Tallest, Body, Kept;
    if over != [] {
      var env0 := env[items[1].text := over[0]];
      BindingKept(env, calls, items[1].text, over[0]);
      BodySafe(m, items, 3, Nil, depth, restricted, env0, calls, fuel);
      match Body(m, items, 3, Nil, env0, calls, fuel)
      case Done(value, env1, calls1) => EachSafe(m, items, over[1..], value, depth, restricted, env1, calls1, fuel);
      case _ =>
    }
  }

  // ── calls of function values ──

  lemma {:induction false} ApplySafe(
    m: Machine, f: Value, restricted: string -> bool, args: seq<Value>, env: Env, calls: seq<string>, fuel: nat)
    requires FunctionOf(m, f, restricted, fuel) && Kept(env, calls) && fuel >= 1
    ensures Safe(Apply(m, f, args, env, calls, fuel))
    decreases fuel, 1, 0
  {
    hide SymbolTier, Resolve, Body, MarkAll, Tallest, Names, Bound, Restored;
    match Resolve(m, f, env)
    case Some(Subr(name)) => CalledKept(calls, name);
    case Some(Closure(params, body)) =>
      if |args| == |Formals(params)| {
        EnteredSafe(m, params, body, restricted, args, env, calls, fuel);
      }
    case _ =>
  }

  lemma {:induction false} EnteredSafe(
    m: Machine, params: Node, body: seq<Node>, restricted: string -> bool, args: seq<Value>, env: Env, calls: seq<string>, fuel: nat)
    requires Approvable(Closure(params, body), restricted, fuel) && Kept(env, calls) && |args| == |Formals(params)|
    ensures fuel >= 1
    ensures Safe(Leaving(Body(m, body, 0, Nil, Cleared(Bound(env, Formals(params), args), Locals(params)), calls, fuel - 1),
                         env, Formals(params) + Locals(params)))
    decreases fuel, 0, 0
  {
    hide SymbolTier, Body, MarkAll, Tallest, Names, Bound, Restored, Pristine;
    var entered := Bound(env, Formals(params), args);
    BoundPristine(env, Formals(params), args);
    BoundPristine(entered, Locals(params), seq(|Locals(params)|, _ => Nil));
    var depth: nat :| Clear(MarkAll(body, 0, depth, restricted));
    BodySafe(m, body, 0, Nil, depth, restricted, Cleared(entered, Locals(params)), calls, fuel - 1);
    LeavingSafe(Body(m, body, 0, Nil, Cleared(entered, Locals(params)), calls, fuel - 1), env, Formals(params) + Locals(params));
  }

  lemma {:induction false} RoundsSafe(
    m: Machine, name: string, args: seq<Value>, results: seq<Value>, left: nat, restricted: string -> bool,
    env: Env, calls: seq<string>, fuel: nat)
    requires |args| > FunctionIndex(name) && FunctionOf(m, args[FunctionIndex(name)], restricted, fuel) && fuel >= 1
    requires Kept(env, calls)
    ensures Safe(Rounds(m, name, args, results, left, env, calls, fuel))
    decreases fuel, 4, left
  {
    hide SymbolTier, Apply, Kept, FunctionOf;
    if left > 0 {
      var given := m.round(name, args, results, |calls|);
      ApplySafe(m, args[FunctionIndex(name)], restricted, given, env, calls, fuel);
      match Apply(m, args[FunctionIndex(name)], given, env, calls, fuel)
      case Done(value, env1, calls1) =>
        RoundsSafe(m, name, args, results + [value], left - 1, restricted, env1, calls1, fuel);
      case _ =>
    }
  }

  /** The arguments of a higher-order call; the one at `index` evaluates to an approved function. */
  lemma {:induction false} ArgumentsSafe(
    m: Machine, items: seq<Node>, k: nat, index: nat, depth: nat, restricted: string -> bool, env: Env, calls: seq<string>, fuel: nat)
    requires items != [] && Clear(MarkArguments(items, k, index, depth, restricted)) && Kept(env, calls) && fuel >= Tallest(items, k)
    ensures var listed := EvalAll(m, items, k, env, calls, fuel);
      && SafeList(listed)
      && (listed.Values? && k <= |items| ==> |listed.values| == |items| - k)
      && (listed.Values? && k <= index < |items| ==> FunctionOf(m, listed.values[index - k], restricted, fuel))
    decreases fuel, 2, |items| - k
  {
    hide MarkCode, MarkFunctionArgument, Height, Tallest, Eval, Kept, FunctionOf;
    if k < |items| {
      BothClear(if k == index then MarkFunctionArgument(items[k], items[0], depth, restricted) else MarkCode(items[k], depth, restricted),
                MarkArguments(items, k + 1, index, depth, restricted));
      TallestStep(items, k);
      if k == index {
        LiteralResolves(m, items[k], items[0], depth, restricted, env, calls, fuel);
      } else {
        EvalSafe(m, items[k], depth, restricted, env, calls, fuel);
      }
      match Eval(m, items[k], env, calls, fuel)
      case Done(_, env1, calls1) => ArgumentsSafe(m, items, k + 1, index, depth, restricted, env1, calls1, fuel);
      case _ =>
    }
  }

  lemma {:induction false} HigherOrderSafe(
    m: Machine, name: string, node: Node, depth: nat, restricted: string -> bool, env: Env, calls: seq<string>, fuel: nat)
    requires HigherOrder(name) && !SpecialForm(name) && node.List? && |node.items| > FunctionIndex(name) + 1
    requires Kept(env, calls) && fuel >= Height(node)
    requires Clear(MarkArguments(node.items, 1, FunctionIndex(name) + 1, depth + 1, restricted))
    ensures Safe(Builtin(m, name, node.items, env, calls, fuel))
    decreases fuel, 0, 0
  {
    hide SymbolTier, MarkArguments, Tallest, Kept, FunctionOf, EvalAll, Rounds;
    var items := node.items;
    TallestFrom(items, 0, 1);
    TallestAt(items, 0, 1);
    ArgumentsSafe(m, items, 1, FunctionIndex(name) + 1, depth + 1, restricted, env, calls, fuel - 1);
    match EvalAll(m, items, 1, env, calls, fuel - 1)
    case Values(values, env1, calls1) =>
      RoundsSafe(m, name, values, [], m.rounds(name, values, |calls1|), restricted, env1, calls1, fuel - 1);
    case _ =>
  }

  /** A form the walk finds nothing in, evaluated where nothing rebound a read-tier name: it ends with
      no more fuel than its height - so by structural recursion alone - every function it called is of
      the read tier, and still nothing is rebound. */
  lemma ReadTierIsSafe(m: Machine, node: Node, restricted: string -> bool, env: Env, fuel: nat)
    requires Clear(MarkCode(node, 0, restricted)) && Pristine(env) && fuel >= Height(node)
    ensures Safe(Eval(m, node, env, [], fuel))
  {
    EvalSafe(m, node, 0, restricted, env, [], fuel);
  }

  function Forever(): seq<Node> {
    [Symbol(0, 5, "while", false), Number(6, 7, "1")]
  }

  lemma LoopTurns(m: Machine, env: Env, calls: seq<string>, fuel: nat)
    requires fuel > 0
    ensures Builtin(m, "while", Forever(), env, calls, fuel) ==
      if fuel == 1 then OutOfFuel else Eval(m, List(0, 0, Forever(), None), env, calls, fuel - 1)
  {
    var items := Forever();
    assert items[..2] == items;
    assert Body(m, items, 2, Nil, env, calls, fuel - 1) == Done(Nil, env, calls);
    assert Body(m, items, 2, Atom("1"), env, calls, fuel - 1) == Done(Atom("1"), env, calls);
    if fuel == 1 {
      assert Eval(m, items[1], env, calls, 0) == OutOfFuel;
    } else {
      assert Eval(m, items[1], env, calls, fuel - 1) == Done(Atom("1"), env, calls);
    }
  }

  /** The walk's refusal of loops is no formality: `(while 1)` never ends. */
  lemma {:induction false} LoopsRunForever(m: Machine, env: Env, calls: seq<string>, fuel: nat)
    requires "while" !in env
    ensures Eval(m, List(0, 0, Forever(), None), env, calls, fuel) == OutOfFuel
    decreases fuel
  {
    if fuel > 0 {
      LoopTurns(m, env, calls + ["while"], fuel);
      LoopsRunForever(m, env, calls + ["while"], fuel - 1);
      hide Builtin;
    }
  }
}
