/** The places of a form, and what each needs to run: the walk of security_lisp.py without its recursion.

    A place is a node and the role it plays where it stands. The parts of a place do not depend on any tier,
    so the arguments of a refused call are places like any other. */
module LispPlaces {

  import opened Wrappers
  import opened LispReader
  import opened LispLiterals
  import opened LispWalk
  import opened LispSafety

  /** Evaluated; the lambda a call has for its head; quoted; a function by name or written out; the function
      argument of a call by `owner`; bound; a parameter list; a clause of `cond`; what `eval` takes apart; and
      what only the form around it reads. */
  datatype Role = Code | Head | Data | Function | Argument(owner: Node) | Target | Params | Clause | Quoted | Literal

  datatype Place = Place(role: Role, node: Node, depth: nat)

  // ── parts ──

  /** The role of a symbol-headed call's argument. */
  function ArgumentRole(items: seq<Node>, k: nat): Role
    requires 1 <= k < |items| && items[0].Symbol?
  {
    var name := items[0].text;
    if name == "quote" then Data
    else if name == "function" then Function
    else if name == "lambda" then if k == 1 then Params else Code
    else if name == "setq" then if k % 2 == 1 then Target else Code
    else if name == "foreach" then if k == 1 then Target else Code
    else if name == "cond" then Clause
    else if name == "eval" then if QuoteForm(items[k]) then Quoted else Code
    else if name == "ssget" then if k == 1 && items[k].Str? then Literal else Code
    else if HigherOrder(name) && k == FunctionIndex(name) + 1 then Argument(items[0])
    else Code
  }

  function RoleAt(p: Place, k: nat): Role
    requires p.node.List? && k < |p.node.items|
  {
    var items := p.node.items;
    match p.role
    case Data => Data
    case Clause => Code
    case Params => if items[k].Symbol? && items[k].text == "/" then Literal else Target
    case Quoted => if k == 0 then Literal else Code
    case Target => Literal
    case Literal => Literal
    case other =>
      if !items[0].Symbol? then if k == 0 && LambdaForm(items[0]) then Head else Code
      else if k == 0 then Literal
      else if other.Argument? && QuoteForm(p.node) then Function
      else ArgumentRole(items, k)
  }

  /** How deep the parts of a place are. */
  function DepthAt(p: Place): nat {
    match p.role
    case Params => p.depth
    case Clause => p.depth
    case Quoted => p.depth
    case Argument(_) => if LambdaForm(p.node) then p.depth + 2 else p.depth + 1
    case _ => p.depth + 1
  }

  function Part(p: Place, k: nat): Place
    requires p.node.List? && k < |p.node.items|
  {
    Place(RoleAt(p, k), p.node.items[k], DepthAt(p))
  }

  /** What follows the dot, in quoted data. */
  function AfterDot(p: Place): Option<Place> {
    if p.role.Data? && p.node.List? && p.node.tail.Some? then Some(Place(Data, p.node.tail.value, p.depth + 1)) else None
  }

  /** `q` is `p`, or a part of a part of it, and so on. */
  ghost predicate Within(p: Place, q: Place)
    decreases p.node
  {
    || q == p
    || (p.node.List? && exists k :: 0 <= k < |p.node.items| && Within(Part(p, k), q))
    || (AfterDot(p).Some? && Within(AfterDot(p).value, q))
  }

  // ── what a place needs ──

  /** The name a place uses: a symbol evaluated, quoted, bound or passed as a function, and the head of a call. */
  function Named(p: Place): Option<string> {
    match p.role
    case Code =>
      if p.node.Symbol? then Some(p.node.text)
      else if p.node.List? && p.node.tail.None? && p.node.items != [] && p.node.items[0].Symbol? then Some(p.node.items[0].text)
      else None
    case Data => if p.node.Symbol? && !p.node.synthetic then Some(p.node.text) else None
    case Function => if p.node.Symbol? && !p.node.synthetic then Some(p.node.text) else None
    case Target => if p.node.Symbol? && !p.node.synthetic then Some(p.node.text) else None
    case _ => None
  }

  function ValueNeed(name: string, restricted: string -> bool): Tier {
    if SymbolTier(name) == Unclassified && !restricted(name) then Read else SymbolTier(name)
  }

  function TargetNeed(name: string, restricted: string -> bool): Tier {
    if SymbolTier(name) == Never then Never
    else if SymbolTier(name) != Unclassified || Constant(name) || name == "*error*" || "*push-error" <= name then Write
    else if restricted(name) then Unclassified
    else Read
  }

  function LambdaNeed(node: Node): Tier
    requires node.List?
  {
    if node.tail.None? && |node.items| >= 2 then Read else Never
  }

  function SsgetNeed(items: seq<Node>): Tier {
    if |items| < 2 || !items[1].Str? then Never
    else
      var mode := SsgetMode(items[1].text);
      if ':' in mode then Never
      else if mode in {"X", "W", "C", "CP"} then Read
      else if mode in {"WP", "F", "L", "P", "I", "A"} then Unclassified
      else Never
  }

  function CallNeed(items: seq<Node>): Tier
    requires items != [] && items[0].Symbol?
  {
    var name := items[0].text;
    if SymbolTier(name) != Read then SymbolTier(name)
    else if name == "ssget" then SsgetNeed(items)
    else if (if name == "quote" || name == "function" then |items| != 2
             else if name == "lambda" then |items| < 2
             else if name == "setq" then |items| < 2 || |items| % 2 == 0
             else if name == "foreach" then |items| < 3
             else if name == "eval" then |items| != 2 || !QuoteForm(items[1])
             else HigherOrder(name) && |items| <= FunctionIndex(name) + 1) then Never
    else Read
  }

  /** The tier a place needs for itself: Never for what no tier runs. */
  function Need(p: Place, restricted: string -> bool): Tier {
    var node := p.node;
    match p.role
    case Code =>
      if p.depth > MAX_DEPTH then Never
      else if node.Symbol? then ValueNeed(node.text, restricted)
      else if !node.List? then Read
      else if node.tail.Some? then Never
      else if node.items == [] then Read
      else if node.items[0].Symbol? then CallNeed(node.items)
      else if LambdaForm(node.items[0]) then Read
      else Never
    case Head => if node.List? then LambdaNeed(node) else Never
    case Data =>
      if p.depth > MAX_DEPTH then Never
      else if node.Symbol? && !node.synthetic then ValueNeed(node.text, restricted)
      else Read
    case Function =>
      if node.Symbol? && !node.synthetic then
        if SpecialForm(node.text) || HigherOrder(node.text) then Never else SymbolTier(node.text)
      else if LambdaForm(node) then LambdaNeed(node)
      else Never
    case Argument(_) =>
      if QuoteForm(node) || FunctionForm(node) then Read
      else if LambdaForm(node) then LambdaNeed(node)
      else Never
    case Target => if node.Symbol? && !node.synthetic then TargetNeed(node.text, restricted) else Never
    case Params => if (node.Symbol? && node.text == "nil") || (node.List? && node.tail.None?) then Read else Never
    case Clause => if node.List? && node.tail.None? && node.items != [] then Read else Never
    case Quoted => Read
    case Literal => Read
  }

  // ── the walk, place by place ──

  /** What a place has approved when it needs the read tier. */
  function Key(p: Place): Marks {
    var node := p.node;
    match p.role
    case Quoted => NONE
    case Literal => NONE
    case Clause => NONE
    case Params => Approved(node)
    case Data => Approved(node)
    case _ => if node.List? && node.items != [] then Approved(node.items[0]) else Approved(node)
  }

  /** The node a refusal of a place points at. */
  function Blamed(p: Place): Node {
    match p.role
    case Code =>
      if p.depth <= MAX_DEPTH && p.node.List? && p.node.tail.None? && p.node.items != [] && !Headed(p.node, "lambda")
      then p.node.items[0] else p.node
    case Argument(owner) => if LambdaForm(p.node) then p.node else owner
    case _ => p.node
  }

  function Own(p: Place, restricted: string -> bool): Marks {
    var tier := Need(p, restricted);
    if tier == Read then Key(p) else Found(Blamed(p), tier)
  }

  /** Whether a refused call's arguments are walked: a call of a name of another tier, and `ssget`. */
  predicate WalkedOn(p: Place) {
    && p.role.Code? && p.depth <= MAX_DEPTH && p.node.List? && p.node.tail.None? && p.node.items != []
    && p.node.items[0].Symbol? && (SymbolTier(p.node.items[0].text) != Read || p.node.items[0].text == "ssget")
  }

  predicate Halts(p: Place, restricted: string -> bool) {
    p.role.Literal? || p.role.Target? || (Need(p, restricted) == Never && !WalkedOn(p))
  }

  /** A place and its parts in order. */
  function Walked(p: Place, restricted: string -> bool): Marks
    decreases p.node, 1
  {
    Both(Own(p, restricted),
         if Halts(p, restricted) then NONE
         else Both(if p.node.List? then WalkedFrom(p, 0, restricted) else NONE,
                   if AfterDot(p).Some? then Walked(AfterDot(p).value, restricted) else NONE))
  }

  function WalkedFrom(p: Place, k: nat, restricted: string -> bool): Marks
    requires p.node.List?
    decreases p.node, 0, |p.node.items| - k
  {
    if k >= |p.node.items| then NONE
    else Both(Walked(Part(p, k), restricted), WalkedFrom(p, k + 1, restricted))
  }

  lemma LiteralWalked(p: Place, restricted: string -> bool)
    requires p.role.Literal?
    ensures Walked(p, restricted) == NONE
  {
    BothTwice(NONE, NONE, NONE);
  }

  lemma LeafWalked(p: Place, restricted: string -> bool)
    requires !p.node.List? || Halts(p, restricted)
    ensures Walked(p, restricted) == Own(p, restricted)
  {
    hide Own, Halts, SymbolTier;
    BothTwice(Own(p, restricted), NONE, NONE);
  }

  lemma {:induction false} DataWalked(node: Node, depth: nat, restricted: string -> bool)
    ensures MarkData(node, depth, restricted) == Walked(Place(Data, node, depth), restricted)
    decreases node, 1
  {
    hide SymbolTier, MarkAllData;
    var p := Place(Data, node, depth);
    if !node.List? || depth > MAX_DEPTH {
      LeafWalked(p, restricted);
    } else {
      AllDataWalked(p, 0, restricted);
      BothTwice(NONE, NONE, NONE);
      BothTwice(MarkAllData(node.items, 0, depth + 1, restricted), NONE, NONE);
      BothTwice(Both(MarkAllData(node.items, 0, depth + 1, restricted),
                     if node.tail.Some? then MarkData(node.tail.value, depth + 1, restricted) else NONE), NONE, NONE);
      if node.tail.Some? {
        DataWalked(node.tail.value, depth + 1, restricted);
      }
    }
  }

  lemma {:induction false} AllDataWalked(p: Place, k: nat, restricted: string -> bool)
    requires p.role.Data? && p.node.List?
    ensures MarkAllData(p.node.items, k, p.depth + 1, restricted) == WalkedFrom(p, k, restricted)
    decreases p.node, 0, |p.node.items| - k
  {
    hide Walked, MarkData;
    if k < |p.node.items| {
      DataWalked(p.node.items[k], p.depth + 1, restricted);
      AllDataWalked(p, k + 1, restricted);
    }
  }

  lemma {:induction false} ParamsWalked(p: Place, k: nat, restricted: string -> bool)
    requires p.role.Params? && p.node.List?
    ensures MarkParams(p.node.items, k, restricted) == WalkedFrom(p, k, restricted)
    decreases |p.node.items| - k
  {
    hide SymbolTier;
    if k < |p.node.items| {
      var part := Part(p, k);
      BothTwice(WalkedFrom(p, k + 1, restricted), NONE, NONE);
      ParamsWalked(p, k + 1, restricted);
      LeafWalked(Place(Target, part.node, p.depth), restricted);
      LiteralWalked(Place(Literal, part.node, p.depth), restricted);
    }
  }

  /** A lambda, wherever it stands, at the depth its body is one below. */
  lemma {:induction false} LambdaWalked(p: Place, depth: nat, restricted: string -> bool)
    requires LambdaForm(p.node) && DepthAt(p) == depth + 1
    requires p.role.Head? || p.role.Function? || p.role.Argument? || (p.role.Code? && p.depth <= MAX_DEPTH && p.node.tail.None?)
    ensures MarkLambda(p.node, depth, restricted) == Walked(p, restricted)
    decreases p.node, 4
  {
    hide SymbolTier, MarkAll, MarkParams, Walked, WalkedFrom;
    var node, items := p.node, p.node.items;
    assert SymbolTier("lambda") == Read by { ReadNames(); }
    if node.tail.Some? || |items| < 2 {
      assert Halts(p, restricted);
      LeafWalked(p, restricted);
    } else {
      var params := Part(p, 1);
      var bound := if items[1].Symbol? && items[1].text == "nil" then Approved(items[1])
                   else if items[1].List? && items[1].tail.None? then MarkParams(items[1].items, 0, restricted)
                   else Found(items[1], Never);
      assert params == Place(Params, items[1], depth + 1);
      assert Walked(params, restricted) == bound by {
        if items[1].List? && items[1].tail.None? {
          ParamsWalked(params, 0, restricted);
          WholeWalked(params, restricted);
          BothTwice(bound, NONE, NONE);
        } else {
          LeafWalked(params, restricted);
        }
      }
      CodesWalked(p, 2, restricted);
      WholeWalked(p, restricted);
      FromSecond(p, restricted);
      var body := MarkAll(items, 2, depth + 1, restricted);
      assert WalkedFrom(p, 1, restricted) == Both(bound, body) by { OneFrom(p, 1, restricted); }
      BothTwice(Approved(items[0]), bound, body);
    }
  }

  lemma WholeWalked(p: Place, restricted: string -> bool)
    requires p.node.List? && !Halts(p, restricted) && AfterDot(p).None?
    ensures Walked(p, restricted) == Both(Own(p, restricted), WalkedFrom(p, 0, restricted))
  {
    hide Own, Halts, WalkedFrom;
    BothTwice(WalkedFrom(p, 0, restricted), NONE, NONE);
  }

  lemma OneFrom(p: Place, k: nat, restricted: string -> bool)
    requires p.node.List? && k < |p.node.items|
    ensures WalkedFrom(p, k, restricted) == Both(Walked(Part(p, k), restricted), WalkedFrom(p, k + 1, restricted))
  {
    hide Walked;
  }

  lemma PastLast(p: Place, k: nat, restricted: string -> bool)
    requires p.node.List? && k >= |p.node.items|
    ensures WalkedFrom(p, k, restricted) == NONE
  {
  }

  lemma TargetWalked(p: Place, restricted: string -> bool)
    requires p.role.Target?
    ensures Walked(p, restricted) == MarkTarget(p.node, restricted)
  {
    hide SymbolTier, Walked;
    LeafWalked(p, restricted);
  }

  /** The head of a call by name is no place of its own. */
  lemma FromSecond(p: Place, restricted: string -> bool)
    requires p.node.List? && p.node.items != [] && RoleAt(p, 0).Literal?
    ensures WalkedFrom(p, 0, restricted) == WalkedFrom(p, 1, restricted)
  {
    OneFrom(p, 0, restricted);
    LiteralWalked(Part(p, 0), restricted);
    BothTwice(WalkedFrom(p, 1, restricted), NONE, NONE);
  }

  /** From `k` on, a call's arguments are code. */
  lemma {:induction false} CodesWalked(p: Place, k: nat, restricted: string -> bool)
    requires p.node.List? && forall i | k <= i < |p.node.items| :: RoleAt(p, i).Code?
    ensures MarkAll(p.node.items, k, DepthAt(p), restricted) == WalkedFrom(p, k, restricted)
    decreases p.node, 0, |p.node.items| - k
  {
    hide Walked, MarkCode, RoleAt, DepthAt;
    if k < |p.node.items| {
      CodeWalked(p.node.items[k], DepthAt(p), restricted);
      CodesWalked(p, k + 1, restricted);
    }
  }

  lemma {:induction false} FunctionWalked(node: Node, depth: nat, restricted: string -> bool)
    ensures MarkFunction(node, depth, restricted) == Walked(Place(Function, node, depth), restricted)
    decreases node, 5
  {
    hide SymbolTier, MarkLambda, Walked;
    var p := Place(Function, node, depth);
    ReadNames();
    if LambdaForm(node) {
      LambdaWalked(p, depth, restricted);
    } else {
      LeafWalked(p, restricted);
    }
  }

  lemma {:induction false} ArgumentWalked(node: Node, owner: Node, depth: nat, restricted: string -> bool)
    ensures MarkFunctionArgument(node, owner, depth, restricted) == Walked(Place(Argument(owner), node, depth), restricted)
    decreases node, 6
  {
    hide SymbolTier, MarkLambda, MarkFunction, Walked, WalkedFrom;
    var p := Place(Argument(owner), node, depth);
    if QuoteForm(node) || FunctionForm(node) {
      FunctionWalked(node.items[1], depth + 1, restricted);
      WholeWalked(p, restricted);
      FromSecond(p, restricted);
      OneFrom(p, 1, restricted);
      PastLast(p, 2, restricted);
      BothTwice(Walked(Part(p, 1), restricted), NONE, NONE);
    } else if LambdaForm(node) {
      LambdaWalked(p, depth + 1, restricted);
    } else {
      LeafWalked(p, restricted);
    }
  }

  lemma {:induction false} ArgumentsWalked(p: Place, k: nat, restricted: string -> bool)
    requires p.role.Code? && p.node.List? && p.node.items != [] && p.node.items[0].Symbol? && HigherOrder(p.node.items[0].text) && k >= 1
    ensures MarkArguments(p.node.items, k, FunctionIndex(p.node.items[0].text) + 1, p.depth + 1, restricted) == WalkedFrom(p, k, restricted)
    decreases p.node, 0, |p.node.items| - k
  {
    hide Walked, MarkCode, MarkFunctionArgument;
    if k < |p.node.items| {
      CodeWalked(p.node.items[k], p.depth + 1, restricted);
      ArgumentWalked(p.node.items[k], p.node.items[0], p.depth + 1, restricted);
      ArgumentsWalked(p, k + 1, restricted);
    }
  }

  lemma {:induction false} PairsWalked(p: Place, k: nat, restricted: string -> bool)
    requires p.role.Code? && Headed(p.node, "setq") && k % 2 == 1 && |p.node.items| % 2 == 1
    ensures MarkPairs(p.node.items, k, p.depth + 1, restricted) == WalkedFrom(p, k, restricted)
    decreases p.node, 0, |p.node.items| - k
  {
    hide Walked, MarkCode, SymbolTier;
    var items := p.node.items;
    if k + 1 < |items| {
      TargetWalked(Part(p, k), restricted);
      CodeWalked(items[k + 1], p.depth + 1, restricted);
      PairsWalked(p, k + 2, restricted);
      OneFrom(p, k, restricted);
      OneFrom(p, k + 1, restricted);
      BothTwice(MarkTarget(items[k], restricted), MarkCode(items[k + 1], p.depth + 1, restricted), WalkedFrom(p, k + 2, restricted));
    }
  }

  lemma {:induction false} ClausesWalked(p: Place, k: nat, restricted: string -> bool)
    requires p.role.Code? && Headed(p.node, "cond") && k >= 1
    ensures MarkClauses(p.node.items, k, p.depth + 1, restricted) == WalkedFrom(p, k, restricted)
    decreases p.node, 0, |p.node.items| - k
  {
    hide Walked, MarkAll;
    var items := p.node.items;
    if k < |items| {
      var clause := Part(p, k);
      if Need(clause, restricted) == Never {
        LeafWalked(clause, restricted);
      } else {
        CodesWalked(clause, 0, restricted);
        WholeWalked(clause, restricted);
        BothTwice(WalkedFrom(clause, 0, restricted), NONE, NONE);
      }
      ClausesWalked(p, k + 1, restricted);
    }
  }

  lemma {:induction false} SsgetWalked(p: Place, restricted: string -> bool)
    requires p.role.Code? && p.depth <= MAX_DEPTH && Headed(p.node, "ssget") && p.node.tail.None?
    ensures MarkSsget(p.node, p.depth, restricted) == Walked(p, restricted)
    decreases p.node, 4
  {
    hide SymbolTier, MarkAll, Walked, WalkedFrom, SsgetMode;
    var items := p.node.items;
    assert SymbolTier("ssget") == Read by { ReadNames(); }
    WholeWalked(p, restricted);
    FromSecond(p, restricted);
    if |items| < 2 || !items[1].Str? {
      CodesWalked(p, 1, restricted);
    } else {
      CodesWalked(p, 2, restricted);
      OneFrom(p, 1, restricted);
      LiteralWalked(Part(p, 1), restricted);
      BothTwice(WalkedFrom(p, 2, restricted), NONE, NONE);
    }
  }

  lemma {:induction false} SpecialWalked(p: Place, restricted: string -> bool)
    requires p.role.Code? && p.depth <= MAX_DEPTH && p.node.List? && p.node.tail.None? && p.node.items != []
    requires p.node.items[0].Symbol? && SpecialForm(p.node.items[0].text)
    ensures MarkSpecial(p.node.items[0].text, p.node, p.depth, restricted) == Walked(p, restricted)
    decreases p.node, 5, 0
  {
    hide SymbolTier, MarkAll, MarkLambda, MarkData, MarkFunction, MarkPairs, MarkClauses, MarkSsget, MarkCode, MarkTarget, Walked, WalkedFrom;
    var head, items := p.node.items[0], p.node.items;
    var name := head.text;
    ReadNames();
    if name == "lambda" {
      LambdaWalked(p, p.depth, restricted);
    } else if name == "ssget" {
      SsgetWalked(p, restricted);
    } else if Need(p, restricted) == Never {
      LeafWalked(p, restricted);
    } else {
      WholeWalked(p, restricted);
      FromSecond(p, restricted);
      if |items| >= 2 {
        OneFrom(p, 1, restricted);
        BothTwice(Walked(Part(p, 1), restricted), NONE, NONE);
      }
      if name == "quote" {
        DataWalked(items[1], p.depth + 1, restricted);
        PastLast(p, 2, restricted);
      } else if name == "function" {
        FunctionWalked(items[1], p.depth + 1, restricted);
        PastLast(p, 2, restricted);
      } else if name == "setq" {
        PairsWalked(p, 1, restricted);
      } else if name == "foreach" {
        TargetWalked(Part(p, 1), restricted);
        CodesWalked(p, 2, restricted);
        BothTwice(Approved(head), MarkTarget(items[1], restricted), WalkedFrom(p, 2, restricted));
      } else if name == "cond" {
        ClausesWalked(p, 1, restricted);
      } else {
        EvalWalked(p, restricted);
      }
    }
  }

  lemma {:induction false} EvalWalked(p: Place, restricted: string -> bool)
    requires p.role.Code? && Headed(p.node, "eval") && |p.node.items| == 2 && QuoteForm(p.node.items[1])
    ensures MarkCode(p.node.items[1].items[1], p.depth + 1, restricted) == WalkedFrom(p, 1, restricted)
    decreases p.node, 3
  {
    hide SymbolTier, MarkCode, Walked, WalkedFrom;
    var quoted := Part(p, 1);
    assert quoted.node < p.node && quoted.node.items[1] < quoted.node;
    CodeWalked(quoted.node.items[1], p.depth + 1, restricted);
    WholeWalked(quoted, restricted);
    FromSecond(quoted, restricted);
    OneFrom(quoted, 1, restricted);
    OneFrom(p, 1, restricted);
    PastLast(quoted, 2, restricted);
    PastLast(p, 2, restricted);
    BothTwice(Walked(Part(quoted, 1), restricted), NONE, NONE);
    BothTwice(Walked(quoted, restricted), NONE, NONE);
  }

  /** The walk of a form as code is the walk of its places, in order. */
  lemma {:induction false} CodeWalked(node: Node, depth: nat, restricted: string -> bool)
    ensures MarkCode(node, depth, restricted) == Walked(Place(Code, node, depth), restricted)
    decreases node, 6
  {
    hide SymbolTier, MarkAll, MarkLambda, MarkSpecial, MarkArguments, Walked, WalkedFrom;
    var p := Place(Code, node, depth);
    if !node.List? || depth > MAX_DEPTH || node.tail.Some? {
      LeafWalked(p, restricted);
    } else if node.items == [] {
      WholeWalked(p, restricted);
      PastLast(p, 0, restricted);
      BothTwice(NONE, NONE, NONE);
    } else if node.items[0].Symbol? {
      NamedWalked(p, restricted);
    } else if LambdaForm(node.items[0]) {
      LambdaWalked(Part(p, 0), depth + 1, restricted);
      CodesWalked(p, 1, restricted);
      OneFrom(p, 0, restricted);
      WholeWalked(p, restricted);
      BothTwice(Both(MarkLambda(node.items[0], depth + 1, restricted), MarkAll(node.items, 1, depth + 1, restricted)), NONE, NONE);
    } else {
      LeafWalked(p, restricted);
    }
  }

  lemma {:induction false} NamedWalked(p: Place, restricted: string -> bool)
    requires p.role.Code? && p.depth <= MAX_DEPTH && p.node.List? && p.node.tail.None? && p.node.items != [] && p.node.items[0].Symbol?
    ensures MarkCode(p.node, p.depth, restricted) == Walked(p, restricted)
    decreases p.node, 5, 1
  {
    hide SymbolTier, MarkAll, MarkLambda, MarkSpecial, MarkArguments, Walked, WalkedFrom, SsgetMode;
    var name := p.node.items[0].text;
    ReadNames();
    if SymbolTier(name) == Read && SpecialForm(name) {
      SpecialWalked(p, restricted);
    } else if SymbolTier(name) == Read && HigherOrder(name) {
      if Need(p, restricted) == Never {
        LeafWalked(p, restricted);
      } else {
        WholeWalked(p, restricted);
        FromSecond(p, restricted);
        ArgumentsWalked(p, 1, restricted);
      }
    } else {
      WholeWalked(p, restricted);
      FromSecond(p, restricted);
      CodesWalked(p, 1, restricted);
    }
  }

  // ── what the walk finds, over all places of a form ──

  /** No finding at all, or none that no tier runs. */
  predicate Free(marks: Marks, all: bool) {
    if all then marks.findings == [] else forall i | 0 <= i < |marks.findings| :: marks.findings[i].tier != Never
  }

  predicate Fits(p: Place, all: bool, restricted: string -> bool) {
    if all then Need(p, restricted) == Read else Need(p, restricted) != Never
  }

  ghost predicate AllFit(p: Place, all: bool, restricted: string -> bool) {
    forall q | Within(p, q) :: Fits(q, all, restricted)
  }

  lemma BothFree(a: Marks, b: Marks, all: bool)
    ensures Free(Both(a, b), all) <==> Free(a, all) && Free(b, all)
  {
    var both := Both(a, b).findings;
    assert forall i | 0 <= i < |a.findings| :: a.findings[i] == both[i];
    assert forall i | 0 <= i < |b.findings| :: b.findings[i] == both[|a.findings| + i];
  }

  lemma OwnFree(p: Place, all: bool, restricted: string -> bool)
    ensures Free(Own(p, restricted), all) <==> Fits(p, all, restricted)
  {
    hide Need, Blamed;
    if Need(p, restricted) != Read {
      assert Own(p, restricted).findings[0].tier == Need(p, restricted);
    }
  }

  lemma {:induction false} LiteralsFit(p: Place, q: Place)
    requires p.role.Literal? || p.role.Target?
    requires Within(p, q) && q != p
    ensures q.role.Literal?
    decreases p.node
  {
    hide Need;
    var k :| 0 <= k < |p.node.items| && Within(Part(p, k), q);
    if q != Part(p, k) {
      LiteralsFit(Part(p, k), q);
    }
  }

  /** The places of a form: itself, and those of its parts. */
  lemma AllFitParts(p: Place, all: bool, restricted: string -> bool)
    ensures AllFit(p, all, restricted) <==>
      && Fits(p, all, restricted)
      && (p.node.List? ==> forall k | 0 <= k < |p.node.items| :: AllFit(Part(p, k), all, restricted))
      && (AfterDot(p).Some? ==> AllFit(AfterDot(p).value, all, restricted))
  {
    hide Fits, Part, AfterDot;
    assert Within(p, p);
    if AllFit(p, all, restricted) {
      if p.node.List? {
        forall k, q | 0 <= k < |p.node.items| && Within(Part(p, k), q) ensures Fits(q, all, restricted) {
          assert Within(p, q);
        }
      }
    }
  }

  /** The walk finds nothing in a form, or nothing that no tier runs, if and only if no place of it is such. */
  lemma {:induction false} FreeIff(p: Place, all: bool, restricted: string -> bool)
    ensures Free(Walked(p, restricted), all) <==> AllFit(p, all, restricted)
    decreases p.node, 1
  {
    hide Need, Own, Fits, Free, RoleAt, DepthAt, WalkedOn;
    AllFitParts(p, all, restricted);
    OwnFree(p, all, restricted);
    FreeNone(all);
    if Halts(p, restricted) {
      BothTwice(Own(p, restricted), NONE, NONE);
      HaltedIff(p, all, restricted);
    } else {
      var parts := if p.node.List? then WalkedFrom(p, 0, restricted) else NONE;
      var dotted := if AfterDot(p).Some? then Walked(AfterDot(p).value, restricted) else NONE;
      BothFree(parts, dotted, all);
      BothFree(Own(p, restricted), Both(parts, dotted), all);
      if p.node.List? {
        FreeFrom(p, 0, all, restricted);
      }
      if AfterDot(p).Some? {
        FreeIff(AfterDot(p).value, all, restricted);
      }
    }
  }

  lemma FreeNone(all: bool)
    ensures Free(NONE, all)
  {
  }

  lemma HaltedIff(p: Place, all: bool, restricted: string -> bool)
    requires Halts(p, restricted)
    ensures Fits(p, all, restricted) <==> AllFit(p, all, restricted)
  {
    hide RoleAt, DepthAt, WalkedOn, Within;
    assert Within(p, p) by { Itself(p); }
    if p.role.Literal? || p.role.Target? {
      forall q | Within(p, q) && q != p ensures Fits(q, all, restricted) {
        LiteralsFit(p, q);
      }
    }
  }

  lemma Itself(p: Place)
    ensures Within(p, p)
  {
  }

  lemma {:induction false} FreeFrom(p: Place, k: nat, all: bool, restricted: string -> bool)
    requires p.node.List?
    ensures Free(WalkedFrom(p, k, restricted), all) <==> forall i | k <= i < |p.node.items| :: AllFit(Part(p, i), all, restricted)
    decreases p.node, 0, |p.node.items| - k
  {
    hide Walked, Free, AllFit, RoleAt, DepthAt;
    if k >= |p.node.items| {
      FreeNone(all);
    } else {
      FreeIff(Part(p, k), all, restricted);
      FreeFrom(p, k + 1, all, restricted);
      BothFree(Walked(Part(p, k), restricted), WalkedFrom(p, k + 1, restricted), all);
    }
  }

  // ── what the walk approves ──

  predicate Approves(p: Place, span: Span) {
    span in Key(p).approved
  }

  ghost predicate ApprovedWithin(p: Place, span: Span) {
    exists q :: Within(p, q) && Approves(q, span)
  }

  lemma ApprovedParts(p: Place, span: Span)
    ensures ApprovedWithin(p, span) <==>
      || Approves(p, span)
      || (p.node.List? && exists k :: 0 <= k < |p.node.items| && ApprovedWithin(Part(p, k), span))
      || (AfterDot(p).Some? && ApprovedWithin(AfterDot(p).value, span))
  {
    hide Approves, Part, AfterDot;
    assert Within(p, p);
    if p.node.List? {
      forall k, q | 0 <= k < |p.node.items| && Within(Part(p, k), q) && Approves(q, span) ensures Within(p, q) {
      }
    }
  }

  /** In a form the walk finds nothing in, it approves exactly the tokens its places are known by. */
  lemma {:induction false} ApprovedIff(p: Place, span: Span, restricted: string -> bool)
    requires AllFit(p, true, restricted)
    ensures span in Walked(p, restricted).approved <==> ApprovedWithin(p, span)
    decreases p.node, 1
  {
    hide Need, RoleAt, DepthAt, WalkedOn, ApprovedWithin, AllFit, Key;
    AllFitParts(p, true, restricted);
    ApprovedParts(p, span);
    if Halts(p, restricted) {
      LiteralApproves(p, span);
    } else {
      if p.node.List? {
        ApprovedFrom(p, 0, span, restricted);
      }
      if AfterDot(p).Some? {
        ApprovedIff(AfterDot(p).value, span, restricted);
      }
    }
  }

  lemma LiteralApproves(p: Place, span: Span)
    requires p.role.Literal? || p.role.Target?
    ensures ApprovedWithin(p, span) <==> Approves(p, span)
  {
    hide RoleAt, DepthAt, Within;
    Itself(p);
    forall q | Within(p, q) && q != p ensures !Approves(q, span) {
      LiteralsFit(p, q);
    }
  }

  lemma {:induction false} ApprovedFrom(p: Place, k: nat, span: Span, restricted: string -> bool)
    requires p.node.List? && forall i | k <= i < |p.node.items| :: AllFit(Part(p, i), true, restricted)
    ensures span in WalkedFrom(p, k, restricted).approved <==>
      exists i :: k <= i < |p.node.items| && ApprovedWithin(Part(p, i), span)
    decreases p.node, 0, |p.node.items| - k
  {
    hide Walked, AllFit, ApprovedWithin, RoleAt, DepthAt;
    if k < |p.node.items| {
      ApprovedIff(Part(p, k), span, restricted);
      ApprovedFrom(p, k + 1, span, restricted);
    }
  }

  // ── over the forms of a text ──

  ghost predicate InForms(forms: seq<Node>, q: Place) {
    exists k :: 0 <= k < |forms| && Within(Place(Code, forms[k], 0), q)
  }

  lemma {:induction false} AllFree(forms: seq<Node>, k: nat, all: bool, restricted: string -> bool)
    ensures Free(MarkAll(forms, k, 0, restricted), all) <==>
      forall i | k <= i < |forms| :: AllFit(Place(Code, forms[i], 0), all, restricted)
    decreases |forms| - k
  {
    hide MarkCode, AllFit, Free;
    FreeNone(all);
    if k < |forms| {
      CodeWalked(forms[k], 0, restricted);
      FreeIff(Place(Code, forms[k], 0), all, restricted);
      AllFree(forms, k + 1, all, restricted);
      BothFree(MarkCode(forms[k], 0, restricted), MarkAll(forms, k + 1, 0, restricted), all);
    }
  }

  lemma {:induction false} AllApproved(forms: seq<Node>, k: nat, span: Span, restricted: string -> bool)
    requires forall i | k <= i < |forms| :: AllFit(Place(Code, forms[i], 0), true, restricted)
    ensures span in MarkAll(forms, k, 0, restricted).approved <==>
      exists i :: k <= i < |forms| && ApprovedWithin(Place(Code, forms[i], 0), span)
    decreases |forms| - k
  {
    hide MarkCode, AllFit, ApprovedWithin;
    if k < |forms| {
      CodeWalked(forms[k], 0, restricted);
      ApprovedIff(Place(Code, forms[k], 0), span, restricted);
      AllApproved(forms, k + 1, span, restricted);
    }
  }

  /** Nothing is found in the forms, or nothing that no tier runs, if and only if no place of theirs is such. */
  lemma FormsFree(forms: seq<Node>, all: bool, restricted: string -> bool)
    ensures Free(MarkAll(forms, 0, 0, restricted), all) <==> forall q | InForms(forms, q) :: Fits(q, all, restricted)
  {
    hide MarkAll, Free, Fits, Within;
    AllFree(forms, 0, all, restricted);
    if forall q | InForms(forms, q) :: Fits(q, all, restricted) {
      forall i, q | 0 <= i < |forms| && Within(Place(Code, forms[i], 0), q) ensures Fits(q, all, restricted) {
        assert InForms(forms, q);
      }
    }
  }

  lemma FormsApproved(forms: seq<Node>, span: Span, restricted: string -> bool)
    requires forall q | InForms(forms, q) :: Need(q, restricted) == Read
    ensures span in MarkAll(forms, 0, 0, restricted).approved <==> exists q :: InForms(forms, q) && Approves(q, span)
  {
    hide MarkAll, Need, Within, Approves;
    forall i | 0 <= i < |forms| ensures AllFit(Place(Code, forms[i], 0), true, restricted) {
      forall q | Within(Place(Code, forms[i], 0), q) ensures Fits(q, true, restricted) {
        assert InForms(forms, q);
      }
    }
    AllApproved(forms, 0, span, restricted);
    forall i, q | 0 <= i < |forms| && Within(Place(Code, forms[i], 0), q) && Approves(q, span) ensures InForms(forms, q) {
    }
  }

  /** So whatever name a place uses, no tier refuses it outright if no tier refuses the place. */
  lemma NamedNeeds(p: Place, restricted: string -> bool)
    requires Named(p).Some? && Need(p, restricted) != Never
    ensures SymbolTier(Named(p).value) != Never
  {
    hide SymbolTier;
  }

  // ── an ssget mode ──

  /** The text from `a` to `b`, with blanks around it only and none at its ends. */
  ghost predicate Trimmed(s: string, a: nat, b: nat) {
    && a <= b <= |s| && (forall i | 0 <= i < a :: Space(s[i])) && (forall i | b <= i < |s| :: Space(s[i]))
    && (a < b ==> !Space(s[a]) && !Space(s[b - 1]))
  }

  lemma {:induction false} StrippedIs(s: string) returns (a: nat, b: nat)
    ensures Trimmed(s, a, b) && Stripped(s) == s[a..b]
    decreases |s|
  {
    if s != "" && Space(s[0]) {
      a, b := StrippedIs(s[1..]);
      a, b := a + 1, b + 1;
      assert forall i | 0 < i < |s| :: s[i] == s[1..][i - 1];
      assert forall i | 0 <= i < b - a :: s[a..b][i] == s[a + i] == s[1..][a - 1 + i] == s[1..][a - 1..b - 1][i];
      assert s[a..b] == s[1..][a - 1..b - 1];
    } else if s != "" && Space(s[|s| - 1]) {
      a, b := StrippedIs(s[..|s| - 1]);
      assert s[a..b] == s[..|s| - 1][a..b];
    } else {
      a, b := 0, |s|;
      assert s[a..b] == s;
    }
  }

  lemma {:induction false} BareIs(s: string) returns (u: nat)
    ensures u <= |s| && Bare(s) == s[u..] && (forall i | 0 <= i < u :: s[i] == '_') && (u < |s| ==> s[u] != '_')
    decreases |s|
  {
    u := 0;
    if s != "" && s[0] == '_' {
      u := BareIs(s[1..]);
      assert s[u + 1..] == s[1..][u..];
      assert forall i | 0 < i < |s| :: s[i] == s[1..][i - 1];
      u := u + 1;
    }
  }

  function UpperOf(c: char): char {
    if 'a' <= c <= 'z' then (c as int - 'a' as int + 'A' as int) as char else c
  }

  /** A mode is what is between the blanks, but for the underscores it starts with, in capitals. */
  lemma SsgetModeIs(raw: string) returns (a: nat, b: nat, u: nat)
    ensures Trimmed(raw, a, b) && a + u <= b && (forall i | a <= i < a + u :: raw[i] == '_') && (a + u < b ==> raw[a + u] != '_')
    ensures |SsgetMode(raw)| == b - a - u
    ensures forall i | 0 <= i < b - a - u ::
      SsgetMode(raw)[i] == UpperOf(raw[a + u + i])
  {
    a, b := StrippedIs(raw);
    u := BareIs(Upper(raw[a..b]));
    hide Trimmed;
    var upper := Upper(raw[a..b]);
    assert |upper| == b - a && SsgetMode(raw) == upper[u..];
    forall i | 0 <= i < b - a
      ensures upper[i] == UpperOf(raw[a + i]) && (upper[i] == '_' <==> raw[a + i] == '_')
    {
      assert raw[a..b][i] == raw[a + i];
    }
    forall i | a <= i < a + u ensures raw[i] == '_' {
      assert upper[i - a] == '_' && raw[a + (i - a)] == raw[i];
    }
    assert a + u < b ==> upper[u] != '_' && raw[a + u] != '_';
    forall i | 0 <= i < b - a - u ensures SsgetMode(raw)[i] == UpperOf(raw[a + u + i]) {
      assert upper[u..][i] == upper[u + i] && raw[a + (u + i)] == raw[a + u + i];
    }
  }
}
