/** The read-tier walk of security_lisp.py: the vocabulary, what the walk marks of a form, and the walk.

    `restricted` is the denylist's pattern matched against a whole name. */
module LispWalk {

  import opened Wrappers
  import opened LispReader
  import opened LispLiterals

  // ── the vocabulary ──

  datatype Tier = Read | Write | Never | Unclassified

  predicate ReadFunction(name: string) {
    name in {
      "+", "-", "*", "/", "~", "1+", "1-", "abs", "atan", "cos", "sin", "exp", "expt", "fix", "float", "gcd", "log",
      "logand", "logior", "lsh", "max", "min", "minusp", "rem", "sqrt", "zerop", "numberp", "angle", "distance",
      "polar", "inters", "trans",
      "=", "/=", "<", "<=", ">", ">=", "eq", "equal", "not", "null", "atom", "listp", "vl-consp", "type", "and", "or",
      "if", "progn",
      "list", "cons", "append", "assoc", "member", "nth", "last", "length", "reverse", "subst", "vl-position",
      "vl-remove", "vl-list*", "vl-list-length",
      "strcat", "substr", "strlen", "strcase", "rtos", "itoa", "atoi", "atof", "angtos", "distof", "angtof", "chr",
      "ascii", "wcmatch", "vl-princ-to-string", "vl-prin1-to-string",
      "entget", "entnext", "entlast", "handent", "tblsearch", "tblnext", "tblobjname", "getvar", "dictsearch",
      "dictnext", "namedobjdict", "sslength", "ssname", "vlax-ename->vla-object", "vlax-vla-object->ename",
      "vlax-get-property", "vlax-variant-value", "vlax-safearray->list", "vlax-property-available-p",
      "vl-catch-all-error-p", "vl-catch-all-error-message", "vl-load-com"}
  }

  predicate SpecialForm(name: string) {
    name in {"quote", "function", "lambda", "setq", "foreach", "cond", "eval", "ssget"}
  }

  predicate HigherOrder(name: string) {
    name in {"mapcar", "apply", "vl-catch-all-apply", "vl-some", "vl-every", "vl-member-if", "vl-member-if-not",
             "vl-remove-if", "vl-remove-if-not", "vl-sort"}
  }

  /** The index of a higher-order function's function argument. */
  function FunctionIndex(name: string): nat {
    if name == "vl-sort" then 1 else 0
  }

  predicate NeverFunction(name: string) {
    name in {"entsel", "nentsel", "nentselp", "grread", "load", "autoload", "arxload", "vl-load-all", "startapp", "read",
             "defun", "defun-q", "vlax-create-object", "vlax-get-or-create-object", "vla-sendcommand"}
  }

  predicate WriteFunction(name: string) {
    name in {"command", "command-s", "vl-cmdf", "entmod", "entmake", "entmakex", "entdel", "entupd", "setvar", "setenv",
             "setcfg", "ssadd", "ssdel", "regapp", "dictadd", "dictremove", "dictrename", "setpropertyvalue",
             "vlax-put-property", "vlax-put", "vlax-invoke", "vlax-invoke-method"}
  }

  predicate Constant(name: string) {
    name in {"nil", "t", "pi"}
  }

  /** `c[ad]{1,4}r`. */
  predicate Cxr(name: string) {
    3 <= |name| <= 6 && name[0] == 'c' && name[|name| - 1] == 'r' && forall k | 0 < k < |name| - 1 :: name[k] in "ad"
  }

  function SymbolTier(name: string): Tier {
    if NeverFunction(name) then Never
    else if ReadFunction(name) || SpecialForm(name) || HigherOrder(name) || Cxr(name)
            || "vla-get-" <= name || "vlax-curve-get" <= name || "vl-string-" <= name then Read
    else if "dos_" <= name || "vl-file-" <= name || "vlr-" <= name || "c:" <= name then Never
    else if "get" <= name && name !in {"getvar", "getenv", "getcfg", "getpropertyvalue"} then Never
    else if WriteFunction(name) || "vla-" <= name then Write
    else Unclassified
  }

  lemma WhileIsNotRead()
    ensures SymbolTier("while") != Read
  {
  }

  lemma RepeatIsNotRead()
    ensures SymbolTier("repeat") != Read
  {
  }

  lemma DefunIsNotRead()
    ensures SymbolTier("defun") != Read
  {
  }

  /** No loop and no definition is in the read tier. */
  lemma NoLoopIsRead()
    ensures SymbolTier("while") != Read && SymbolTier("repeat") != Read && SymbolTier("defun") != Read
  {
    hide SymbolTier;
    WhileIsNotRead();
    RepeatIsNotRead();
    DefunIsNotRead();
  }

  // ── what a form is marked with ──

  datatype Finding = Finding(symbol: string, offset: nat, tier: Tier)

  datatype Marks = Marks(findings: seq<Finding>, approved: seq<Span>)

  const NONE := Marks([], [])

  const MAX_DEPTH: nat := 200

  function Both(a: Marks, b: Marks): Marks {
    Marks(a.findings + b.findings, a.approved + b.approved)
  }

  function Label(node: Node): string {
    match node
    case Symbol(_, _, name, _) => name
    case List(_, _, items, _) =>
      if items != [] && items[0].Symbol? then (if items[0].synthetic then "'" else items[0].text) else "("
    case Str(_, _, _) => "\""
    case Number(_, _, digits) => if digits != "" then digits else "number"
  }

  function Found(node: Node, tier: Tier): Marks {
    Marks([Finding(Label(node), node.offset, tier)], [])
  }

  function Approved(node: Node): Marks {
    if node.Symbol? && !node.synthetic then Marks([], [Span(node.offset, node.end)]) else NONE
  }

  predicate Headed(node: Node, name: string) {
    node.List? && node.items != [] && node.items[0].Symbol? && node.items[0].text == name
  }

  predicate QuoteForm(node: Node) {
    Headed(node, "quote") && node.tail.None? && |node.items| == 2
  }

  predicate FunctionForm(node: Node) {
    Headed(node, "function") && node.tail.None? && |node.items| == 2
  }

  predicate LambdaForm(node: Node) {
    Headed(node, "lambda")
  }

  /** A symbol evaluated for its value. */
  function MarkValue(node: Node, restricted: string -> bool): Marks
    requires node.Symbol?
  {
    var tier := SymbolTier(node.text);
    if tier == Never then Found(node, Never)
    else if tier == Write then Found(node, Write)
    else if tier == Unclassified && restricted(node.text) then Found(node, Unclassified)
    else Approved(node)
  }

  /** A symbol bound. */
  function MarkTarget(node: Node, restricted: string -> bool): Marks {
    if !node.Symbol? || node.synthetic then Found(node, Never)
    else
      var name, tier := node.text, SymbolTier(node.text);
      if tier == Never then Found(node, Never)
      else if tier != Unclassified || Constant(name) || name == "*error*" || "*push-error" <= name then Found(node, Write)
      else if restricted(name) then Found(node, Unclassified)
      else Approved(node)
  }

  /** Quoted data. */
  function MarkData(node: Node, depth: nat, restricted: string -> bool): Marks
    decreases node
  {
    if depth > MAX_DEPTH then Found(node, Never)
    else
      match node
      case Symbol(_, _, _, synthetic) => if synthetic then NONE else MarkValue(node, restricted)
      case List(_, _, items, tail) =>
        Both(MarkAllData(items, 0, depth + 1, restricted),
             match tail case None => NONE case Some(last) => MarkData(last, depth + 1, restricted))
      case _ => NONE
  }

  function MarkAllData(items: seq<Node>, k: nat, depth: nat, restricted: string -> bool): Marks
    decreases items, |items| - k
  {
    if k >= |items| then NONE
    else Both(MarkData(items[k], depth, restricted), MarkAllData(items, k + 1, depth, restricted))
  }

  function MarkParams(params: seq<Node>, k: nat, restricted: string -> bool): Marks
    decreases |params| - k
  {
    if k >= |params| then NONE
    else if params[k].Symbol? && params[k].text == "/" then MarkParams(params, k + 1, restricted)
    else Both(MarkTarget(params[k], restricted), MarkParams(params, k + 1, restricted))
  }

  /** A lambda, which has the head `lambda`. */
  function MarkLambda(node: Node, depth: nat, restricted: string -> bool): Marks
    requires node.List? && node.items != []
    decreases node, 1
  {
    if node.tail.Some? || |node.items| < 2 then Found(node, Never)
    else
      var params := node.items[1];
      Both(Both(Approved(node.items[0]),
                if params.Symbol? && params.text == "nil" then Approved(params)
                else if params.List? && params.tail.None? then MarkParams(params.items, 0, restricted)
                else Found(params, Never)),
           MarkAll(node.items, 2, depth + 1, restricted))
  }

  function MarkAll(items: seq<Node>, k: nat, depth: nat, restricted: string -> bool): Marks
    decreases items, |items| - k
  {
    if k >= |items| then NONE
    else Both(MarkCode(items[k], depth, restricted), MarkAll(items, k + 1, depth, restricted))
  }

  /** A function named or written out where one is called by value. */
  function MarkFunction(node: Node, depth: nat, restricted: string -> bool): Marks
    decreases node, 2
  {
    if node.Symbol? && !node.synthetic then
      var tier := SymbolTier(node.text);
      if tier == Read && !SpecialForm(node.text) && !HigherOrder(node.text) then Approved(node)
      else if tier == Read then Found(node, Never)
      else Found(node, tier)
    else if LambdaForm(node) then MarkLambda(node, depth, restricted)
    else Found(node, Never)
  }

  /** A higher-order function's function argument: a literal. */
  function MarkFunctionArgument(node: Node, owner: Node, depth: nat, restricted: string -> bool): Marks
    decreases node, 3
  {
    if QuoteForm(node) || FunctionForm(node) then
      Both(Approved(node.items[0]), MarkFunction(node.items[1], depth + 1, restricted))
    else if LambdaForm(node) then MarkLambda(node, depth + 1, restricted)
    else Found(owner, Never)
  }

  /** The arguments of a higher-order call from `k`, the one at `index` its function. */
  function MarkArguments(items: seq<Node>, k: nat, index: nat, depth: nat, restricted: string -> bool): Marks
    requires items != []
    decreases items, |items| - k
  {
    if k >= |items| then NONE
    else Both(if k == index then MarkFunctionArgument(items[k], items[0], depth, restricted) else MarkCode(items[k], depth, restricted),
              MarkArguments(items, k + 1, index, depth, restricted))
  }

  function MarkPairs(items: seq<Node>, k: nat, depth: nat, restricted: string -> bool): Marks
    decreases items, |items| - k
  {
    if k + 1 >= |items| then NONE
    else
      Both(Both(MarkTarget(items[k], restricted), MarkCode(items[k + 1], depth, restricted)),
           MarkPairs(items, k + 2, depth, restricted))
  }

  function MarkClauses(items: seq<Node>, k: nat, depth: nat, restricted: string -> bool): Marks
    decreases items, |items| - k
  {
    if k >= |items| then NONE
    else
      Both(if !items[k].List? || items[k].tail.Some? || items[k].items == [] then Found(items[k], Never)
           else MarkAll(items[k].items, 0, depth, restricted),
           MarkClauses(items, k + 1, depth, restricted))
  }

  function Stripped(s: string): string
    decreases |s|
  {
    if s != "" && (Space(s[0])) then Stripped(s[1..])
    else if s != "" && Space(s[|s| - 1]) then Stripped(s[..|s| - 1])
    else s
  }

  function Upper(s: string): string {
    seq(|s|, i requires 0 <= i < |s| => if 'a' <= s[i] <= 'z' then (s[i] as int - 32) as char else s[i])
  }

  function Bare(s: string): string
    decreases |s|
  {
    if s != "" && s[0] == '_' then Bare(s[1..]) else s
  }

  /** `strip().upper().lstrip("_")`. */
  function SsgetMode(raw: string): string {
    Bare(Upper(Stripped(raw)))
  }

  function MarkSsget(node: Node, depth: nat, restricted: string -> bool): Marks
    requires node.List? && node.items != []
    decreases node, 0
  {
    var head, items := node.items[0], node.items;
    if |items| < 2 || !items[1].Str? then Both(Found(head, Never), MarkAll(items, 1, depth + 1, restricted))
    else
      var mode := SsgetMode(items[1].text);
      Both(if ':' in mode then Found(head, Never)
           else if mode in {"X", "W", "C", "CP"} then Approved(head)
           else if mode in {"WP", "F", "L", "P", "I", "A"} then Found(head, Unclassified)
           else Found(head, Never),
           MarkAll(items, 2, depth + 1, restricted))
  }

  function MarkSpecial(name: string, node: Node, depth: nat, restricted: string -> bool): Marks
    requires node.List? && node.items != []
    decreases node, 2
  {
    var head, items := node.items[0], node.items;
    if name == "quote" then
      if |items| != 2 then Found(head, Never) else Both(Approved(head), MarkData(items[1], depth + 1, restricted))
    else if name == "function" then
      if |items| != 2 then Found(head, Never) else Both(Approved(head), MarkFunction(items[1], depth + 1, restricted))
    else if name == "lambda" then MarkLambda(node, depth, restricted)
    else if name == "setq" then
      if |items| < 2 || |items| % 2 == 0 then Found(head, Never) else Both(Approved(head), MarkPairs(items, 1, depth + 1, restricted))
    else if name == "foreach" then
      if |items| < 3 then Found(head, Never)
      else Both(Both(Approved(head), MarkTarget(items[1], restricted)), MarkAll(items, 2, depth + 1, restricted))
    else if name == "cond" then Both(Approved(head), MarkClauses(items, 1, depth + 1, restricted))
    else if name == "eval" then
      if |items| == 2 && QuoteForm(items[1]) then
        assert items[1] < node && items[1].items[1] < items[1];
        Both(Approved(head), MarkCode(items[1].items[1], depth + 1, restricted))
      else Found(head, Never)
    else if name == "ssget" then MarkSsget(node, depth, restricted)
    else Found(head, Never)
  }

  /** A form evaluated as code. */
  function MarkCode(node: Node, depth: nat, restricted: string -> bool): Marks
    decreases node, 3
  {
    if depth > MAX_DEPTH then Found(node, Never)
    else
      match node
      case Number(_, _, _) => NONE
      case Str(_, _, _) => NONE
      case Symbol(_, _, _, _) => MarkValue(node, restricted)
      case List(_, _, items, tail) =>
        if tail.Some? then Found(node, Never)
        else if items == [] then NONE
        else
          var head := items[0];
          if head.List? then
            if LambdaForm(head) then Both(MarkLambda(head, depth + 1, restricted), MarkAll(items, 1, depth + 1, restricted))
            else Found(head, Never)
          else if !head.Symbol? then Found(head, Never)
          else
            var name, tier := head.text, SymbolTier(head.text);
            if tier != Read then Both(Found(head, tier), MarkAll(items, 1, depth + 1, restricted))
            else if SpecialForm(name) then MarkSpecial(name, node, depth, restricted)
            else if HigherOrder(name) then
              if |items| <= FunctionIndex(name) + 1 then Found(head, Never)
              else Both(Approved(head), MarkArguments(items, 1, FunctionIndex(name) + 1, depth + 1, restricted))
            else Both(Approved(head), MarkAll(items, 1, depth + 1, restricted))
  }

  // ── the walk ──

  lemma BothTwice(a: Marks, b: Marks, c: Marks)
    ensures Both(Both(a, b), c) == Both(a, Both(b, c))
    ensures Both(a, NONE) == a && Both(NONE, a) == a
  {
    assert a.findings + b.findings + c.findings == a.findings + (b.findings + c.findings);
    assert a.approved + b.approved + c.approved == a.approved + (b.approved + c.approved);
  }

  /** `_Walk`: every method adds to `findings` and `approved` what the function of its name marks. */
  class Walk {
    const restricted: string -> bool
    var findings: seq<Finding>
    var approved: seq<Span>

    constructor (restricted: string -> bool)
      ensures this.restricted == restricted && Seen() == NONE
    {
      this.restricted, findings, approved := restricted, [], [];
    }

    ghost function Seen(): Marks
      reads this
    {
      Marks(findings, approved)
    }

    method Approve(node: Node)
      modifies this
      ensures Seen() == Both(old(Seen()), Approved(node))
    {
      if node.Symbol? && !node.synthetic {
        approved := approved + [Span(node.offset, node.end)];
      }
    }

    method Find(node: Node, tier: Tier)
      modifies this
      ensures Seen() == Both(old(Seen()), Found(node, tier))
    {
      findings := findings + [Finding(Label(node), node.offset, tier)];
    }

    method Value(node: Node)
      requires node.Symbol?
      modifies this
      ensures Seen() == Both(old(Seen()), MarkValue(node, restricted))
    {
      var tier := SymbolTier(node.text);
      if tier == Never {
        Find(node, Never);
      } else if tier == Write {
        Find(node, Write);
      } else if tier == Unclassified && restricted(node.text) {
        Find(node, Unclassified);
      } else {
        Approve(node);
      }
    }

    method Target(node: Node)
      modifies this
      ensures Seen() == Both(old(Seen()), MarkTarget(node, restricted))
    {
      if !node.Symbol? || node.synthetic {
        Find(node, Never);
        return;
      }
      var name, tier := node.text, SymbolTier(node.text);
      if tier == Never {
        Find(node, Never);
      } else if tier != Unclassified || Constant(name) || name == "*error*" || "*push-error" <= name {
        Find(node, Write);
      } else if restricted(name) {
        Find(node, Unclassified);
      } else {
        Approve(node);
      }
    }

    method Data(node: Node, depth: nat)
      modifies this
      ensures Seen() == Both(old(Seen()), MarkData(node, depth, restricted))
      decreases node
    {
      ghost var was := Seen();
      BothTwice(was, NONE, NONE);
      if depth > MAX_DEPTH {
        Find(node, Never);
      } else if node.Symbol? {
        if !node.synthetic {
          Value(node);
        }
      } else if node.List? {
        for k := 0 to |node.items|
          invariant Both(Seen(), MarkAllData(node.items, k, depth + 1, restricted)) ==
            Both(was, MarkAllData(node.items, 0, depth + 1, restricted))
        {
          BothTwice(Seen(), MarkData(node.items[k], depth + 1, restricted), MarkAllData(node.items, k + 1, depth + 1, restricted));
          Data(node.items[k], depth + 1);
        }
        BothTwice(Seen(), NONE, NONE);
        var all := MarkAllData(node.items, 0, depth + 1, restricted);
        BothTwice(was, all, NONE);
        if node.tail.Some? {
          BothTwice(was, all, MarkData(node.tail.value, depth + 1, restricted));
          Data(node.tail.value, depth + 1);
        }
        BothTwice(all, NONE, NONE);
      }
    }

    method WalkAll(items: seq<Node>, start: nat, depth: nat)
      requires start <= |items|
      modifies this
      ensures Seen() == Both(old(Seen()), MarkAll(items, start, depth, restricted))
      decreases items, 0
    {
      for k := start to |items|
        invariant Both(Seen(), MarkAll(items, k, depth, restricted)) == Both(old(Seen()), MarkAll(items, start, depth, restricted))
      {
        BothTwice(Seen(), MarkCode(items[k], depth, restricted), MarkAll(items, k + 1, depth, restricted));
        Code(items[k], depth);
      }
      BothTwice(Seen(), NONE, NONE);
    }

    method Params(params: seq<Node>)
      modifies this
      ensures Seen() == Both(old(Seen()), MarkParams(params, 0, restricted))
    {
      for k := 0 to |params|
        invariant Both(Seen(), MarkParams(params, k, restricted)) == Both(old(Seen()), MarkParams(params, 0, restricted))
      {
        if !(params[k].Symbol? && params[k].text == "/") {
          BothTwice(Seen(), MarkTarget(params[k], restricted), MarkParams(params, k + 1, restricted));
          Target(params[k]);
        }
      }
      BothTwice(Seen(), NONE, NONE);
    }

    method Lambda(node: Node, depth: nat)
      requires node.List? && node.items != []
      modifies this
      ensures Seen() == Both(old(Seen()), MarkLambda(node, depth, restricted))
      decreases node, 1
    {
      ghost var was := Seen();
      if node.tail.Some? || |node.items| < 2 {
        Find(node, Never);
        return;
      }
      Approve(node.items[0]);
      var params := node.items[1];
      ghost var bound := if params.Symbol? && params.text == "nil" then Approved(params)
                         else if params.List? && params.tail.None? then MarkParams(params.items, 0, restricted)
                         else Found(params, Never);
      if params.Symbol? && params.text == "nil" {
        Approve(params);
      } else if params.List? && params.tail.None? {
        Params(params.items);
      } else {
        Find(params, Never);
      }
      BothTwice(was, Approved(node.items[0]), bound);
      BothTwice(was, Both(Approved(node.items[0]), bound), MarkAll(node.items, 2, depth + 1, restricted));
      WalkAll(node.items, 2, depth + 1);
    }

    method FunctionReference(node: Node, depth: nat)
      modifies this
      ensures Seen() == Both(old(Seen()), MarkFunction(node, depth, restricted))
      decreases node, 2
    {
      if node.Symbol? && !node.synthetic {
        var name, tier := node.text, SymbolTier(node.text);
        if tier == Read && !SpecialForm(name) && !HigherOrder(name) {
          Approve(node);
        } else if tier == Read {
          Find(node, Never);
        } else {
          Find(node, tier);
        }
      } else if LambdaForm(node) {
        Lambda(node, depth);
      } else {
        Find(node, Never);
      }
    }

    method FunctionValue(node: Node, owner: Node, depth: nat)
      modifies this
      ensures Seen() == Both(old(Seen()), MarkFunctionArgument(node, owner, depth, restricted))
      decreases node, 3
    {
      if QuoteForm(node) || FunctionForm(node) {
        BothTwice(Seen(), Approved(node.items[0]), MarkFunction(node.items[1], depth + 1, restricted));
        Approve(node.items[0]);
        FunctionReference(node.items[1], depth + 1);
      } else if LambdaForm(node) {
        Lambda(node, depth + 1);
      } else {
        Find(owner, Never);
      }
    }

    method Arguments(items: seq<Node>, index: nat, depth: nat)
      requires items != []
      modifies this
      ensures Seen() == Both(old(Seen()), MarkArguments(items, 1, index, depth, restricted))
      decreases items, 0
    {
      for k := 1 to |items|
        invariant Both(Seen(), MarkArguments(items, k, index, depth, restricted)) ==
          Both(old(Seen()), MarkArguments(items, 1, index, depth, restricted))
      {
        ghost var marks := if k == index then MarkFunctionArgument(items[k], items[0], depth, restricted) else MarkCode(items[k], depth, restricted);
        BothTwice(Seen(), marks, MarkArguments(items, k + 1, index, depth, restricted));
        if k == index {
          FunctionValue(items[k], items[0], depth);
        } else {
          Code(items[k], depth);
        }
      }
      BothTwice(Seen(), NONE, NONE);
    }

    method Pairs(items: seq<Node>, depth: nat)
      requires |items| % 2 == 1
      modifies this
      ensures Seen() == Both(old(Seen()), MarkPairs(items, 1, depth, restricted))
      decreases items, 0
    {
      var k := 1;
      while k + 1 < |items|
        invariant Both(Seen(), MarkPairs(items, k, depth, restricted)) == Both(old(Seen()), MarkPairs(items, 1, depth, restricted))
      {
        var target, code := MarkTarget(items[k], restricted), MarkCode(items[k + 1], depth, restricted);
        BothTwice(Seen(), target, code);
        BothTwice(Seen(), Both(target, code), MarkPairs(items, k + 2, depth, restricted));
        Target(items[k]);
        Code(items[k + 1], depth);
        k := k + 2;
      }
      BothTwice(Seen(), NONE, NONE);
    }

    method Clauses(items: seq<Node>, depth: nat)
      requires items != []
      modifies this
      ensures Seen() == Both(old(Seen()), MarkClauses(items, 1, depth, restricted))
      decreases items, 0
    {
      for k := 1 to |items|
        invariant Both(Seen(), MarkClauses(items, k, depth, restricted)) == Both(old(Seen()), MarkClauses(items, 1, depth, restricted))
      {
        var bad := !items[k].List? || items[k].tail.Some? || items[k].items == [];
        ghost var marks := if bad then Found(items[k], Never) else MarkAll(items[k].items, 0, depth, restricted);
        BothTwice(Seen(), marks, MarkClauses(items, k + 1, depth, restricted));
        if bad {
          Find(items[k], Never);
        } else {
          WalkAll(items[k].items, 0, depth);
        }
      }
      BothTwice(Seen(), NONE, NONE);
    }

    method Ssget(node: Node, depth: nat)
      requires node.List? && node.items != []
      modifies this
      ensures Seen() == Both(old(Seen()), MarkSsget(node, depth, restricted))
      decreases node, 0
    {
      var head, items := node.items[0], node.items;
      ghost var was := Seen();
      if |items| < 2 || !items[1].Str? {
        BothTwice(was, Found(head, Never), MarkAll(items, 1, depth + 1, restricted));
        Find(head, Never);
        WalkAll(items, 1, depth + 1);
        return;
      }
      var mode := SsgetMode(items[1].text);
      if ':' in mode {
        Find(head, Never);
      } else if mode in {"X", "W", "C", "CP"} {
        Approve(head);
      } else if mode in {"WP", "F", "L", "P", "I", "A"} {
        Find(head, Unclassified);
      } else {
        Find(head, Never);
      }
      ghost var marks := if ':' in mode then Found(head, Never)
                         else if mode in {"X", "W", "C", "CP"} then Approved(head)
                         else if mode in {"WP", "F", "L", "P", "I", "A"} then Found(head, Unclassified)
                         else Found(head, Never);
      BothTwice(was, marks, MarkAll(items, 2, depth + 1, restricted));
      WalkAll(items, 2, depth + 1);
    }

    method Special(name: string, node: Node, depth: nat)
      requires node.List? && node.items != []
      modifies this
      ensures Seen() == Both(old(Seen()), MarkSpecial(name, node, depth, restricted))
      decreases node, 2
    {
      var head, items := node.items[0], node.items;
      ghost var was := Seen();
      if name == "quote" {
        if |items| != 2 {
          Find(head, Never);
        } else {
          BothTwice(was, Approved(head), MarkData(items[1], depth + 1, restricted));
          Approve(head);
          Data(items[1], depth + 1);
        }
      } else if name == "function" {
        if |items| != 2 {
          Find(head, Never);
        } else {
          BothTwice(was, Approved(head), MarkFunction(items[1], depth + 1, restricted));
          Approve(head);
          FunctionReference(items[1], depth + 1);
        }
      } else if name == "lambda" {
        Lambda(node, depth);
      } else if name == "setq" {
        if |items| < 2 || |items| % 2 == 0 {
          Find(head, Never);
        } else {
          BothTwice(was, Approved(head), MarkPairs(items, 1, depth + 1, restricted));
          Approve(head);
          Pairs(items, depth + 1);
        }
      } else if name == "foreach" {
        if |items| < 3 {
          Find(head, Never);
        } else {
          BothTwice(was, Approved(head), MarkTarget(items[1], restricted));
          BothTwice(was, Both(Approved(head), MarkTarget(items[1], restricted)), MarkAll(items, 2, depth + 1, restricted));
          Approve(head);
          Target(items[1]);
          WalkAll(items, 2, depth + 1);
        }
      } else if name == "cond" {
        BothTwice(was, Approved(head), MarkClauses(items, 1, depth + 1, restricted));
        Approve(head);
        Clauses(items, depth + 1);
      } else if name == "eval" {
        if |items| == 2 && QuoteForm(items[1]) {
          BothTwice(was, Approved(head), MarkCode(items[1].items[1], depth + 1, restricted));
          Approve(head);
          assert items[1] < node && items[1].items[1] < items[1];
          Code(items[1].items[1], depth + 1);
        } else {
          Find(head, Never);
        }
      } else if name == "ssget" {
        Ssget(node, depth);
      } else {
        Find(head, Never);
      }
    }

    method Code(node: Node, depth: nat)
      modifies this
      ensures Seen() == Both(old(Seen()), MarkCode(node, depth, restricted))
      decreases node, 4
    {
      ghost var was := Seen();
      BothTwice(was, NONE, NONE);
      if depth > MAX_DEPTH {
        Find(node, Never);
      } else if node.Symbol? {
        Value(node);
      } else if node.List? {
        if node.tail.Some? {
          Find(node, Never);
        } else if node.items != [] {
          if !node.items[0].Symbol? {
            CallOfForm(node, depth);
          } else {
            CallOfSymbol(node, depth);
          }
        }
      }
    }

    method CallOfForm(node: Node, depth: nat)
      requires depth <= MAX_DEPTH && node.List? && node.tail.None? && node.items != [] && !node.items[0].Symbol?
      modifies this
      ensures Seen() == Both(old(Seen()), MarkCode(node, depth, restricted))
      decreases node, 3
    {
      var head := node.items[0];
      if LambdaForm(head) {
        BothTwice(Seen(), MarkLambda(head, depth + 1, restricted), MarkAll(node.items, 1, depth + 1, restricted));
        Lambda(head, depth + 1);
        WalkAll(node.items, 1, depth + 1);
      } else {
        Find(head, Never);
      }
    }

    method CallOfSymbol(node: Node, depth: nat)
      requires depth <= MAX_DEPTH && node.List? && node.tail.None? && node.items != [] && node.items[0].Symbol?
      modifies this
      ensures Seen() == Both(old(Seen()), MarkCode(node, depth, restricted))
      decreases node, 3
    {
      var head, items := node.items[0], node.items;
      var name, tier := head.text, SymbolTier(head.text);
      if tier != Read {
        BothTwice(Seen(), Found(head, tier), MarkAll(items, 1, depth + 1, restricted));
        Find(head, tier);
        WalkAll(items, 1, depth + 1);
      } else if SpecialForm(name) {
        Special(name, node, depth);
      } else if HigherOrder(name) {
        if |items| <= FunctionIndex(name) + 1 {
          Find(head, Never);
        } else {
          BothTwice(Seen(), Approved(head), MarkArguments(items, 1, FunctionIndex(name) + 1, depth + 1, restricted));
          Approve(head);
          Arguments(items, FunctionIndex(name) + 1, depth + 1);
        }
      } else {
        BothTwice(Seen(), Approved(head), MarkAll(items, 1, depth + 1, restricted));
        Approve(head);
        WalkAll(items, 1, depth + 1);
      }
    }
  }
}
