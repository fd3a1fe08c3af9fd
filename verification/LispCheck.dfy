/** `assess` and `check_expression` of security_lisp.py: what a text that is let through may hold.

    `restricted` is the denylist's pattern against a whole name, `scan` its matches in a text. */
module LispCheck {

  import opened Wrappers
  import opened LispReader
  import opened LispScanners
  import opened LispLiterals
  import opened LispWalk
  import opened LispEval
  import opened LispSafety
  import opened LispPlaces

  datatype Verdict = Unread | Verdict(tier: VerdictTier, marks: Marks)

  datatype VerdictTier = AllRead | SomeNever | SomeOther

  datatype Policy = ReadTier | Denylist | Off

  // ── every approved span is a symbol's token ──

  predicate Tokens(text: string, node: Node)
    decreases node
  {
    match node
    case Symbol(i, j, _, synthetic) => synthetic || Token(text, i, j)
    case List(_, _, items, tail) =>
      (forall k | 0 <= k < |items| :: Tokens(text, items[k])) && (tail.Some? ==> Tokens(text, tail.value))
    case _ => true
  }

  predicate Tokened(text: string, marks: Marks) {
    forall i | 0 <= i < |marks.approved| :: Token(text, marks.approved[i].start, marks.approved[i].end)
  }

  lemma BothTokened(text: string, a: Marks, b: Marks)
    requires Tokened(text, a) && Tokened(text, b)
    ensures Tokened(text, Both(a, b))
  {
    hide Token;
    var all := Both(a, b).approved;
    forall i | 0 <= i < |all| ensures Token(text, all[i].start, all[i].end) {
      assert all[i] == if i < |a.approved| then a.approved[i] else b.approved[i - |a.approved|];
    }
  }

  lemma {:induction false} SpelledTokens(text: string, node: Node)
    requires Spells(text, node)
    ensures Tokens(text, node)
    decreases node
  {
    hide Token, Gap, Dotted, Spaced, StringEnd, IsNumber;
    if node.List? {
      var items := node.items;
      if text[node.offset] == '\'' {
        SpelledTokens(text, items[1]);
        assert forall k | 0 <= k < 2 :: items[k] == if k == 0 then items[0] else items[1];
      } else {
        var e := if node.tail.None? then node.end - 1 else LastEnd(node.offset + 1, items);
        SpacedApart(text, node.offset + 1, e, items);
        forall k | 0 <= k < |items| ensures Tokens(text, items[k]) {
          SpelledTokens(text, items[k]);
        }
        if node.tail.Some? {
          SpelledTokens(text, node.tail.value);
        }
      }
    }
  }

  lemma SymbolTokened(text: string, node: Node, restricted: string -> bool)
    requires Tokens(text, node)
    ensures Tokened(text, LispWalk.Approved(node)) && Tokened(text, MarkTarget(node, restricted))
    ensures node.Symbol? ==> Tokened(text, MarkValue(node, restricted))
  {
    hide Token, SymbolTier;
  }

  lemma {:induction false} DataTokened(text: string, node: Node, depth: nat, restricted: string -> bool)
    requires Tokens(text, node)
    ensures Tokened(text, MarkData(node, depth, restricted))
    decreases node
  {
    hide Token, SymbolTier, Tokened, MarkAllData;
    if depth > MAX_DEPTH {
      FoundTokened(text, node, Never);
    } else if node.Symbol? {
      SymbolTokened(text, node, restricted);
      NoneTokened(text);
    } else if node.List? {
      AllDataTokened(text, node.items, 0, depth + 1, restricted);
      NoneTokened(text);
      if node.tail.Some? {
        DataTokened(text, node.tail.value, depth + 1, restricted);
      }
      BothTokened(text, MarkAllData(node.items, 0, depth + 1, restricted),
                  if node.tail.Some? then MarkData(node.tail.value, depth + 1, restricted) else NONE);
    } else {
      NoneTokened(text);
    }
  }

  lemma NoneTokened(text: string)
    ensures Tokened(text, NONE)
  {
  }

  lemma FoundTokened(text: string, node: Node, tier: Tier)
    ensures Tokened(text, Found(node, tier))
  {
  }

  lemma {:induction false} AllDataTokened(text: string, items: seq<Node>, k: nat, depth: nat, restricted: string -> bool)
    requires forall i | 0 <= i < |items| :: Tokens(text, items[i])
    ensures Tokened(text, MarkAllData(items, k, depth, restricted))
    decreases items, |items| - k
  {
    hide Token, Tokens, Tokened, MarkData;
    if k < |items| {
      DataTokened(text, items[k], depth, restricted);
      AllDataTokened(text, items, k + 1, depth, restricted);
      BothTokened(text, MarkData(items[k], depth, restricted), MarkAllData(items, k + 1, depth, restricted));
    } else {
      NoneTokened(text);
    }
  }

  lemma {:induction false} ParamsTokened(text: string, params: seq<Node>, k: nat, restricted: string -> bool)
    requires forall i | 0 <= i < |params| :: Tokens(text, params[i])
    ensures Tokened(text, MarkParams(params, k, restricted))
    decreases |params| - k
  {
    hide Token, Tokens, Tokened, MarkTarget;
    if k < |params| {
      ParamsTokened(text, params, k + 1, restricted);
      SymbolTokened(text, params[k], restricted);
      BothTokened(text, MarkTarget(params[k], restricted), MarkParams(params, k + 1, restricted));
    } else {
      NoneTokened(text);
    }
  }

  lemma {:induction false} LambdaTokened(text: string, node: Node, depth: nat, restricted: string -> bool)
    requires node.List? && node.items != [] && Tokens(text, node)
    ensures Tokened(text, MarkLambda(node, depth, restricted))
    decreases node, 1
  {
    hide Token, Tokened, MarkAll, MarkParams;
    var items := node.items;
    FoundTokened(text, node, Never);
    if node.tail.None? && |items| >= 2 {
      var params := items[1];
      SymbolTokened(text, items[0], restricted);
      SymbolTokened(text, params, restricted);
      FoundTokened(text, params, Never);
      if params.List? {
        ParamsTokened(text, params.items, 0, restricted);
      }
      AllTokened(text, items, 2, depth + 1, restricted);
      var bound := if params.Symbol? && params.text == "nil" then LispWalk.Approved(params)
                   else if params.List? && params.tail.None? then MarkParams(params.items, 0, restricted)
                   else Found(params, Never);
      BothTokened(text, LispWalk.Approved(items[0]), bound);
      BothTokened(text, Both(LispWalk.Approved(items[0]), bound), MarkAll(items, 2, depth + 1, restricted));
    }
  }

  lemma {:induction false} AllTokened(text: string, items: seq<Node>, k: nat, depth: nat, restricted: string -> bool)
    requires forall i | 0 <= i < |items| :: Tokens(text, items[i])
    ensures Tokened(text, MarkAll(items, k, depth, restricted))
    decreases items, |items| - k
  {
    hide Token, Tokens, Tokened, MarkCode;
    if k < |items| {
      CodeTokened(text, items[k], depth, restricted);
      AllTokened(text, items, k + 1, depth, restricted);
      BothTokened(text, MarkCode(items[k], depth, restricted), MarkAll(items, k + 1, depth, restricted));
    } else {
      NoneTokened(text);
    }
  }

  lemma {:induction false} FunctionTokened(text: string, node: Node, depth: nat, restricted: string -> bool)
    requires Tokens(text, node)
    ensures Tokened(text, MarkFunction(node, depth, restricted))
    decreases node, 2
  {
    hide Token, Tokened, SymbolTier, MarkLambda;
    SymbolTokened(text, node, restricted);
    forall tier {
      FoundTokened(text, node, tier);
    }
    if LambdaForm(node) {
      LambdaTokened(text, node, depth, restricted);
    }
  }

  lemma {:induction false} ArgumentTokened(text: string, node: Node, owner: Node, depth: nat, restricted: string -> bool)
    requires Tokens(text, node)
    ensures Tokened(text, MarkFunctionArgument(node, owner, depth, restricted))
    decreases node, 3
  {
    hide Token, Tokened, MarkFunction, MarkLambda;
    FoundTokened(text, owner, Never);
    if QuoteForm(node) || FunctionForm(node) {
      SymbolTokened(text, node.items[0], restricted);
      FunctionTokened(text, node.items[1], depth + 1, restricted);
      BothTokened(text, LispWalk.Approved(node.items[0]), MarkFunction(node.items[1], depth + 1, restricted));
    } else if LambdaForm(node) {
      LambdaTokened(text, node, depth + 1, restricted);
    }
  }

  lemma {:induction false} ArgumentsTokened(text: string, items: seq<Node>, k: nat, index: nat, depth: nat, restricted: string -> bool)
    requires items != [] && forall i | 0 <= i < |items| :: Tokens(text, items[i])
    ensures Tokened(text, MarkArguments(items, k, index, depth, restricted))
    decreases items, |items| - k
  {
    hide Token, Tokens, Tokened, MarkCode, MarkFunctionArgument;
    if k < |items| {
      ArgumentTokened(text, items[k], items[0], depth, restricted);
      CodeTokened(text, items[k], depth, restricted);
      ArgumentsTokened(text, items, k + 1, index, depth, restricted);
      BothTokened(text, if k == index then MarkFunctionArgument(items[k], items[0], depth, restricted) else MarkCode(items[k], depth, restricted),
                  MarkArguments(items, k + 1, index, depth, restricted));
    } else {
      NoneTokened(text);
    }
  }

  lemma {:induction false} PairsTokened(text: string, items: seq<Node>, k: nat, depth: nat, restricted: string -> bool)
    requires forall i | 0 <= i < |items| :: Tokens(text, items[i])
    ensures Tokened(text, MarkPairs(items, k, depth, restricted))
    decreases items, |items| - k
  {
    hide Token, Tokens, Tokened, MarkCode, MarkTarget;
    NoneTokened(text);
    if k + 1 < |items| {
      var target, code := MarkTarget(items[k], restricted), MarkCode(items[k + 1], depth, restricted);
      SymbolTokened(text, items[k], restricted);
      CodeTokened(text, items[k + 1], depth, restricted);
      PairsTokened(text, items, k + 2, depth, restricted);
      BothTokened(text, target, code);
      BothTokened(text, Both(target, code), MarkPairs(items, k + 2, depth, restricted));
    }
  }

  lemma {:induction false} ClausesTokened(text: string, items: seq<Node>, k: nat, depth: nat, restricted: string -> bool)
    requires forall i | 0 <= i < |items| :: Tokens(text, items[i])
    ensures Tokened(text, MarkClauses(items, k, depth, restricted))
    decreases items, |items| - k
  {
    hide Token, Tokened, MarkAll;
    NoneTokened(text);
    if k < |items| {
      var clause := items[k];
      FoundTokened(text, clause, Never);
      assert Tokens(text, clause);
      if clause.List? {
        AllTokened(text, clause.items, 0, depth, restricted);
      }
      ClausesTokened(text, items, k + 1, depth, restricted);
      BothTokened(text, if !clause.List? || clause.tail.Some? || clause.items == [] then Found(clause, Never)
                        else MarkAll(clause.items, 0, depth, restricted),
                  MarkClauses(items, k + 1, depth, restricted));
    }
  }

  lemma {:induction false} SsgetTokened(text: string, node: Node, depth: nat, restricted: string -> bool)
    requires node.List? && node.items != [] && Tokens(text, node)
    ensures Tokened(text, MarkSsget(node, depth, restricted))
    decreases node, 0
  {
    hide Token, Tokened, MarkAll, SsgetMode;
    var head, items := node.items[0], node.items;
    SymbolTokened(text, head, restricted);
    forall tier {
      FoundTokened(text, head, tier);
    }
    AllTokened(text, items, 1, depth + 1, restricted);
    AllTokened(text, items, 2, depth + 1, restricted);
    BothTokened(text, Found(head, Never), MarkAll(items, 1, depth + 1, restricted));
    BothTokened(text, Found(head, Never), MarkAll(items, 2, depth + 1, restricted));
    BothTokened(text, Found(head, Unclassified), MarkAll(items, 2, depth + 1, restricted));
    BothTokened(text, LispWalk.Approved(head), MarkAll(items, 2, depth + 1, restricted));
  }

  lemma {:induction false} SpecialTokened(text: string, name: string, node: Node, depth: nat, restricted: string -> bool)
    requires node.List? && node.items != [] && Tokens(text, node)
    ensures Tokened(text, MarkSpecial(name, node, depth, restricted))
    decreases node, 2
  {
    hide Token, Tokened, MarkAll, MarkData, MarkFunction, MarkLambda, MarkPairs, MarkClauses, MarkSsget, MarkCode, MarkTarget;
    var head, items := node.items[0], node.items;
    var approved := LispWalk.Approved(head);
    SymbolTokened(text, head, restricted);
    FoundTokened(text, head, Never);
    if name == "quote" && |items| == 2 {
      DataTokened(text, items[1], depth + 1, restricted);
      BothTokened(text, approved, MarkData(items[1], depth + 1, restricted));
    } else if name == "function" && |items| == 2 {
      FunctionTokened(text, items[1], depth + 1, restricted);
      BothTokened(text, approved, MarkFunction(items[1], depth + 1, restricted));
    } else if name == "lambda" {
      LambdaTokened(text, node, depth, restricted);
    } else if name == "setq" {
      PairsTokened(text, items, 1, depth + 1, restricted);
      BothTokened(text, approved, MarkPairs(items, 1, depth + 1, restricted));
    } else if name == "foreach" && |items| >= 3 {
      SymbolTokened(text, items[1], restricted);
      AllTokened(text, items, 2, depth + 1, restricted);
      BothTokened(text, approved, MarkTarget(items[1], restricted));
      BothTokened(text, Both(approved, MarkTarget(items[1], restricted)), MarkAll(items, 2, depth + 1, restricted));
    } else if name == "cond" {
      ClausesTokened(text, items, 1, depth + 1, restricted);
      BothTokened(text, approved, MarkClauses(items, 1, depth + 1, restricted));
    } else if name == "eval" && |items| == 2 && QuoteForm(items[1]) {
      assert Tokens(text, items[1]) && Tokens(text, items[1].items[1]);
      assert items[1] < node && items[1].items[1] < items[1];
      CodeTokened(text, items[1].items[1], depth + 1, restricted);
      BothTokened(text, approved, MarkCode(items[1].items[1], depth + 1, restricted));
    } else if name == "ssget" {
      SsgetTokened(text, node, depth, restricted);
    }
  }

  lemma {:induction false} CodeTokened(text: string, node: Node, depth: nat, restricted: string -> bool)
    requires Tokens(text, node)
    ensures Tokened(text, MarkCode(node, depth, restricted))
    decreases node, 3
  {
    hide Token, Tokened, SymbolTier, MarkAll, MarkLambda, MarkSpecial, MarkArguments;
    NoneTokened(text);
    FoundTokened(text, node, Never);
    SymbolTokened(text, node, restricted);
    if node.List? && node.items != [] && depth <= MAX_DEPTH {
      var head, items := node.items[0], node.items;
      forall tier {
        FoundTokened(text, head, tier);
      }
      SymbolTokened(text, head, restricted);
      AllTokened(text, items, 1, depth + 1, restricted);
      if LambdaForm(head) {
        LambdaTokened(text, head, depth + 1, restricted);
        BothTokened(text, MarkLambda(head, depth + 1, restricted), MarkAll(items, 1, depth + 1, restricted));
      } else if head.Symbol? {
        var name := head.text;
        SpecialTokened(text, name, node, depth, restricted);
        ArgumentsTokened(text, items, 1, FunctionIndex(name) + 1, depth + 1, restricted);
        BothTokened(text, Found(head, SymbolTier(name)), MarkAll(items, 1, depth + 1, restricted));
        BothTokened(text, LispWalk.Approved(head), MarkAll(items, 1, depth + 1, restricted));
        BothTokened(text, LispWalk.Approved(head), MarkArguments(items, 1, FunctionIndex(name) + 1, depth + 1, restricted));
      }
    }
  }

  // ── assess ──

  /** Some place of the forms is one no tier runs; or some place is outside the read tier; or none is. */
  ghost predicate TierOfForms(tier: VerdictTier, forms: seq<Node>, restricted: string -> bool) {
    && (tier.SomeNever? <==> exists q :: InForms(forms, q) && Need(q, restricted) == Never)
    && (tier.AllRead? <==> forall q | InForms(forms, q) :: Need(q, restricted) == Read)
  }

  /** `assess`: the forms read, each walked. */
  method Assess(text: string, restricted: string -> bool) returns (verdict: Verdict, forms: seq<Node>)
    ensures verdict.Unread? ==> !Typed(text) || forall fs :: !Spaced(text, 0, |text|, fs)
    ensures verdict.Verdict? ==>
      && Typed(text) && Spaced(text, 0, |text|, forms)
      && verdict.marks == MarkAll(forms, 0, 0, restricted) && TierOfForms(verdict.tier, forms, restricted)
  {
    hide Spaced, Run, MarkCode, Need, Within, TierOfForms;
    var reading := ReadForms(text);
    forms := [];
    if reading.Unreadable? {
      return Unread, [];
    }
    forms := reading.forms;
    var walk := new Walk(restricted);
    for k := 0 to |forms|
      invariant Both(walk.Seen(), MarkAll(forms, k, 0, restricted)) == MarkAll(forms, 0, 0, restricted)
      invariant walk.restricted == restricted && fresh(walk)
    {
      BothTwice(walk.Seen(), MarkCode(forms[k], 0, restricted), MarkAll(forms, k + 1, 0, restricted));
      walk.Code(forms[k], 0);
    }
    BothTwice(walk.Seen(), NONE, NONE);
    var marks := Marks(walk.findings, walk.approved);
    var tier := if exists i :: 0 <= i < |marks.findings| && marks.findings[i].tier == Never then SomeNever
                else if marks.findings != [] then SomeOther
                else AllRead;
    TiersMeet(marks, tier, forms, restricted);
    verdict := Verdict(tier, marks);
  }

  lemma TiersMeet(marks: Marks, tier: VerdictTier, forms: seq<Node>, restricted: string -> bool)
    requires marks == MarkAll(forms, 0, 0, restricted)
    requires tier.SomeNever? <==> exists i :: 0 <= i < |marks.findings| && marks.findings[i].tier == Never
    requires tier.AllRead? <==> marks.findings == []
    ensures TierOfForms(tier, forms, restricted)
  {
    hide MarkAll, Need, InForms;
    FormsFree(forms, true, restricted);
    FormsFree(forms, false, restricted);
    forall q ensures Fits(q, true, restricted) <==> Need(q, restricted) == Read {
    }
    forall q ensures Fits(q, false, restricted) <==> Need(q, restricted) != Never {
    }
  }

  predicate Covered(approved: seq<Span>, hit: Span) {
    exists i :: 0 <= i < |approved| && approved[i].start <= hit.start && hit.end <= approved[i].end
  }

  /** A stretch of the token of a name at a place of the forms: code, so no comment, string or delimiter. */
  ghost predicate InToken(text: string, forms: seq<Node>, hit: Span) {
    exists q, span :: InForms(forms, q) && Approves(q, span) && Token(text, span.start, span.end)
                      && span.start <= hit.start && hit.end <= span.end
  }

  /** What the walk and the denylist together let through under `read`: no place of the forms is one no tier
      runs; and every place is of the read tier and every match a stretch of a name's token, or there is no match. */
  ghost predicate Admits(text: string, forms: seq<Node>, hits: seq<Span>, restricted: string -> bool) {
    && (forall q | InForms(forms, q) :: Need(q, restricted) != Never)
    && (hits != [] ==>
          && (forall q | InForms(forms, q) :: Need(q, restricted) == Read)
          && (forall i | 0 <= i < |hits| :: InToken(text, forms, hits[i])))
  }

  /** `check_expression`. Under `read` a text passes if and only if it reads to forms the two let through; and
      then no name that no tier runs is evaluated, called, quoted, bound or passed anywhere in them. */
  method CheckExpression(text: string, policy: Policy, restricted: string -> bool, scan: string -> seq<Span>)
    returns (passed: bool, forms: seq<Node>)
    ensures policy.Off? ==> passed
    ensures policy.Denylist? ==> (passed <==> scan(Blanked(text, 0)) == [])
    ensures policy.ReadTier? ==>
      (passed <==> Typed(text) && exists fs :: Spaced(text, 0, |text|, fs) && Admits(text, fs, scan(Blanked(text, 0)), restricted))
    ensures policy.ReadTier? && passed ==>
      Spaced(text, 0, |text|, forms) && Admits(text, forms, scan(Blanked(text, 0)), restricted)
    ensures policy.ReadTier? && passed ==>
      forall q | InForms(forms, q) && Named(q).Some? :: SymbolTier(Named(q).value) != Never
  {
    hide Spaced, MarkAll, Blanked, Token, Tokened, Need, InForms, InToken, Named, SymbolTier;
    forms := [];
    if policy.Off? {
      return true, [];
    }
    var hits := scan(Blanked(text, 0));
    if policy.Denylist? {
      return hits == [], [];
    }
    var verdict;
    verdict, forms := Assess(text, restricted);
    if verdict.Unread? {
      return false, forms;
    }
    forall fs | Spaced(text, 0, |text|, fs) ensures fs == forms {
      ReadsOneWay(text, fs, forms);
    }
    if verdict.tier.SomeNever? {
      return false, forms;
    }
    forall q | InForms(forms, q) && Named(q).Some? ensures SymbolTier(Named(q).value) != Never {
      NamedNeeds(q, restricted);
    }
    if verdict.tier.SomeOther? {
      return hits == [], forms;
    }
    var approved := verdict.marks.approved;
    passed := forall i | 0 <= i < |hits| :: Covered(approved, hits[i]);
    forall i | 0 <= i < |hits| ensures Covered(approved, hits[i]) <==> InToken(text, forms, hits[i]) {
      CoveredIsInToken(text, forms, hits[i], restricted);
    }
  }

  /** In forms of the read tier the approved spans cover a match exactly when it is a stretch of a name's token. */
  lemma CoveredIsInToken(text: string, forms: seq<Node>, hit: Span, restricted: string -> bool)
    requires Spaced(text, 0, |text|, forms) && forall q | InForms(forms, q) :: Need(q, restricted) == Read
    ensures Covered(MarkAll(forms, 0, 0, restricted).approved, hit) <==> InToken(text, forms, hit)
  {
    hide Spaced, MarkAll, Token, Need, InForms, Approves;
    var approved := MarkAll(forms, 0, 0, restricted).approved;
    FormsTokened(text, forms, restricted);
    forall span ensures span in approved <==> exists q :: InForms(forms, q) && Approves(q, span) {
      FormsApproved(forms, span, restricted);
    }
    if Covered(approved, hit) {
      var i :| 0 <= i < |approved| && approved[i].start <= hit.start && hit.end <= approved[i].end;
      assert approved[i] in approved && Token(text, approved[i].start, approved[i].end);
    }
    if InToken(text, forms, hit) {
      var q, span :| InForms(forms, q) && Approves(q, span) && Token(text, span.start, span.end)
                     && span.start <= hit.start && hit.end <= span.end;
      assert span in approved;
      var i :| 0 <= i < |approved| && approved[i] == span;
    }
  }

  lemma FormsTokened(text: string, forms: seq<Node>, restricted: string -> bool)
    requires Spaced(text, 0, |text|, forms)
    ensures Tokened(text, MarkAll(forms, 0, 0, restricted))
  {
    hide Spaced, Token, Spells, MarkAll, Tokened;
    SpacedApart(text, 0, |text|, forms);
    forall k | 0 <= k < |forms| ensures Tokens(text, forms[k]) {
      SpelledTokens(text, forms[k]);
    }
    AllTokened(text, forms, 0, 0, restricted);
  }

  /** So what a `read` verdict lets through runs safely: each form in turn, from a session in which
      nothing of the read tier was rebound, ends by its own height, calling only the read tier. */
  lemma PassedTextRunsSafely(m: Machine, forms: seq<Node>, restricted: string -> bool, env: Env, calls: seq<string>, fuel: nat)
    requires forall q | InForms(forms, q) :: Need(q, restricted) == Read
    requires Kept(env, calls) && fuel >= Tallest(forms, 0)
    ensures SafeList(EvalAll(m, forms, 0, env, calls, fuel))
  {
    hide MarkAll, Need, InForms, Kept, Tallest, EvalAll, SafeList;
    FormsFree(forms, true, restricted);
    EvalAllSafe(m, forms, 0, 0, restricted, env, calls, fuel);
  }
}
