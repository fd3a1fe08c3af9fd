/** The denylist's string literals, `"(?:[^"\\]|\\.)*"` in security.py, against the reader's strings. */
module LispLiterals {

  import opened Wrappers
  import opened LispReader
  import opened LispScanners

  datatype Span = Span(start: nat, end: nat)

  /** The pattern's closing quote; its dot is no newline, so it gives up at a backslash-newline. */
  function LiteralEnd(text: string, j: nat): (close: Option<nat>)
    ensures close.Some? ==> j <= close.value < |text| && text[close.value] == '"'
    decreases |text| - j
  {
    if j >= |text| then None
    else if text[j] == '"' then Some(j)
    else if text[j] != '\\' then LiteralEnd(text, j + 1)
    else if j + 1 < |text| && text[j + 1] != '\n' then LiteralEnd(text, j + 2)
    else None
  }

  /** The matches of the pattern from `i`, each found after the one before. */
  function Literals(text: string, i: nat): seq<Span>
    decreases |text| - i
  {
    if i >= |text| then []
    else if text[i] == '"' && LiteralEnd(text, i + 1).Some? then
      var end := LiteralEnd(text, i + 1).value + 1;
      [Span(i, end)] + Literals(text, end)
    else Literals(text, i + 1)
  }

  /** The text the denylist is matched against: each literal's contents blanked. */
  function Blanked(text: string, i: nat): (blanked: string)
    ensures |blanked| == if i <= |text| then |text| - i else 0
    decreases |text| - i
  {
    if i >= |text| then ""
    else if text[i] == '"' && LiteralEnd(text, i + 1).Some? then
      var close := LiteralEnd(text, i + 1).value;
      "\"" + seq(close - i - 1, _ => ' ') + "\"" + Blanked(text, close + 1)
    else [text[i]] + Blanked(text, i + 1)
  }

  /** Strictly between the quotes of one of the spans. */
  predicate Inside(spans: seq<Span>, k: nat) {
    exists n :: 0 <= n < |spans| && spans[n].start < k < spans[n].end - 1
  }

  lemma BlankedLiteral(text: string, i: nat, close: nat, k: nat)
    requires i <= k < |text| && text[i] == '"' && LiteralEnd(text, i + 1) == Some(close)
    ensures k <= close ==> Blanked(text, i)[k - i] == if i < k < close then ' ' else '"'
    ensures k > close ==> Blanked(text, i)[k - i] == Blanked(text, close + 1)[k - close - 1]
  {
    var head := "\"" + seq(close - i - 1, _ => ' ') + "\"";
    assert |head| == close - i + 1;
    assert Blanked(text, i) == head + Blanked(text, close + 1);
  }

  lemma BlankedOther(text: string, i: nat, k: nat)
    requires i <= k < |text| && !(text[i] == '"' && LiteralEnd(text, i + 1).Some?)
    ensures Blanked(text, i)[k - i] == if k == i then text[i] else Blanked(text, i + 1)[k - i - 1]
  {
  }

  /** Blanking keeps every offset: a character stays itself unless it is inside a literal. */
  lemma {:induction false} BlankedAt(text: string, i: nat, k: nat)
    requires i <= k < |text|
    ensures Blanked(text, i)[k - i] == if Inside(Literals(text, i), k) then ' ' else text[k]
    decreases |text| - i
  {
    hide Inside, LiteralEnd, Blanked;
    if text[i] == '"' && LiteralEnd(text, i + 1).Some? {
      var close := LiteralEnd(text, i + 1).value;
      BlankedLiteral(text, i, close, k);
      if k > close {
        BlankedAt(text, close + 1, k);
        InsideRest(Span(i, close + 1), Literals(text, close + 1), k);
      } else {
        LiteralsAfter(text, close + 1);
        NotInside(Literals(text, close + 1), k);
        InsideFirst(Span(i, close + 1), Literals(text, close + 1), k);
      }
    } else {
      BlankedOther(text, i, k);
      if k > i {
        BlankedAt(text, i + 1, k);
      } else {
        LiteralsAfter(text, i + 1);
        NotInside(Literals(text, i + 1), k);
      }
    }
  }

  lemma InsideFirst(first: Span, rest: seq<Span>, k: nat)
    requires !Inside(rest, k)
    ensures Inside([first] + rest, k) <==> first.start < k < first.end - 1
  {
    var spans := [first] + rest;
    assert spans[0] == first;
    if Inside(spans, k) {
      var n :| 0 <= n < |spans| && spans[n].start < k < spans[n].end - 1;
      assert n > 0 ==> spans[n] == rest[n - 1];
    }
  }

  lemma NotInside(spans: seq<Span>, k: nat)
    requires forall n | 0 <= n < |spans| :: k < spans[n].start
    ensures !Inside(spans, k)
  {
  }

  lemma InsideRest(first: Span, rest: seq<Span>, k: nat)
    requires k >= first.end
    ensures Inside([first] + rest, k) <==> Inside(rest, k)
  {
    var spans := [first] + rest;
    if Inside(spans, k) {
      var n :| 0 <= n < |spans| && spans[n].start < k < spans[n].end - 1;
      assert rest[n - 1] == spans[n];
    }
    if Inside(rest, k) {
      var n :| 0 <= n < |rest| && rest[n].start < k < rest[n].end - 1;
      assert spans[n + 1] == rest[n];
    }
  }

  lemma {:induction false} LiteralsAfter(text: string, i: nat)
    ensures forall n | 0 <= n < |Literals(text, i)| :: i <= Literals(text, i)[n].start
    decreases |text| - i
  {
    if i < |text| {
      if text[i] == '"' && LiteralEnd(text, i + 1).Some? {
        LiteralsAfter(text, LiteralEnd(text, i + 1).value + 1);
      } else {
        LiteralsAfter(text, i + 1);
      }
    }
  }

  // ── the reader's strings ──

  function Strings(node: Node): seq<Span>
    decreases node
  {
    match node
    case Str(i, j, _) => [Span(i, j)]
    case List(_, _, items, tail) => StringsOf(items) + (match tail case None => [] case Some(last) => Strings(last))
    case _ => []
  }

  function StringsOf(items: seq<Node>): seq<Span>
    decreases items
  {
    if items == [] then [] else Strings(items[0]) + StringsOf(items[1..])
  }

  /** A string's contents hold a backslash before a newline. */
  predicate Continued(raw: string) {
    raw != "" &&
    if raw[0] == '\\' then |raw| > 1 && (raw[1] == '\n' || Continued(raw[2..]))
    else Continued(raw[1..])
  }

  predicate Clean(node: Node)
    decreases node
  {
    match node
    case Str(_, _, raw) => !Continued(raw)
    case List(_, _, items, tail) => CleanAll(items) && (tail.Some? ==> Clean(tail.value))
    case _ => true
  }

  predicate CleanAll(items: seq<Node>)
    decreases items
  {
    items == [] || (Clean(items[0]) && CleanAll(items[1..]))
  }

  /** On a string the reader closes, the pattern finds the same close or, at a backslash-newline,
      none. */
  lemma {:induction false} SameClose(text: string, j: nat, close: nat)
    requires StringEnd(text, j) == Some(close)
    ensures LiteralEnd(text, j) == if Continued(text[j..close]) then None else Some(close)
    decreases |text| - j
  {
    if text[j] == '\\' {
      assert text[j + 2..close] == text[j..close][2..];
      SameClose(text, j + 2, close);
    } else if text[j] != '"' {
      assert text[j + 1..close] == text[j..close][1..];
      SameClose(text, j + 1, close);
    }
  }

  /** No quote between: no literal begins there. */
  lemma {:induction false} NoLiteral(text: string, i: nat, j: nat)
    requires i <= j <= |text| && forall k | i <= k < j :: text[k] != '"'
    ensures Literals(text, i) == Literals(text, j)
    decreases j - i
  {
    if i < j {
      NoLiteral(text, i + 1, j);
    }
  }

  lemma {:induction false} GapLiterals(text: string, i: nat, j: nat)
    requires Gap(text, i, j)
    ensures i <= j && Literals(text, i) == Literals(text, j)
    decreases j - i
  {
    if i < j {
      NoLiteral(text, i, BlankEnd(text, i).value);
      GapLiterals(text, BlankEnd(text, i).value, j);
    }
  }

  lemma DottedLiterals(text: string, i: nat, j: nat)
    requires Dotted(text, i, j)
    ensures Literals(text, i) == Literals(text, j)
  {
    hide Gap;
    var d :| i <= d < j && DotAt(text, d) && Gap(text, i, d) && Gap(text, d + 1, j);
    GapLiterals(text, i, d);
    NoLiteral(text, d, d + 1);
    GapLiterals(text, d + 1, j);
  }

  /** From `i` to `j` the literals are these spans when `clean`, and otherwise not these, whatever
      follows. */
  ghost predicate Agree(text: string, i: nat, j: nat, spans: seq<Span>, clean: bool) {
    if clean then Literals(text, i) == spans + Literals(text, j)
    else forall rest: seq<Span> :: Literals(text, i) != spans + rest
  }

  lemma Cancel(a: seq<Span>, x: seq<Span>, y: seq<Span>)
    ensures a + x == a + y ==> x == y
  {
    assert (a + x)[|a|..] == x && (a + y)[|a|..] == y;
  }

  lemma AgreeOn(text: string, i: nat, k: nat, j: nat, a: seq<Span>, b: seq<Span>, cleanA: bool, cleanB: bool)
    requires Agree(text, i, k, a, cleanA) && Agree(text, k, j, b, cleanB)
    ensures Agree(text, i, j, a + b, cleanA && cleanB)
  {
    forall rest: seq<Span> ensures a + b + rest == a + (b + rest) {
    }
    if cleanA && !cleanB {
      forall rest: seq<Span> ensures Literals(text, i) != a + b + rest {
        Cancel(a, Literals(text, k), b + rest);
      }
    } else if cleanA {
      assert a + (b + Literals(text, j)) == a + b + Literals(text, j);
    }
  }

  lemma AgreeFrom(text: string, i: nat, k: nat, j: nat, l: nat, spans: seq<Span>, clean: bool)
    requires Literals(text, i) == Literals(text, k) && Literals(text, j) == Literals(text, l)
    requires Agree(text, k, j, spans, clean)
    ensures Agree(text, i, l, spans, clean)
  {
  }

  lemma AtomAgrees(text: string, node: Node)
    requires Spells(text, node) && !node.List?
    ensures Agree(text, node.offset, node.end, Strings(node), Clean(node))
  {
    var i, j := node.offset, node.end;
    assert AtomSpells(text, node);
    if node.Str? {
      SameClose(text, i + 1, j - 1);
      if Continued(node.text) {
        LiteralsAfter(text, i + 1);
        forall rest: seq<Span> ensures Literals(text, i) != [Span(i, j)] + rest {
          assert ([Span(i, j)] + rest)[0].start == i;
        }
      }
    } else {
      NoLiteral(text, i, j);
      assert [] + Literals(text, j) == Literals(text, j);
    }
  }

  lemma {:induction false} SpellsAgrees(text: string, node: Node)
    requires Spells(text, node)
    ensures Agree(text, node.offset, node.end, Strings(node), Clean(node))
    decreases Width(node), 1
  {
    hide Gap, AtomSpells, Spaced, BlankEnd, Dotted, Agree;
    var i, j := node.offset, node.end;
    if !node.List? {
      AtomAgrees(text, node);
    } else if text[i] == '\'' {
      assert QuotedSpells(text, node);
      var x := node.items[1];
      NoLiteral(text, i, i + 1);
      GapLiterals(text, i + 1, x.offset);
      SpellsAgrees(text, x);
      AgreeFrom(text, i, x.offset, j, j, Strings(x), Clean(x));
      QuotedStrings(node);
    } else {
      InsideAgrees(text, node);
      NoLiteral(text, i, i + 1);
      NoLiteral(text, j - 1, j);
      AgreeFrom(text, i, i + 1, j - 1, j, Strings(node), Clean(node));
    }
  }

  lemma QuotedStrings(node: Node)
    requires node.List? && node.tail.None? && |node.items| == 2 && node.items[0] == QuoteAt(node.offset)
    ensures Strings(node) == Strings(node.items[1]) && (Clean(node) <==> Clean(node.items[1]))
  {
    var rest := node.items[1..];
    assert rest[1..] == [] && rest[0] == node.items[1];
    assert StringsOf(rest) == Strings(node.items[1]) + [] == Strings(node.items[1]);
    assert StringsOf(node.items) == [] + StringsOf(rest) == StringsOf(rest);
    assert Clean(node.items[0]) && (CleanAll(rest) <==> Clean(node.items[1]));
  }

  lemma {:induction false} InsideAgrees(text: string, node: Node)
    requires Spells(text, node) && node.List? && text[node.offset] == '('
    ensures node.offset + 1 < node.end && text[node.end - 1] == ')'
    ensures Agree(text, node.offset + 1, node.end - 1, Strings(node), Clean(node))
    decreases Width(node), 0
  {
    hide Gap, AtomSpells, QuotedSpells, Spaced, BlankEnd, Dotted, Agree;
    assert ListSpells(text, node);
    var i, j, items := node.offset + 1, node.end - 1, node.items;
    match node.tail
    case None =>
      SpacedAgrees(text, i, j, items);
      assert StringsOf(items) + [] == StringsOf(items);
    case Some(last) =>
      var e := LastEnd(i, items);
      SpacedWithin(text, i, e, items);
      SpacedAgrees(text, i, e, items);
      DottedLiterals(text, e, last.offset);
      SpellsAgrees(text, last);
      GapLiterals(text, last.end, j);
      AgreeFrom(text, e, last.offset, last.end, j, Strings(last), Clean(last));
      AgreeOn(text, i, e, j, StringsOf(items), Strings(last), CleanAll(items), Clean(last));
  }

  lemma {:induction false} SpacedAgrees(text: string, i: nat, j: nat, items: seq<Node>)
    requires Spaced(text, i, j, items)
    ensures Agree(text, i, j, StringsOf(items), CleanAll(items))
    decreases if i <= j then j - i else 0, 3
  {
    if items == [] {
      GapLiterals(text, i, j);
      assert [] + Literals(text, j) == Literals(text, j);
    } else {
      ItemsAgree(text, i, j, items);
    }
  }

  lemma {:induction false} ItemsAgree(text: string, i: nat, j: nat, items: seq<Node>)
    requires Spaced(text, i, j, items) && items != []
    ensures Agree(text, i, j, StringsOf(items), CleanAll(items))
    decreases if i <= j then j - i else 0, 2
  {
    hide Gap, Spells, Agree;
    GapLiterals(text, i, items[0].offset);
    SpellsAgrees(text, items[0]);
    AgreeFrom(text, i, items[0].offset, items[0].end, items[0].end, Strings(items[0]), Clean(items[0]));
    SpacedAgrees(text, items[0].end, j, items[1..]);
    AgreeOn(text, i, items[0].end, j, Strings(items[0]), StringsOf(items[1..]), Clean(items[0]), CleanAll(items[1..]));
  }

  /** Of every readable text, the literals the denylist blanks are exactly the reader's strings, at
      their own offsets, exactly when no string holds a backslash before a newline. */
  lemma LiteralsAreStrings(text: string, forms: seq<Node>)
    requires Spaced(text, 0, |text|, forms)
    ensures Literals(text, 0) == StringsOf(forms) <==> CleanAll(forms)
  {
    hide Spaced;
    SpacedAgrees(text, 0, |text|, forms);
    assert Literals(text, |text|) == [];
    assert StringsOf(forms) + [] == StringsOf(forms);
  }
}
