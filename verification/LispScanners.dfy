/** What the reader's forest tells of its text: spans nest, the wrapped text reads as one list, and
    scanners that know less than the reader - one for parentheses, one for string literals - see the
    same text (security_lisp.py against security.py). */
module LispScanners {

  import opened Wrappers
  import opened LispReader

  // ── spans ──

  /** Items stand between `i` and `j`, in order and apart. */
  predicate Apart(i: nat, j: nat, items: seq<Node>) {
    && (forall k | 0 <= k < |items| :: i <= items[k].offset < items[k].end <= j)
    && (forall a, b | 0 <= a < b < |items| :: items[a].end <= items[b].offset)
  }

  predicate Nested(node: Node)
    decreases node
  {
    node.List? ==>
      && Apart(node.offset, node.end, node.items)
      && (forall k | 0 <= k < |node.items| :: Nested(node.items[k]))
      && (node.tail.Some? ==>
            LastEnd(node.offset, node.items) <= node.tail.value.offset < node.tail.value.end < node.end && Nested(node.tail.value))
  }

  lemma {:induction false} SpacedApart(text: string, i: nat, j: nat, items: seq<Node>)
    requires Spaced(text, i, j, items)
    ensures Apart(i, j, items) && forall k | 0 <= k < |items| :: Spells(text, items[k])
    decreases |items|
  {
    if items != [] {
      SpacedApart(text, items[0].end, j, items[1..]);
      forall k | 0 < k < |items| ensures Spells(text, items[k]) && items[0].end <= items[k].offset < items[k].end <= j {
        assert items[k] == items[1..][k - 1];
      }
      forall a, b | 0 < a < b < |items| ensures items[a].end <= items[b].offset {
        assert items[a] == items[1..][a - 1] && items[b] == items[1..][b - 1];
      }
    }
  }

  lemma {:induction false} SpellsNested(text: string, node: Node)
    requires Spells(text, node)
    ensures Nested(node)
    decreases node
  {
    hide Gap, AtomSpells, Dotted, Spaced;
    if node.List? {
      var i, items := node.offset, node.items;
      if text[i] == '\'' {
        SpellsNested(text, items[1]);
        assert Nested(items[0]);
        assert forall k | 0 <= k < 2 :: items[k] == if k == 0 then items[0] else items[1];
      } else {
        SpacedApart(text, i + 1, if node.tail.None? then node.end - 1 else LastEnd(i + 1, items), items);
        forall k | 0 <= k < |items| ensures Nested(items[k]) {
          SpellsNested(text, items[k]);
        }
        if node.tail.Some? {
          SpellsNested(text, node.tail.value);
        }
      }
    }
  }

  /** Of every readable text: siblings are ordered and disjoint, and every span lies inside its
      parent's. */
  lemma SpansNest(text: string, forms: seq<Node>)
    requires Spaced(text, 0, |text|, forms)
    ensures Apart(0, |text|, forms) && forall k | 0 <= k < |forms| :: Nested(forms[k])
  {
    SpacedApart(text, 0, |text|, forms);
    forall k | 0 <= k < |forms| ensures Nested(forms[k]) {
      SpellsNested(text, forms[k]);
    }
  }

  // ── the wrapped text ──

  function Shift(node: Node, d: nat): (moved: Node)
    ensures moved.offset == node.offset + d && moved.end == node.end + d && (moved.List? <==> node.List?)
    decreases node
  {
    match node
    case Symbol(i, j, name, synthetic) => Symbol(i + d, j + d, name, synthetic)
    case Number(i, j, digits) => Number(i + d, j + d, digits)
    case Str(i, j, raw) => Str(i + d, j + d, raw)
    case List(i, j, items, tail) =>
      List(i + d, j + d, ShiftAll(items, d), match tail case None => None case Some(last) => Some(Shift(last, d)))
  }

  function ShiftAll(items: seq<Node>, d: nat): (moved: seq<Node>)
    ensures |moved| == |items|
    ensures forall k | 0 <= k < |items| :: moved[k] == Shift(items[k], d)
    decreases items
  {
    if items == [] then [] else [Shift(items[0], d)] + ShiftAll(items[1..], d)
  }

  /** `text` stands at `d` in `whole`, the end or a delimiter after it. */
  predicate Embedded(text: string, whole: string, d: nat) {
    && d + |text| <= |whole|
    && (forall k | 0 <= k < |text| :: whole[k + d] == text[k])
    && (d + |text| == |whole| || Delimiter(whole[d + |text|]))
  }

  lemma {:induction false} StringEndMoves(text: string, whole: string, d: nat, j: nat)
    requires Embedded(text, whole, d) && StringEnd(text, j).Some?
    ensures StringEnd(whole, j + d) == Some(StringEnd(text, j).value + d)
    decreases |text| - j
  {
    assert whole[j + d] == text[j];
    if text[j] == '\\' {
      StringEndMoves(text, whole, d, j + 2);
    } else if text[j] != '"' {
      StringEndMoves(text, whole, d, j + 1);
    }
  }

  lemma {:induction false} CloseMoves(text: string, whole: string, d: nat, k: nat)
    requires Embedded(text, whole, d) && FindClose(text, k).Some?
    ensures FindClose(whole, k + d) == Some(FindClose(text, k).value + d)
    decreases |text| - k
  {
    assert whole[k + d] == text[k] && whole[k + 1 + d] == text[k + 1];
    if !(text[k] == '|' && text[k + 1] == ';') {
      CloseMoves(text, whole, d, k + 1);
    }
  }

  lemma {:induction false} NewlineMoves(text: string, whole: string, d: nat, k: nat)
    requires Embedded(text, whole, d) && FindNewline(text, k).Some?
    ensures FindNewline(whole, k + d) == Some(FindNewline(text, k).value + d)
    decreases |text| - k
  {
    assert whole[k + d] == text[k];
    if text[k] != '\n' {
      NewlineMoves(text, whole, d, k + 1);
    }
  }

  lemma BlankMoves(text: string, whole: string, d: nat, i: nat)
    requires Embedded(text, whole, d) && i < |text| && BlankEnd(text, i).Some?
    ensures i + d < |whole| && BlankEnd(whole, i + d) == Some(BlankEnd(text, i).value + d)
  {
    assert whole[i + d] == text[i];
    if !Space(text[i]) {
      var end := CommentEnd(text, i).value;
      if i + 1 < |text| && text[i + 1] == '|' {
        assert whole[i + 1 + d] == text[i + 1];
        CloseMoves(text, whole, d, i + 2);
      } else {
        NewlineMoves(text, whole, d, i);
        NextIsNotBar(text, whole, d, i);
      }
      forall k | i + d <= k < end + d ensures !Odd(whole[k]) {
        assert whole[k - d + d] == text[k - d];
      }
    }
  }

  lemma NextIsNotBar(text: string, whole: string, d: nat, i: nat)
    requires Embedded(text, whole, d) && i < |text| && !(i + 1 < |text| && text[i + 1] == '|')
    ensures !(i + d + 1 < |whole| && whole[i + d + 1] == '|')
  {
    if i + 1 < |text| {
      assert whole[i + 1 + d] == text[i + 1];
    }
  }

  lemma {:induction false} GapMoves(text: string, whole: string, d: nat, i: nat, j: nat)
    requires Embedded(text, whole, d) && Gap(text, i, j)
    ensures Gap(whole, i + d, j + d)
    decreases j - i
  {
    if i < j {
      BlankMoves(text, whole, d, i);
      GapMoves(text, whole, d, BlankEnd(text, i).value, j);
    }
  }

  lemma TokenMoves(text: string, whole: string, d: nat, i: nat, j: nat)
    requires Embedded(text, whole, d) && Token(text, i, j)
    ensures Token(whole, i + d, j + d) && whole[i + d..j + d] == text[i..j]
  {
    forall k | i + d <= k < j + d ensures !Delimiter(whole[k]) {
      assert whole[k - d + d] == text[k - d];
    }
    assert whole[i + d] == text[i];
    if j < |text| {
      assert whole[j + d] == text[j];
    }
  }

  lemma DottedMoves(text: string, whole: string, d: nat, i: nat, j: nat)
    requires Embedded(text, whole, d) && Dotted(text, i, j)
    ensures Dotted(whole, i + d, j + d)
  {
    hide Gap, Embedded;
    var at :| i <= at < j && DotAt(text, at) && Gap(text, i, at) && Gap(text, at + 1, j);
    TokenMoves(text, whole, d, at, at + 1);
    assert whole[at + d] == text[at];
    GapMoves(text, whole, d, i, at);
    GapMoves(text, whole, d, at + 1, j);
    assert DotAt(whole, at + d);
  }

  lemma AtomMoves(text: string, whole: string, d: nat, node: Node)
    requires Embedded(text, whole, d) && Spells(text, node) && !node.List?
    ensures Spells(whole, Shift(node, d))
  {
    hide IsNumber, StringEnd, BlankEnd, Gap, QuotedSpells, ListSpells;
    assert AtomSpells(text, node);
    var i, j := node.offset, node.end;
    if node.Str? {
      StringMoves(text, whole, d, node);
    } else {
      TokenMoves(text, whole, d, i, j);
      assert AtomSpells(whole, Shift(node, d));
    }
  }

  lemma StringMoves(text: string, whole: string, d: nat, node: Node)
    requires Embedded(text, whole, d) && node.Str? && node.offset < node.end <= |text| && AtomSpells(text, node)
    ensures Spells(whole, Shift(node, d))
  {
    var i, j := node.offset, node.end;
    StringEndMoves(text, whole, d, i + 1);
    assert whole[i + d] == text[i];
    assert whole[i + d + 1..j + d - 1] == text[i + 1..j - 1];
    assert AtomSpells(whole, Shift(node, d));
  }

  lemma {:induction false} SpellsMoves(text: string, whole: string, d: nat, node: Node)
    requires Embedded(text, whole, d) && Spells(text, node)
    ensures Spells(whole, Shift(node, d))
    decreases Width(node), 2
  {
    if !node.List? {
      AtomMoves(text, whole, d, node);
    } else if text[node.offset] == '\'' {
      QuotedMoves(text, whole, d, node);
    } else {
      ListMoves(text, whole, d, node);
    }
  }

  lemma {:induction false} QuotedMoves(text: string, whole: string, d: nat, node: Node)
    requires Embedded(text, whole, d) && Spells(text, node) && node.List? && text[node.offset] == '\''
    ensures Spells(whole, Shift(node, d))
    decreases Width(node), 0
  {
    hide Gap, AtomSpells, ListSpells;
    var x := node.items[1];
    assert whole[node.offset + d] == text[node.offset];
    GapMoves(text, whole, d, node.offset + 1, x.offset);
    SpellsMoves(text, whole, d, x);
    assert ShiftAll(node.items, d) == [QuoteAt(node.offset + d), Shift(x, d)];
  }

  lemma {:induction false} ListMoves(text: string, whole: string, d: nat, node: Node)
    requires Embedded(text, whole, d) && Spells(text, node) && node.List? && text[node.offset] == '('
    ensures Spells(whole, Shift(node, d))
    decreases Width(node), 1
  {
    var i, j := node.offset, node.end;
    hide Spaced, Gap, Dotted, AtomSpells, QuotedSpells;
    assert ListSpells(text, node);
    assert whole[i + d] == text[i] && whole[j - 1 + d] == text[j - 1];
    if node.tail.None? {
      SpacedMoves(text, whole, d, i + 1, j - 1, node.items);
      assert ListSpells(whole, Shift(node, d));
    } else {
      var last, e := node.tail.value, LastEnd(i + 1, node.items);
      SpacedWithin(text, i + 1, e, node.items);
      TailMoves(text, whole, d, i + 1, e, j - 1, node.items, last);
      EndMoves(i + 1, node.items, d);
      TailForm(whole, Shift(node, d), e + d, Shift(last, d));
    }
  }

  lemma EndMoves(i: nat, items: seq<Node>, d: nat)
    ensures LastEnd(i + d, ShiftAll(items, d)) == LastEnd(i, items) + d
  {
  }

  lemma {:induction false} TailMoves(text: string, whole: string, d: nat, i: nat, e: nat, j: nat, items: seq<Node>, last: Node)
    requires Embedded(text, whole, d) && i <= e <= last.offset < last.end <= j <= |text|
    requires Spaced(text, i, e, items) && Dotted(text, e, last.offset) && Spells(text, last) && Gap(text, last.end, j)
    ensures Spaced(whole, i + d, e + d, ShiftAll(items, d)) && Dotted(whole, e + d, last.offset + d)
    ensures Spells(whole, Shift(last, d)) && Gap(whole, last.end + d, j + d)
    decreases j - i, 4
  {
    hide Spaced, Spells, Gap, Dotted;
    SpacedMoves(text, whole, d, i, e, items);
    DottedMoves(text, whole, d, e, last.offset);
    SpellsMoves(text, whole, d, last);
    GapMoves(text, whole, d, last.end, j);
  }

  lemma TailForm(text: string, node: Node, e: nat, last: Node)
    requires node.List? && node.offset + 1 < node.end <= |text| && node.tail == Some(last)
    requires text[node.offset] == '(' && text[node.end - 1] == ')'
    requires node.items != [] && e == LastEnd(node.offset + 1, node.items) <= last.offset < last.end <= node.end - 1
    requires Spaced(text, node.offset + 1, e, node.items) && Dotted(text, e, last.offset)
    requires Spells(text, last) && Gap(text, last.end, node.end - 1)
    ensures ListSpells(text, node)
  {
  }

  lemma {:induction false} SpacedMoves(text: string, whole: string, d: nat, i: nat, j: nat, items: seq<Node>)
    requires Embedded(text, whole, d) && Spaced(text, i, j, items)
    ensures Spaced(whole, i + d, j + d, ShiftAll(items, d))
    decreases if i <= j then j - i else 0, 3
  {
    hide Spells, Gap, Embedded;
    if items == [] {
      GapMoves(text, whole, d, i, j);
    } else {
      GapMoves(text, whole, d, i, items[0].offset);
      SpellsMoves(text, whole, d, items[0]);
      SpacedMoves(text, whole, d, items[0].end, j, items[1..]);
      assert ShiftAll(items, d)[1..] == ShiftAll(items[1..], d);
    }
  }

  function Wrapped(text: string): (whole: string)
    ensures |whole| == |text| + 2
  {
    "(" + text + ")"
  }

  /** Whatever reads, reads in parentheses to one list of exactly those forms, one to the right. */
  lemma WrappedReads(text: string, forms: seq<Node>)
    requires Typed(text) && Spaced(text, 0, |text|, forms)
    ensures Typed(Wrapped(text))
    ensures Run(Wrapped(text), 0, [BASE]) == Forms([List(0, |text| + 2, ShiftAll(forms, 1), None)])
  {
    hide Run, Spaced, Typed, Embedded;
    WrappedTyped(text);
    SpacedMoves(text, Wrapped(text), 1, 0, |text|, forms);
    WrappedSpells(text, ShiftAll(forms, 1));
    ReadsExactly(Wrapped(text), [List(0, |text| + 2, ShiftAll(forms, 1), None)]);
  }

  lemma WrappedTyped(text: string)
    requires Typed(text)
    ensures Typed(Wrapped(text)) && Embedded(text, Wrapped(text), 1)
  {
    var whole := Wrapped(text);
    forall k | 0 <= k < |whole| ensures !Control(whole[k]) {
      assert 0 < k <= |text| ==> whole[k] == text[k - 1];
    }
  }

  lemma WrappedSpells(text: string, forms: seq<Node>)
    requires Spaced(Wrapped(text), 1, |text| + 1, forms)
    ensures Spaced(Wrapped(text), 0, |text| + 2, [List(0, |text| + 2, forms, None)])
  {
    var node := List(0, |text| + 2, forms, None);
    assert ListSpells(Wrapped(text), node);
    OneForm(Wrapped(text), node);
  }

  lemma OneForm(text: string, node: Node)
    requires Spells(text, node) && node.offset == 0 && node.end == |text|
    ensures Spaced(text, 0, |text|, [node])
  {
    assert Spaced(text, |text|, |text|, []);
  }

  // ── a scanner for parentheses ──

  datatype Mode = Out | In | Escaped

  datatype Scanned = Scanned(mode: Mode, depth: nat)

  function ScanChar(c: char, at: Scanned): Option<Scanned> {
    match at.mode
    case Escaped => Some(at.(mode := In))
    case In => Some(at.(mode := if c == '\\' then Escaped else if c == '"' then Out else In))
    case Out =>
      if c == '"' then Some(at.(mode := In))
      else if c == '(' then Some(at.(depth := at.depth + 1))
      else if c == ')' then if at.depth == 0 then None else Some(at.(depth := at.depth - 1))
      else Some(at)
  }

  /** A scanner that knows strings but no comment; None once a parenthesis closes nothing. */
  function Scan(text: string, i: nat, j: nat, at: Scanned): Option<Scanned>
    requires j <= |text|
    decreases j - i
  {
    if i >= j then Some(at)
    else
      match ScanChar(text[i], at)
      case None => None
      case Some(next) => Scan(text, i + 1, j, next)
  }

  lemma {:induction false} ScanSplits(text: string, i: nat, k: nat, j: nat, at: Scanned)
    requires i <= k <= j <= |text| && Scan(text, i, k, at).Some?
    ensures Scan(text, i, j, at) == Scan(text, k, j, Scan(text, i, k, at).value)
    decreases k - i
  {
    if i < k {
      ScanSplits(text, i + 1, k, j, ScanChar(text[i], at).value);
    }
  }

  /** The scanner passes over a stretch, outside strings, at the same depth. */
  ghost predicate Passes(text: string, i: nat, j: nat) {
    i <= j <= |text| && forall depth: nat :: Scan(text, i, j, Scanned(Out, depth)) == Some(Scanned(Out, depth))
  }

  lemma PassesOn(text: string, i: nat, k: nat, j: nat)
    requires Passes(text, i, k) && Passes(text, k, j)
    ensures Passes(text, i, j)
  {
    forall depth: nat ensures Scan(text, i, j, Scanned(Out, depth)) == Some(Scanned(Out, depth)) {
      ScanSplits(text, i, k, j, Scanned(Out, depth));
    }
  }

  lemma {:induction false} PlainPasses(text: string, i: nat, j: nat)
    requires i <= j <= |text| && Plain(text, i, j)
    ensures Passes(text, i, j)
    decreases j - i
  {
    if i < j {
      PlainPasses(text, i + 1, j);
      assert !Odd(text[i]);
      assert forall depth: nat :: ScanChar(text[i], Scanned(Out, depth)) == Some(Scanned(Out, depth));
    }
  }

  lemma {:induction false} StringPasses(text: string, j: nat, depth: nat)
    requires StringEnd(text, j).Some?
    ensures Scan(text, j, StringEnd(text, j).value + 1, Scanned(In, depth)) == Some(Scanned(Out, depth))
    decreases |text| - j
  {
    var close := StringEnd(text, j).value;
    if text[j] == '\\' {
      StringPasses(text, j + 2, depth);
      assert Scan(text, j + 1, close + 1, Scanned(Escaped, depth)) == Scan(text, j + 2, close + 1, Scanned(In, depth));
    } else if text[j] != '"' {
      StringPasses(text, j + 1, depth);
    }
  }

  lemma {:induction false} GapPasses(text: string, i: nat, j: nat)
    requires Gap(text, i, j)
    ensures Passes(text, i, j)
    decreases j - i
  {
    if i < j {
      var end := BlankEnd(text, i).value;
      PlainPasses(text, i, end);
      GapPasses(text, end, j);
      PassesOn(text, i, end, j);
    }
  }

  lemma AtomPasses(text: string, node: Node)
    requires Spells(text, node) && !node.List?
    ensures Passes(text, node.offset, node.end)
  {
    if node.Str? {
      forall depth: nat ensures Scan(text, node.offset, node.end, Scanned(Out, depth)) == Some(Scanned(Out, depth)) {
        StringPasses(text, node.offset + 1, depth);
      }
    } else {
      PlainPasses(text, node.offset, node.end);
    }
  }

  lemma {:induction false} SpellsPasses(text: string, node: Node)
    requires Spells(text, node)
    ensures Passes(text, node.offset, node.end)
    decreases Width(node), 1
  {
    hide Gap, AtomSpells, Spaced, BlankEnd, Dotted, Passes;
    var i, j := node.offset, node.end;
    if !node.List? {
      AtomPasses(text, node);
    } else if text[i] == '\'' {
      PlainPasses(text, i, i + 1);
      GapPasses(text, i + 1, node.items[1].offset);
      SpellsPasses(text, node.items[1]);
      PassesOn(text, i, i + 1, node.items[1].offset);
      PassesOn(text, i, node.items[1].offset, j);
    } else {
      InsidePasses(text, node);
      ParenthesesPass(text, i, j);
    }
  }

  lemma ParenthesesPass(text: string, i: nat, j: nat)
    requires i + 1 < j <= |text| && text[i] == '(' && text[j - 1] == ')' && Passes(text, i + 1, j - 1)
    ensures Passes(text, i, j)
  {
    forall depth: nat ensures Scan(text, i, j, Scanned(Out, depth)) == Some(Scanned(Out, depth)) {
      PairScans(text, i, j, depth);
    }
  }

  lemma PairScans(text: string, i: nat, j: nat, depth: nat)
    requires i + 1 < j <= |text| && text[i] == '(' && text[j - 1] == ')'
    requires Scan(text, i + 1, j - 1, Scanned(Out, depth + 1)) == Some(Scanned(Out, depth + 1))
    ensures Scan(text, i, j, Scanned(Out, depth)) == Some(Scanned(Out, depth))
  {
    var inside := Scanned(Out, depth + 1);
    ScanSplits(text, i + 1, j - 1, j, inside);
    assert Scan(text, j - 1, j, inside) == ScanChar(text[j - 1], inside) by {
      hide ScanChar;
    }
  }

  lemma {:induction false} InsidePasses(text: string, node: Node)
    requires Spells(text, node) && node.List? && text[node.offset] == '('
    ensures Passes(text, node.offset + 1, node.end - 1)
    decreases Width(node), 0
  {
    hide Gap, AtomSpells, QuotedSpells, Spaced, Dotted, Passes, BlankEnd;
    var i, j := node.offset + 1, node.end - 1;
    assert ListSpells(text, node);
    match node.tail
    case None => SpacedPasses(text, i, j, node.items);
    case Some(last) =>
      var e := LastEnd(i, node.items);
      SpacedPasses(text, i, e, node.items);
      DottedPasses(text, e, last.offset);
      SpellsPasses(text, last);
      GapPasses(text, last.end, j);
      PassesOn(text, i, e, last.offset);
      PassesOn(text, i, last.offset, last.end);
      PassesOn(text, i, last.end, j);
  }

  lemma DottedPasses(text: string, i: nat, j: nat)
    requires Dotted(text, i, j)
    ensures Passes(text, i, j)
  {
    hide Gap, Passes;
    var d :| i <= d < j && DotAt(text, d) && Gap(text, i, d) && Gap(text, d + 1, j);
    GapPasses(text, i, d);
    PlainPasses(text, d, d + 1);
    GapPasses(text, d + 1, j);
    PassesOn(text, i, d, d + 1);
    PassesOn(text, i, d + 1, j);
  }

  lemma {:induction false} SpacedPasses(text: string, i: nat, j: nat, items: seq<Node>)
    requires Spaced(text, i, j, items)
    ensures Passes(text, i, j)
    decreases if i <= j then j - i else 0, 2
  {
    if items == [] {
      GapPasses(text, i, j);
    } else {
      GapPasses(text, i, items[0].offset);
      SpellsPasses(text, items[0]);
      SpacedPasses(text, items[0].end, j, items[1..]);
      PassesOn(text, i, items[0].offset, items[0].end);
      PassesOn(text, i, items[0].end, j);
    }
  }

  /** Of every readable text, that scanner finds the parentheses balanced and never negative. */
  lemma ParenthesesBalance(text: string, forms: seq<Node>)
    requires Spaced(text, 0, |text|, forms)
    ensures Scan(text, 0, |text|, Scanned(Out, 0)) == Some(Scanned(Out, 0))
  {
    SpacedPasses(text, 0, |text|, forms);
  }
}
