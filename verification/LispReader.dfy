/** The AutoLISP reader of security_lisp.py: an explicit stack of frames, proved to read exactly the
    texts of a recursive grammar, to exactly the forest the grammar gives them. Letters and digits are
    ASCII.

    `Spells` is the grammar: which stretch of a text is which datum. The proof goes both ways. What the
    grammar spells, the loop reads: a spelled datum is handed to the frame waiting for it, whatever else is
    on the stack. What the loop accepts, the grammar spells: an invariant says what each open frame has
    read so far, and what it still needs. */
module LispReader {

  import opened Wrappers

  /** A datum and where it stands. `synthetic` marks the `quote` a `'` expands to. */
  datatype Node =
    | List(offset: nat, end: nat, items: seq<Node>, tail: Option<Node>)
    | Symbol(offset: nat, end: nat, text: string, synthetic: bool)
    | Number(offset: nat, end: nat, text: string)
    | Str(offset: nat, end: nat, text: string)

  datatype Reading = Forms(forms: seq<Node>) | Unreadable(offset: nat)

  // ── characters and tokens ──

  predicate Space(c: char) {
    c in " \t\r\n" || c == 0x0C as char || c == 0x0B as char
  }

  predicate Delimiter(c: char) {
    c in " \t\r\n()\"';"
  }

  /** What SendCommand would type as a keystroke: a control character but tab, newline, return. */
  predicate Control(c: char) {
    c <= 0x08 as char || 0x0B as char <= c <= 0x0C as char || 0x0E as char <= c <= 0x1F as char || c == 0x7F as char
  }

  predicate Odd(c: char) {
    c in "()\""
  }

  function LowerChar(c: char): char {
    if 'A' <= c <= 'Z' then (c as int + 32) as char else c
  }

  function Lower(s: string): (l: string)
    ensures |l| == |s|
  {
    seq(|s|, i requires 0 <= i < |s| => LowerChar(s[i]))
  }

  predicate Digit(c: char) {
    '0' <= c <= '9'
  }

  function DropDigits(s: string): (rest: string)
    ensures |rest| <= |s|
  {
    if s != "" && Digit(s[0]) then DropDigits(s[1..]) else s
  }

  function DropSign(s: string): string {
    if s != "" && s[0] in "+-" then s[1..] else s
  }

  predicate Exponent(s: string) {
    s == "" || (s[0] in "eE" && var digits := DropSign(s[1..]); digits != "" && DropDigits(digits) == "")
  }

  /** `[+-]?(\d+\.?\d*([eE][+-]?\d+)?|\.\d+([eE][+-]?\d+)?)`. */
  predicate IsNumber(token: string) {
    var s := DropSign(token);
    var rest := DropDigits(s);
    if rest != s then Exponent(if rest != "" && rest[0] == '.' then DropDigits(rest[1..]) else rest)
    else s != "" && s[0] == '.' && DropDigits(s[1..]) != s[1..] && Exponent(DropDigits(s[1..]))
  }

  function TokenEnd(text: string, i: nat): (j: nat)
    requires i <= |text|
    ensures i <= j <= |text| && (j == |text| || Delimiter(text[j]))
    ensures forall k | i <= k < j :: !Delimiter(text[k])
    decreases |text| - i
  {
    if i == |text| || Delimiter(text[i]) then i else TokenEnd(text, i + 1)
  }

  /** The closing quote of the string whose contents begin at `j`. */
  function StringEnd(text: string, j: nat): (close: Option<nat>)
    ensures close.Some? ==> j <= close.value < |text| && text[close.value] == '"'
    decreases |text| - j
  {
    if j >= |text| then None
    else if text[j] == '\\' then StringEnd(text, j + 2)
    else if text[j] == '"' then Some(j)
    else StringEnd(text, j + 1)
  }

  function FindClose(text: string, k: nat): (found: Option<nat>)
    ensures found.Some? ==> k <= found.value && found.value + 1 < |text|
    decreases |text| - k
  {
    if k + 1 >= |text| then None
    else if text[k] == '|' && text[k + 1] == ';' then Some(k)
    else FindClose(text, k + 1)
  }

  function FindNewline(text: string, k: nat): (found: Option<nat>)
    ensures found.Some? ==> k <= found.value < |text|
    decreases |text| - k
  {
    if k >= |text| then None else if text[k] == '\n' then Some(k) else FindNewline(text, k + 1)
  }

  /** Where the comment at `i` ends. */
  function CommentEnd(text: string, i: nat): (end: Option<nat>)
    requires i < |text|
    ensures end.Some? ==> i < end.value <= |text|
  {
    if i + 1 < |text| && text[i + 1] == '|' then
      var close := FindClose(text, i + 2);
      if close.Some? then Some(close.value + 2) else None
    else
      var newline := FindNewline(text, i);
      if newline.Some? then Some(newline.value + 1) else None
  }

  predicate Plain(text: string, i: nat, j: nat)
    requires j <= |text|
  {
    forall k | i <= k < j :: !Odd(text[k])
  }

  /** Where the white space or comment at `i` ends, if there is one that may stand there. */
  function BlankEnd(text: string, i: nat): (end: Option<nat>)
    requires i < |text|
    ensures end.Some? ==> i < end.value <= |text|
  {
    if Space(text[i]) then Some(i + 1)
    else if text[i] == ';' && CommentEnd(text, i).Some? && Plain(text, i, CommentEnd(text, i).value) then CommentEnd(text, i)
    else None
  }

  // ── the grammar ──

  /** Nothing but white space and comments. */
  predicate Gap(text: string, i: nat, j: nat)
    decreases j - i
  {
    var blank := i <= j <= |text| &&
      (i == j || (BlankEnd(text, i).Some? && BlankEnd(text, i).value <= j && Gap(text, BlankEnd(text, i).value, j)));
    blank
  }

  /** A whole token: no delimiter in it, one - or the end - after it. */
  predicate Token(text: string, i: nat, j: nat) {
    && i < j <= |text| && !Space(text[i])
    && (forall k | i <= k < j :: !Delimiter(text[k]))
    && (j == |text| || Delimiter(text[j]))
  }

  predicate DotAt(text: string, d: nat) {
    Token(text, d, d + 1) && text[d] == '.'
  }

  /** A dot with gaps around it. */
  predicate Dotted(text: string, i: nat, j: nat) {
    var dotted := exists d :: i <= d < j && DotAt(text, d) && Gap(text, i, d) && Gap(text, d + 1, j);
    dotted
  }

  function LastEnd(start: nat, items: seq<Node>): nat {
    if items == [] then start else items[|items| - 1].end
  }

  function Width(node: Node): nat {
    if node.offset <= node.end then node.end - node.offset else 0
  }

  function QuoteAt(q: nat): Node {
    Symbol(q, q + 1, "quote", true)
  }

  predicate AtomSpells(text: string, node: Node)
    requires node.offset < node.end <= |text| && !node.List?
  {
    var spelled :=
      match node
      case Symbol(i, j, name, synthetic) =>
        !synthetic && Token(text, i, j) && text[i..j] != "." && !IsNumber(text[i..j]) && name == Lower(text[i..j])
      case Number(i, j, digits) =>
        Token(text, i, j) && IsNumber(text[i..j]) && digits == text[i..j]
      case Str(i, j, raw) =>
        text[i] == '"' && i + 1 < j && StringEnd(text, i + 1) == Some(j - 1) && raw == text[i + 1..j - 1];
    spelled
  }

  predicate QuotedSpells(text: string, node: Node)
    requires node.offset < node.end <= |text| && node.List?
    decreases Width(node), 0
  {
    var spelled :=
      && node.tail.None? && |node.items| == 2 && node.items[0] == QuoteAt(node.offset)
      && node.offset < node.items[1].offset < node.items[1].end == node.end
      && Gap(text, node.offset + 1, node.items[1].offset) && Spells(text, node.items[1]);
    spelled
  }

  predicate ListSpells(text: string, node: Node)
    requires node.offset < node.end <= |text| && node.List?
    decreases Width(node), 0
  {
    var i, j := node.offset, node.end;
    var spelled :=
      && text[i] == '(' && i + 1 < j && text[j - 1] == ')'
      && match node.tail
         case None => Spaced(text, i + 1, j - 1, node.items)
         case Some(last) =>
           var e := LastEnd(i + 1, node.items);
           && node.items != [] && e <= last.offset < last.end <= j - 1
           && Spaced(text, i + 1, e, node.items) && Dotted(text, e, last.offset)
           && Spells(text, last) && Gap(text, last.end, j - 1);
    spelled
  }

  /** The text from `node.offset` to `node.end` is `node`. */
  predicate Spells(text: string, node: Node)
    decreases Width(node), 1
  {
    var spelled := node.offset < node.end <= |text| &&
      (if !node.List? then AtomSpells(text, node)
       else if text[node.offset] == '\'' then QuotedSpells(text, node)
       else ListSpells(text, node));
    spelled
  }

  /** The text from `i` to `j` is the items, with gaps around them. */
  predicate Spaced(text: string, i: nat, j: nat, items: seq<Node>)
    decreases if i <= j then j - i else 0, 2
  {
    var spelled :=
      if items == [] then Gap(text, i, j)
      else
        && i <= items[0].offset < items[0].end <= j
        && Gap(text, i, items[0].offset) && Spells(text, items[0])
        && Spaced(text, items[0].end, j, items[1..]);
    spelled
  }

  // ── the reader ──

  datatype Frame = Frame(offset: Option<nat>, items: seq<Node>, quotes: seq<nat>, dot: Option<nat>, tail: Option<Node>)

  /** The pending quotes wrapped around a datum, the innermost first. */
  function Wrap(quotes: seq<nat>, node: Node): Node
    decreases |quotes|
  {
    if quotes == [] then node
    else
      var q := quotes[|quotes| - 1];
      Wrap(quotes[..|quotes| - 1], List(q, node.end, [QuoteAt(q), node], None))
  }

  predicate CanTake(frame: Frame) {
    frame.dot.None? || frame.tail.None?
  }

  function Taken(frame: Frame, node: Node): Frame {
    var whole := Wrap(frame.quotes, node);
    if frame.dot.Some? then frame.(quotes := [], tail := Some(whole))
    else frame.(quotes := [], items := frame.items + [whole])
  }

  function Top(stack: seq<Frame>): Frame
    requires stack != []
  {
    stack[|stack| - 1]
  }

  function SetTop(stack: seq<Frame>, frame: Frame): seq<Frame>
    requires stack != []
  {
    stack[..|stack| - 1] + [frame]
  }

  datatype Move = Go(at: nat, stack: seq<Frame>) | Stop(offset: nat)

  /** A datum read up to `at` and given to the innermost frame. */
  function Emit(stack: seq<Frame>, node: Node, at: nat): Move
    requires stack != []
  {
    if CanTake(Top(stack)) then Go(at, SetTop(stack, Taken(Top(stack), node)))
    else Stop(Wrap(Top(stack).quotes, node).offset)
  }

  /** The datum a token is. */
  function TokenNode(text: string, i: nat, j: nat): Node
    requires i < j <= |text|
  {
    if IsNumber(text[i..j]) then Number(i, j, text[i..j]) else Symbol(i, j, Lower(text[i..j]), false)
  }

  function Step(text: string, i: nat, stack: seq<Frame>): (move: Move)
    requires i < |text| && stack != []
    ensures move.Go? ==> i < move.at <= |text| && move.stack != []
  {
    var c, frame := text[i], Top(stack);
    if Space(c) then Go(i + 1, stack)
    else if c == ';' then
      if BlankEnd(text, i).Some? then Go(BlankEnd(text, i).value, stack) else Stop(i)
    else if c == '(' then Go(i + 1, stack + [Frame(Some(i), [], [], None, None)])
    else if c == ')' then
      if frame.offset.None? || |stack| == 1 then Stop(i)
      else if frame.quotes != [] || (frame.dot.Some? && frame.tail.None?) then Stop(i)
      else Emit(stack[..|stack| - 1], List(frame.offset.value, i + 1, frame.items, frame.tail), i + 1)
    else if c == '\'' then
      if CanTake(frame) then Go(i + 1, SetTop(stack, frame.(quotes := frame.quotes + [i]))) else Stop(i)
    else if c == '"' then
      match StringEnd(text, i + 1)
      case None => Stop(i)
      case Some(j) => Emit(stack, Str(i, j + 1, text[i + 1..j]), j + 1)
    else
      var j := TokenEnd(text, i);
      var token := text[i..j];
      if token == "." then
        if frame.offset.None? || frame.items == [] || frame.dot.Some? || frame.quotes != [] then Stop(i)
        else Go(j, SetTop(stack, frame.(dot := Some(i))))
      else Emit(stack, TokenNode(text, i, j), j)
  }

  function Finish(stack: seq<Frame>): Reading
    requires stack != []
  {
    if |stack| > 1 then Unreadable(if Top(stack).offset.Some? then Top(stack).offset.value else 0)
    else if Top(stack).quotes != [] then Unreadable(Top(stack).quotes[|Top(stack).quotes| - 1])
    else Forms(Top(stack).items)
  }

  function Run(text: string, i: nat, stack: seq<Frame>): Reading
    requires i <= |text| && stack != []
    decreases |text| - i
  {
    if i == |text| then Finish(stack)
    else
      match Step(text, i, stack)
      case Stop(offset) => Unreadable(offset)
      case Go(at, stack') => Run(text, at, stack')
  }

  const BASE := Frame(None, [], [], None, None)

  predicate Typed(text: string) {
    forall i | 0 <= i < |text| :: !Control(text[i])
  }

  // ── every spelled text is read ──

  lemma {:induction false} RunGap(text: string, i: nat, j: nat, stack: seq<Frame>)
    requires Gap(text, i, j) && stack != []
    ensures Run(text, i, stack) == Run(text, j, stack)
    decreases j - i
  {
    if i < j {
      RunGap(text, BlankEnd(text, i).value, j, stack);
    }
  }

  lemma TokenEnds(text: string, i: nat, j: nat)
    requires Token(text, i, j)
    ensures TokenEnd(text, i) == j
  {
    var e := TokenEnd(text, i);
    assert e < |text| ==> Delimiter(text[e]);
  }

  lemma StepTo(text: string, i: nat, stack: seq<Frame>, at: nat, stack': seq<Frame>)
    requires i < |text| && stack != [] && Step(text, i, stack) == Go(at, stack')
    ensures Run(text, i, stack) == Run(text, at, stack')
  {
  }

  lemma TopSet(stack: seq<Frame>, a: Frame, b: Frame)
    requires stack != []
    ensures Top(SetTop(stack, a)) == a && SetTop(SetTop(stack, a), b) == SetTop(stack, b)
    ensures SetTop(stack, Top(stack)) == stack
    ensures Top(stack + [a]) == a && SetTop(stack + [a], b) == stack + [b] && (stack + [a])[..|stack|] == stack
  {
  }

  lemma RunString(text: string, node: Node, stack: seq<Frame>)
    requires Spells(text, node) && node.Str? && stack != [] && CanTake(Top(stack))
    ensures Run(text, node.offset, stack) == Run(text, node.end, SetTop(stack, Taken(Top(stack), node)))
  {
    assert AtomSpells(text, node);
    assert Step(text, node.offset, stack) == Emit(stack, node, node.end);
    StepTo(text, node.offset, stack, node.end, SetTop(stack, Taken(Top(stack), node)));
  }

  lemma TokenSteps(text: string, i: nat, j: nat, stack: seq<Frame>)
    requires Token(text, i, j) && text[i..j] != "." && stack != []
    ensures Step(text, i, stack) == Emit(stack, TokenNode(text, i, j), j)
  {
    hide BlankEnd, StringEnd, IsNumber;
    TokenEnds(text, i, j);
  }

  lemma RunToken(text: string, node: Node, stack: seq<Frame>)
    requires Spells(text, node) && (node.Symbol? || node.Number?) && stack != [] && CanTake(Top(stack))
    ensures Run(text, node.offset, stack) == Run(text, node.end, SetTop(stack, Taken(Top(stack), node)))
  {
    assert AtomSpells(text, node);
    assert node == TokenNode(text, node.offset, node.end);
    assert !IsNumber(".");
    TokenSteps(text, node.offset, node.end, stack);
    StepTo(text, node.offset, stack, node.end, SetTop(stack, Taken(Top(stack), node)));
  }

  /** Reading a datum gives it to the frame that was waiting. */
  lemma {:induction false} RunDatum(text: string, node: Node, stack: seq<Frame>)
    requires Spells(text, node) && stack != [] && CanTake(Top(stack))
    ensures Run(text, node.offset, stack) == Run(text, node.end, SetTop(stack, Taken(Top(stack), node)))
    decreases Width(node), 2
  {
    if node.Str? {
      RunString(text, node, stack);
    } else if !node.List? {
      RunToken(text, node, stack);
    } else if text[node.offset] == '\'' {
      RunQuoted(text, node, stack);
    } else {
      RunList(text, node, stack);
    }
  }

  lemma {:induction false} RunQuoted(text: string, node: Node, stack: seq<Frame>)
    requires Spells(text, node) && node.List? && text[node.offset] == '\'' && stack != [] && CanTake(Top(stack))
    ensures Run(text, node.offset, stack) == Run(text, node.end, SetTop(stack, Taken(Top(stack), node)))
    decreases Width(node), 0
  {
    var i, x, frame := node.offset, node.items[1], Top(stack);
    var quoting := frame.(quotes := frame.quotes + [i]);
    StepTo(text, i, stack, i + 1, SetTop(stack, quoting));
    TopSet(stack, quoting, Taken(quoting, x));
    RunGap(text, i + 1, x.offset, SetTop(stack, quoting));
    RunDatum(text, x, SetTop(stack, quoting));
    WrapOnce(frame, node);
  }

  lemma WrapOnce(frame: Frame, node: Node)
    requires node.List? && node.tail.None? && |node.items| == 2 && node.items[0] == QuoteAt(node.offset) && node.items[1].end == node.end
    ensures Taken(frame.(quotes := frame.quotes + [node.offset]), node.items[1]) == Taken(frame, node)
  {
    var quotes := frame.quotes + [node.offset];
    assert quotes[..|quotes| - 1] == frame.quotes;
    assert node.items == [QuoteAt(node.offset), node.items[1]];
  }

  function Filled(stack: seq<Frame>, items: seq<Node>): seq<Frame>
    requires stack != []
  {
    SetTop(stack, Top(stack).(items := Top(stack).items + items))
  }

  lemma FillOne(stack: seq<Frame>, items: seq<Node>)
    requires stack != [] && items != [] && Top(stack).dot.None? && Top(stack).quotes == []
    ensures var stack' := SetTop(stack, Taken(Top(stack), items[0]));
      && Top(stack').dot.None? && Top(stack').quotes == []
      && Filled(stack', items[1..]) == Filled(stack, items)
  {
    var frame := Top(stack);
    assert frame.items + [items[0]] + items[1..] == frame.items + items;
    TopSet(stack, Taken(frame, items[0]), frame.(items := frame.items + items));
  }

  lemma FillNone(stack: seq<Frame>)
    requires stack != []
    ensures Filled(stack, []) == stack
  {
    assert Top(stack).items + [] == Top(stack).items;
  }

  lemma {:induction false} RunItems(text: string, i: nat, j: nat, items: seq<Node>, stack: seq<Frame>)
    requires Spaced(text, i, j, items) && i <= j <= |text|
    requires stack != [] && Top(stack).dot.None? && Top(stack).quotes == []
    ensures Run(text, i, stack) == Run(text, j, Filled(stack, items))
    decreases if i <= j then j - i else 0, 3
  {
    if items == [] {
      RunGap(text, i, j, stack);
      FillNone(stack);
    } else {
      RunGap(text, i, items[0].offset, stack);
      RunDatum(text, items[0], stack);
      FillOne(stack, items);
      RunItems(text, items[0].end, j, items[1..], SetTop(stack, Taken(Top(stack), items[0])));
    }
  }

  lemma {:induction false} RunList(text: string, node: Node, stack: seq<Frame>)
    requires Spells(text, node) && node.List? && text[node.offset] == '(' && stack != [] && CanTake(Top(stack))
    ensures Run(text, node.offset, stack) == Run(text, node.end, SetTop(stack, Taken(Top(stack), node)))
    decreases Width(node), 1
  {
    var full := RunInside(text, node, stack);
    RunClose(text, node, full, stack);
  }

  /** An open list read up to its parenthesis. */
  lemma {:induction false} RunInside(text: string, node: Node, stack: seq<Frame>) returns (full: Frame)
    requires Spells(text, node) && node.List? && text[node.offset] == '(' && stack != []
    ensures full == Frame(Some(node.offset), node.items, [], full.dot, node.tail) && (full.dot.Some? ==> node.tail.Some?)
    ensures Run(text, node.offset, stack) == Run(text, node.end - 1, stack + [full])
    decreases Width(node), 0
  {
    hide BlankEnd, Dotted, IsNumber, StringEnd;
    var i := node.offset;
    var entered := Frame(Some(i), [], [], None, None);
    full := entered.(items := node.items);
    var e := if node.tail.None? then node.end - 1 else LastEnd(i + 1, node.items);
    StepTo(text, i, stack, i + 1, stack + [entered]);
    TopSet(stack, entered, full);
    assert entered.items + node.items == node.items;
    RunItems(text, i + 1, e, node.items, stack + [entered]);
    if node.tail.Some? {
      full := RunTail(text, e, node.end - 1, node.tail.value, full, stack);
    }
  }

  lemma {:induction false} RunTail(text: string, e: nat, j: nat, last: Node, frame: Frame, stack: seq<Frame>) returns (full: Frame)
    requires Dotted(text, e, last.offset) && Spells(text, last) && Gap(text, last.end, j)
    requires frame.offset.Some? && frame.items != [] && frame.dot.None? && frame.quotes == [] && frame.tail.None? && stack != []
    ensures full.dot.Some? && full == frame.(dot := full.dot, tail := Some(last))
    ensures e <= j <= |text| && Run(text, e, stack + [frame]) == Run(text, j, stack + [full])
    decreases Width(last), 3
  {
    var dotted := RunDot(text, e, last.offset, frame, stack);
    full := dotted.(tail := Some(last));
    TopSet(stack, dotted, full);
    assert Taken(dotted, last) == full;
    RunDatum(text, last, stack + [dotted]);
    RunGap(text, last.end, j, stack + [full]);
  }

  lemma RunDot(text: string, e: nat, j: nat, frame: Frame, stack: seq<Frame>) returns (dotted: Frame)
    requires Dotted(text, e, j) && frame.offset.Some? && frame.items != [] && frame.dot.None? && frame.quotes == [] && stack != []
    ensures dotted.dot.Some? && dotted == frame.(dot := dotted.dot)
    ensures e <= j <= |text| && Run(text, e, stack + [frame]) == Run(text, j, stack + [dotted])
  {
    var d :| e <= d < j && DotAt(text, d) && Gap(text, e, d) && Gap(text, d + 1, j);
    hide BlankEnd, Gap;
    dotted := frame.(dot := Some(d));
    RunGap(text, e, d, stack + [frame]);
    TokenEnds(text, d, d + 1);
    TopSet(stack, frame, dotted);
    assert text[d..d + 1] == ".";
    StepTo(text, d, stack + [frame], d + 1, stack + [dotted]);
    RunGap(text, d + 1, j, stack + [dotted]);
  }

  lemma RunClose(text: string, node: Node, frame: Frame, stack: seq<Frame>)
    requires node.List? && 0 < node.end <= |text| && text[node.end - 1] == ')' && stack != [] && CanTake(Top(stack))
    requires frame.offset == Some(node.offset) && frame.items == node.items && frame.tail == node.tail && frame.quotes == []
    requires frame.dot.Some? ==> frame.tail.Some?
    ensures Run(text, node.end - 1, stack + [frame]) == Run(text, node.end, SetTop(stack, Taken(Top(stack), node)))
  {
    hide *;
    StepClose(text, node, frame, stack);
    StepTo(text, node.end - 1, stack + [frame], node.end, SetTop(stack, Taken(Top(stack), node)));
  }

  lemma StepClose(text: string, node: Node, frame: Frame, stack: seq<Frame>)
    requires node.List? && 0 < node.end <= |text| && text[node.end - 1] == ')' && stack != [] && CanTake(Top(stack))
    requires frame.offset == Some(node.offset) && frame.items == node.items && frame.tail == node.tail && frame.quotes == []
    requires frame.dot.Some? ==> frame.tail.Some?
    ensures Step(text, node.end - 1, stack + [frame]) == Go(node.end, SetTop(stack, Taken(Top(stack), node)))
  {
    hide BlankEnd, IsNumber, StringEnd, TokenEnd, TokenNode, Taken, Wrap, Run;
    var whole := stack + [frame];
    assert Top(whole) == frame && whole[..|whole| - 1] == stack;
    assert List(frame.offset.value, node.end - 1 + 1, frame.items, frame.tail) == node;
  }

  // ── everything read is spelled ──

  lemma {:induction false} GapAppend(text: string, i: nat, j: nat, k: nat)
    requires Gap(text, i, j) && Gap(text, j, k)
    ensures Gap(text, i, k)
    decreases j - i
  {
    if i < j {
      GapAppend(text, BlankEnd(text, i).value, j, k);
    }
  }

  lemma {:induction false} SpacedGap(text: string, i: nat, j: nat, k: nat, items: seq<Node>)
    requires Spaced(text, i, j, items) && Gap(text, j, k)
    ensures Spaced(text, i, k, items)
    decreases |items|
  {
    if items == [] {
      GapAppend(text, i, j, k);
    } else {
      SpacedGap(text, items[0].end, j, k, items[1..]);
    }
  }

  lemma {:induction false} SpacedAppend(text: string, i: nat, items: seq<Node>, node: Node)
    requires Spaced(text, i, LastEnd(i, items), items) && LastEnd(i, items) <= node.offset
    requires Gap(text, LastEnd(i, items), node.offset) && Spells(text, node)
    ensures Spaced(text, i, node.end, items + [node])
    decreases |items|
  {
    hide BlankEnd, AtomSpells, QuotedSpells, ListSpells;
    if items == [] {
      assert Spaced(text, node.end, node.end, []);
    } else {
      var rest := items[1..];
      assert LastEnd(items[0].end, rest) == LastEnd(i, items);
      SpacedAppend(text, items[0].end, rest, node);
      assert (items + [node])[1..] == rest + [node];
      assert (items + [node])[0] == items[0];
      SpacedWithin(text, items[0].end, LastEnd(i, items), rest);
    }
  }

  lemma {:induction false} SpacedWithin(text: string, i: nat, j: nat, items: seq<Node>)
    requires Spaced(text, i, j, items)
    ensures i <= j <= |text|
    decreases |items|
  {
    if items != [] {
      SpacedWithin(text, items[0].end, j, items[1..]);
    }
  }

  /** Quotes waiting for their datum, gaps after each. */
  predicate Quoted(text: string, i: nat, j: nat, quotes: seq<nat>)
    decreases |quotes|
  {
    if quotes == [] then Gap(text, i, j)
    else
      var q := quotes[|quotes| - 1];
      i <= q < j <= |text| && text[q] == '\'' && Gap(text, q + 1, j) && Quoted(text, i, q, quotes[..|quotes| - 1])
  }

  lemma {:induction false} WrapSpells(text: string, i: nat, quotes: seq<nat>, node: Node)
    requires Spells(text, node) && Quoted(text, i, node.offset, quotes)
    ensures var whole := Wrap(quotes, node);
      Spells(text, whole) && whole.end == node.end && i <= whole.offset && Gap(text, i, whole.offset)
    decreases |quotes|
  {
    if quotes != [] {
      var q := quotes[|quotes| - 1];
      QuoteSpells(text, q, node);
      WrapSpells(text, i, quotes[..|quotes| - 1], List(q, node.end, [QuoteAt(q), node], None));
    }
  }

  lemma QuoteSpells(text: string, q: nat, node: Node)
    requires Spells(text, node) && q < node.offset && text[q] == '\'' && Gap(text, q + 1, node.offset)
    ensures Spells(text, List(q, node.end, [QuoteAt(q), node], None))
  {
  }

  /** What a frame read from `i` to `j`. */
  predicate FrameSpells(text: string, i: nat, j: nat, frame: Frame) {
    var spelled :=
      && i <= LastEnd(i, frame.items) <= j <= |text| && Spaced(text, i, LastEnd(i, frame.items), frame.items)
      && match frame.dot
         case None => frame.tail.None? && Quoted(text, LastEnd(i, frame.items), j, frame.quotes)
         case Some(d) => frame.items != [] && LastEnd(i, frame.items) <= d < j && TailSpells(text, LastEnd(i, frame.items), d, j, frame);
    spelled
  }

  /** The frame's dot at `d`, and its tail if it has one. */
  predicate TailSpells(text: string, i: nat, d: nat, j: nat, frame: Frame) {
    var spelled :=
      && DotAt(text, d) && Gap(text, i, d)
      && match frame.tail
         case None => Quoted(text, d + 1, j, frame.quotes)
         case Some(last) =>
           && frame.quotes == [] && d + 1 <= last.offset < last.end <= j
           && Gap(text, d + 1, last.offset) && Spells(text, last) && Gap(text, last.end, j);
    spelled
  }

  /** What the stack read up to `j`, outermost frame first. */
  predicate StackSpells(text: string, j: nat, stack: seq<Frame>)
    decreases |stack|
  {
    var spelled :=
      stack != [] &&
      var frame := Top(stack);
      if |stack| == 1 then frame.offset.None? && frame.dot.None? && FrameSpells(text, 0, j, frame)
      else
        && frame.offset.Some? && frame.offset.value < j <= |text| && text[frame.offset.value] == '('
        && FrameSpells(text, frame.offset.value + 1, j, frame)
        && StackSpells(text, frame.offset.value, stack[..|stack| - 1]);
    spelled
  }

  function Start(stack: seq<Frame>): nat
    requires stack != []
  {
    if Top(stack).offset.Some? then Top(stack).offset.value + 1 else 0
  }

  /** Replacing the innermost frame by one that read further. */
  lemma TopMoves(text: string, i: nat, j: nat, stack: seq<Frame>, frame: Frame)
    requires StackSpells(text, i, stack) && i <= j
    requires frame.offset == Top(stack).offset && (|stack| == 1 ==> frame.dot.None?)
    requires FrameSpells(text, Start(stack), j, frame)
    ensures StackSpells(text, j, SetTop(stack, frame))
  {
    assert SetTop(stack, frame)[..|stack| - 1] == stack[..|stack| - 1];
  }

  lemma FrameGap(text: string, i: nat, j: nat, k: nat, frame: Frame)
    requires FrameSpells(text, i, j, frame) && Gap(text, j, k)
    ensures FrameSpells(text, i, k, frame)
  {
    if frame.dot.Some? && frame.tail.Some? {
      GapAppend(text, frame.tail.value.end, j, k);
    } else {
      var p := if frame.dot.Some? then frame.dot.value + 1 else LastEnd(i, frame.items);
      if frame.quotes == [] {
        GapAppend(text, p, j, k);
      } else {
        GapAppend(text, frame.quotes[|frame.quotes| - 1] + 1, j, k);
      }
    }
  }

  lemma FrameTakes(text: string, i: nat, node: Node, frame: Frame)
    requires FrameSpells(text, i, node.offset, frame) && Spells(text, node) && CanTake(frame)
    ensures FrameSpells(text, i, node.end, Taken(frame, node))
  {
    if frame.dot.None? {
      ItemTaken(text, i, node, frame);
    } else {
      TailTaken(text, i, node, frame);
    }
  }

  lemma TailTaken(text: string, i: nat, node: Node, frame: Frame)
    requires FrameSpells(text, i, node.offset, frame) && Spells(text, node) && frame.dot.Some? && frame.tail.None?
    ensures FrameSpells(text, i, node.end, Taken(frame, node))
  {
    hide StackSpells, Spells, Spaced, DotAt, BlankEnd;
    WrapSpells(text, frame.dot.value + 1, frame.quotes, node);
    assert Gap(text, node.end, node.end);
  }

  lemma ItemTaken(text: string, i: nat, node: Node, frame: Frame)
    requires FrameSpells(text, i, node.offset, frame) && Spells(text, node) && frame.dot.None?
    ensures FrameSpells(text, i, node.end, Taken(frame, node))
  {
    var whole := Wrap(frame.quotes, node);
    WrapSpells(text, LastEnd(i, frame.items), frame.quotes, node);
    SpacedAppend(text, i, frame.items, whole);
    assert LastEnd(i, frame.items + [whole]) == node.end;
  }

  lemma ClosedSpells(text: string, j: nat, frame: Frame)
    requires frame.offset.Some? && frame.offset.value < j < |text| && text[frame.offset.value] == '(' && text[j] == ')'
    requires FrameSpells(text, frame.offset.value + 1, j, frame)
    requires frame.quotes == [] && !(frame.dot.Some? && frame.tail.None?)
    ensures Spells(text, List(frame.offset.value, j + 1, frame.items, frame.tail))
  {
    var i := frame.offset.value;
    if frame.tail.None? {
      SpacedGap(text, i + 1, LastEnd(i + 1, frame.items), j, frame.items);
    }
  }

  lemma EmitSpells(text: string, stack: seq<Frame>, node: Node)
    requires StackSpells(text, node.offset, stack) && Spells(text, node) && CanTake(Top(stack))
    ensures StackSpells(text, node.end, SetTop(stack, Taken(Top(stack), node)))
  {
    FrameTakes(text, Start(stack), node, Top(stack));
    TopMoves(text, node.offset, node.end, stack, Taken(Top(stack), node));
  }

  lemma StepSpells(text: string, i: nat, stack: seq<Frame>)
    requires i < |text| && StackSpells(text, i, stack) && Step(text, i, stack).Go?
    ensures StackSpells(text, Step(text, i, stack).at, Step(text, i, stack).stack)
  {
    if Space(text[i]) || text[i] == ';' {
      BlankSpells(text, i, stack);
    } else if text[i] == '(' {
      OpenSpells(text, i, stack);
    } else if text[i] == ')' {
      CloseSpells(text, i, stack);
    } else if text[i] == '\'' {
      QuoteWaits(text, i, stack);
    } else if text[i] == '"' {
      StringSpells(text, i, stack);
    } else {
      TokenSpells(text, i, stack);
    }
  }

  lemma OpenSpells(text: string, i: nat, stack: seq<Frame>)
    requires i < |text| && text[i] == '(' && StackSpells(text, i, stack)
    ensures StackSpells(text, Step(text, i, stack).at, Step(text, i, stack).stack)
  {
    var entered := Frame(Some(i), [], [], None, None);
    TopSet(stack, entered, entered);
    assert Gap(text, i + 1, i + 1) && FrameSpells(text, i + 1, i + 1, entered);
  }

  lemma StringSpells(text: string, i: nat, stack: seq<Frame>)
    requires i < |text| && text[i] == '"' && StackSpells(text, i, stack) && Step(text, i, stack).Go?
    ensures StackSpells(text, Step(text, i, stack).at, Step(text, i, stack).stack)
  {
    hide FrameSpells, Spells, IsNumber, BlankEnd, TokenEnd, Control;
    var j := StringEnd(text, i + 1).value;
    var node := Str(i, j + 1, text[i + 1..j]);
    assert AtomSpells(text, node);
    assert Step(text, i, stack) == Emit(stack, node, j + 1);
    EmitSpells(text, stack, node);
  }

  lemma BlankSpells(text: string, i: nat, stack: seq<Frame>)
    requires i < |text| && (Space(text[i]) || text[i] == ';') && StackSpells(text, i, stack) && Step(text, i, stack).Go?
    ensures StackSpells(text, Step(text, i, stack).at, Step(text, i, stack).stack)
  {
    hide FrameSpells, Spells, IsNumber, StringEnd, TokenEnd, CommentEnd;
    var at := BlankEnd(text, i).value;
    FrameGap(text, Start(stack), i, at, Top(stack));
    TopMoves(text, i, at, stack, Top(stack));
    TopSet(stack, Top(stack), Top(stack));
  }

  lemma CloseSpells(text: string, i: nat, stack: seq<Frame>)
    requires i < |text| && text[i] == ')' && StackSpells(text, i, stack) && Step(text, i, stack).Go?
    ensures StackSpells(text, Step(text, i, stack).at, Step(text, i, stack).stack)
  {
    hide FrameSpells, Spells, BlankEnd, IsNumber, StringEnd, TokenEnd;
    var frame := Top(stack);
    ClosedSpells(text, i, frame);
    EmitSpells(text, stack[..|stack| - 1], List(frame.offset.value, i + 1, frame.items, frame.tail));
  }

  lemma QuoteWaits(text: string, i: nat, stack: seq<Frame>)
    requires i < |text| && text[i] == '\'' && StackSpells(text, i, stack) && Step(text, i, stack).Go?
    ensures StackSpells(text, Step(text, i, stack).at, Step(text, i, stack).stack)
  {
    hide Spaced, Spells, BlankEnd, IsNumber, StringEnd, TokenEnd;
    var quoting := Top(stack).(quotes := Top(stack).quotes + [i]);
    assert quoting.quotes[..|quoting.quotes| - 1] == Top(stack).quotes;
    assert Gap(text, i + 1, i + 1);
    TopMoves(text, i, i + 1, stack, quoting);
  }

  lemma TokenSpells(text: string, i: nat, stack: seq<Frame>)
    requires i < |text| && StackSpells(text, i, stack) && Step(text, i, stack).Go?
    requires !Space(text[i]) && !Delimiter(text[i])
    ensures StackSpells(text, Step(text, i, stack).at, Step(text, i, stack).stack)
  {
    var j := TokenEnd(text, i);
    assert Token(text, i, j);
    if text[i..j] == "." {
      DotWaits(text, i, stack);
    } else {
      var node := TokenNode(text, i, j);
      assert AtomSpells(text, node);
      TokenSteps(text, i, j, stack);
      EmitSpells(text, stack, node);
    }
  }

  lemma DotWaits(text: string, i: nat, stack: seq<Frame>)
    requires i < |text| && StackSpells(text, i, stack) && Step(text, i, stack).Go?
    requires !Space(text[i]) && !Delimiter(text[i]) && text[i..TokenEnd(text, i)] == "."
    ensures StackSpells(text, Step(text, i, stack).at, Step(text, i, stack).stack)
  {
    hide FrameSpells, BlankEnd, StringEnd, IsNumber;
    var frame := Top(stack);
    assert TokenEnd(text, i) == i + 1 && text[i] == text[i..i + 1][0];
    assert Step(text, i, stack) == Go(i + 1, SetTop(stack, frame.(dot := Some(i))));
    DotSpells(text, Start(stack), i, frame);
    TopMoves(text, i, i + 1, stack, frame.(dot := Some(i)));
  }

  lemma DotSpells(text: string, i: nat, d: nat, frame: Frame)
    requires FrameSpells(text, i, d, frame) && DotAt(text, d) && frame.items != [] && frame.dot.None? && frame.quotes == []
    ensures FrameSpells(text, i, d + 1, frame.(dot := Some(d)))
  {
    assert Gap(text, d + 1, d + 1);
  }

  lemma {:induction false} RunSpells(text: string, i: nat, stack: seq<Frame>)
    requires i <= |text| && StackSpells(text, i, stack) && Run(text, i, stack).Forms?
    ensures Spaced(text, 0, |text|, Run(text, i, stack).forms)
    decreases |text| - i
  {
    if i == |text| {
      SpacedGap(text, 0, LastEnd(0, Top(stack).items), i, Top(stack).items);
    } else {
      StepSpells(text, i, stack);
      RunSpells(text, Step(text, i, stack).at, Step(text, i, stack).stack);
    }
  }

  // ── read_forms ──

  /** The loop reads a text to `forms` exactly when `forms` spell it. */
  lemma ReadsExactly(text: string, forms: seq<Node>)
    ensures Run(text, 0, [BASE]) == Forms(forms) <==> Spaced(text, 0, |text|, forms)
  {
    if Run(text, 0, [BASE]) == Forms(forms) {
      assert StackSpells(text, 0, [BASE]);
      RunSpells(text, 0, [BASE]);
    }
    if Spaced(text, 0, |text|, forms) {
      RunItems(text, 0, |text|, forms, [BASE]);
      assert [] + forms == forms;
      assert SetTop([BASE], BASE.(items := forms)) == [BASE.(items := forms)];
    }
  }

  /** A text spells one forest at most. */
  lemma ReadsOneWay(text: string, a: seq<Node>, b: seq<Node>)
    requires Spaced(text, 0, |text|, a) && Spaced(text, 0, |text|, b)
    ensures a == b
  {
    ReadsExactly(text, a);
    ReadsExactly(text, b);
  }

  /** `read_forms`: a text with a control character is refused before the loop. What it answers is a
      forest that spells the text, whenever one does. */
  method ReadForms(text: string) returns (reading: Reading)
    ensures reading.Forms? ==> Typed(text) && Spaced(text, 0, |text|, reading.forms)
    ensures reading.Unreadable? ==> !Typed(text) || forall forms :: !Spaced(text, 0, |text|, forms)
    ensures Typed(text) ==> reading == Run(text, 0, [BASE])
  {
    var k := 0;
    while k < |text|
      invariant 0 <= k <= |text| && Typed(text[..k])
    {
      if Control(text[k]) {
        assert !Typed(text);
        return Unreadable(k);
      }
      assert text[..k + 1] == text[..k] + [text[k]];
      k := k + 1;
    }
    assert text[..k] == text;
    forall forms {
      ReadsExactly(text, forms);
    }
    var stack := [BASE];
    var i := 0;
    while i < |text|
      invariant 0 <= i <= |text| && stack != []
      invariant Run(text, i, stack) == Run(text, 0, [BASE])
    {
      var move := Advance(text, i, stack);
      if move.Stop? {
        return Unreadable(move.offset);
      }
      i, stack := move.at, move.stack;
    }
    reading := Finish(stack);
  }

  /** One turn of the loop. */
  method Advance(text: string, i: nat, stack: seq<Frame>) returns (move: Move)
    requires i < |text| && stack != []
    ensures move == Step(text, i, stack)
  {
    var c, frame := text[i], Top(stack);
    if Space(c) {
      move := Go(i + 1, stack);
    } else if c == ';' {
      var end := CommentEnd(text, i);
      move := if end.None? || !Plain(text, i, end.value) then Stop(i) else Go(end.value, stack);
    } else if c == '(' {
      move := Go(i + 1, stack + [Frame(Some(i), [], [], None, None)]);
    } else if c == ')' {
      if |stack| == 1 || frame.offset.None? || frame.quotes != [] || (frame.dot.Some? && frame.tail.None?) {
        move := Stop(i);
      } else {
        move := Emit(stack[..|stack| - 1], List(frame.offset.value, i + 1, frame.items, frame.tail), i + 1);
      }
    } else if c == '\'' {
      move := if CanTake(frame) then Go(i + 1, SetTop(stack, frame.(quotes := frame.quotes + [i]))) else Stop(i);
    } else if c == '"' {
      var j := i + 1;
      while j < |text| && text[j] != '"'
        invariant i < j && StringEnd(text, j) == StringEnd(text, i + 1)
      {
        j := if text[j] == '\\' then j + 2 else j + 1;
      }
      move := if j >= |text| then Stop(i) else Emit(stack, Str(i, j + 1, text[i + 1..j]), j + 1);
    } else {
      var j := i;
      while j < |text| && !Delimiter(text[j])
        invariant i <= j <= |text| && TokenEnd(text, j) == TokenEnd(text, i)
      {
        j := j + 1;
      }
      var token := text[i..j];
      if token == "." {
        if frame.offset.None? || frame.items == [] || frame.dot.Some? || frame.quotes != [] {
          move := Stop(i);
        } else {
          move := Go(j, SetTop(stack, frame.(dot := Some(i))));
        }
      } else {
        var node := if IsNumber(token) then Number(i, j, token) else Symbol(i, j, Lower(token), false);
        move := Emit(stack, node, j);
      }
    }
  }
}
