/** A glob as AutoCAD's wcmatch (backends/set_edits.py): the headless engine matches the patterns as one
    regular expression, the live one sends them as one filter string; both match the same names.

    `fold` is the case folding both sides use. */
module Wildcards {

  // ── the headless side: a regular expression ──

  datatype Regex =
    | Char(c: char)
    | AnyChar                         // "." with DOTALL
    | AnyChars                        // ".*"

  /** `_glob_regex`: one body a pattern; `\A(?:a|b)\Z`. */
  function BodyOf(pattern: string): (body: seq<Regex>)
    ensures |body| == |pattern|
  {
    seq(|pattern|, i requires 0 <= i < |pattern| => RegexOf(pattern[i]))
  }

  function RegexOf(c: char): Regex {
    if c == '*' then AnyChars else if c == '?' then AnyChar else Char(c)
  }

  /** The strings a body matches whole. */
  predicate InLanguage(body: seq<Regex>, s: string, fold: char -> char)
    decreases |body|
  {
    if body == [] then s == ""
    else
      match body[0]
      case Char(c) => s != "" && fold(s[0]) == fold(c) && InLanguage(body[1..], s[1..], fold)
      case AnyChar => s != "" && InLanguage(body[1..], s[1..], fold)
      case AnyChars => exists k :: 0 <= k <= |s| && InLanguage(body[1..], s[k..], fold)
  }

  /** An alternation of nothing is the empty expression. */
  predicate GlobMatches(patterns: seq<string>, value: string, fold: char -> char) {
    if patterns == [] then value == "" else exists i :: 0 <= i < |patterns| && InLanguage(BodyOf(patterns[i]), value, fold)
  }

  // ── the live side: the wcmatch grammar ──

  datatype Wild =
    | One(c: char)
    | Digit | Alpha | NonAlnum
    | Anything                        // "?"
    | AnyRun                          // "*"
    | Class(negated: bool, members: string)

  predicate IsDigit(c: char) {
    '0' <= c <= '9'
  }

  predicate IsAlpha(c: char) {
    'a' <= c <= 'z' || 'A' <= c <= 'Z'
  }

  /** Where a bracket opened at 0 closes. */
  function CloseOf(s: string, k: nat): (close: nat)
    ensures close == 0 || k <= close < |s|
    decreases |s| - k
  {
    if k >= |s| then 0 else if s[k] == ']' then k else CloseOf(s, k + 1)
  }

  function Prepended(head: string, rest: seq<string>): seq<string> {
    if rest == [] then [head] else [head + rest[0]] + rest[1..]
  }

  /** The comma-separated alternatives; a backtick escapes, a bracket holds its commas. */
  function Alternatives(s: string): (alternatives: seq<string>)
    ensures alternatives != []
    decreases |s|
  {
    if s == "" then [""]
    else if s[0] == '`' && |s| > 1 then Prepended(s[..2], Alternatives(s[2..]))
    else if s[0] == ',' then [""] + Alternatives(s[1..])
    else if s[0] == '[' && CloseOf(s, 1) > 0 then Prepended(s[..CloseOf(s, 1) + 1], Alternatives(s[CloseOf(s, 1) + 1..]))
    else Prepended([s[0]], Alternatives(s[1..]))
  }

  function ClassOf(inside: string): Wild {
    if inside != "" && inside[0] == '~' then Class(true, inside[1..]) else Class(false, inside)
  }

  /** One alternative's wildcards. */
  function Wilds(s: string): seq<Wild>
    decreases |s|
  {
    if s == "" then []
    else if s[0] == '`' && |s| > 1 then [One(s[1])] + Wilds(s[2..])
    else if s[0] == '[' && CloseOf(s, 1) > 0 then [ClassOf(s[1..CloseOf(s, 1)])] + Wilds(s[CloseOf(s, 1) + 1..])
    else
      [if s[0] == '#' then Digit else if s[0] == '@' then Alpha else if s[0] == '.' then NonAlnum
       else if s[0] == '?' then Anything else if s[0] == '*' then AnyRun else One(s[0])] + Wilds(s[1..])
  }

  /** A class's members: characters, and ranges `a-z`. */
  predicate InClass(members: string, c: char, fold: char -> char)
    decreases |members|
  {
    if members == "" then false
    else if |members| >= 3 && members[1] == '-' then
      fold(members[0]) <= fold(c) <= fold(members[2]) || InClass(members[3..], c, fold)
    else fold(members[0]) == fold(c) || InClass(members[1..], c, fold)
  }

  predicate FitsOne(wild: Wild, c: char, fold: char -> char)
    requires !wild.AnyRun?
  {
    match wild
    case One(x) => fold(x) == fold(c)
    case Digit => IsDigit(c)
    case Alpha => IsAlpha(c)
    case NonAlnum => !IsDigit(c) && !IsAlpha(c)
    case Anything => true
    case Class(negated, members) => InClass(members, c, fold) != negated
  }

  predicate Fits(wilds: seq<Wild>, s: string, fold: char -> char)
    decreases |wilds|
  {
    if wilds == [] then s == ""
    else if wilds[0].AnyRun? then exists k :: 0 <= k <= |s| && Fits(wilds[1..], s[k..], fold)
    else s != "" && FitsOne(wilds[0], s[0], fold) && Fits(wilds[1..], s[1..], fold)
  }

  /** A leading tilde turns an alternative around. */
  predicate Accepts(alternative: string, s: string, fold: char -> char) {
    if alternative != "" && alternative[0] == '~' then !Fits(Wilds(alternative[1..]), s, fold) else Fits(Wilds(alternative), s, fold)
  }

  predicate Wcmatch(filter: string, s: string, fold: char -> char) {
    exists i :: 0 <= i < |Alternatives(filter)| && Accepts(Alternatives(filter)[i], s, fold)
  }

  // ── the translation ──

  predicate Special(c: char) {
    c in "#@.~[]-,`"
  }

  function Escaped(pattern: string): string {
    if pattern == "" then "" else (if Special(pattern[0]) then ['`', pattern[0]] else [pattern[0]]) + Escaped(pattern[1..])
  }

  function Joined(parts: seq<string>): string {
    if parts == [] then "" else if |parts| == 1 then parts[0] else parts[0] + "," + Joined(parts[1..])
  }

  /** `wcmatch_any`. */
  function WcmatchAny(patterns: seq<string>): string {
    Joined(seq(|patterns|, i requires 0 <= i < |patterns| => Escaped(patterns[i])))
  }

  // ── it keeps the meaning ──

  function WildOf(c: char): Wild {
    if c == '*' then AnyRun else if c == '?' then Anything else One(c)
  }

  function PlainWilds(pattern: string): (wilds: seq<Wild>)
    ensures |wilds| == |pattern|
  {
    seq(|pattern|, i requires 0 <= i < |pattern| => WildOf(pattern[i]))
  }

  lemma {:induction false} EscapedReads(pattern: string)
    ensures Wilds(Escaped(pattern)) == PlainWilds(pattern)
    ensures Escaped(pattern) != "" ==> Escaped(pattern)[0] != '~'
    decreases |pattern|
  {
    if pattern != "" {
      var rest := Escaped(pattern[1..]);
      EscapedReads(pattern[1..]);
      assert PlainWilds(pattern) == [WildOf(pattern[0])] + PlainWilds(pattern[1..]);
      if Special(pattern[0]) {
        assert Escaped(pattern)[2..] == rest && Escaped(pattern)[1] == pattern[0];
      } else {
        assert Escaped(pattern)[1..] == rest;
      }
    } else {
      assert PlainWilds("") == [];
    }
  }

  lemma PlainStep(c: char, rest: string)
    requires c != '`' && c != ',' && c != '['
    ensures Alternatives([c] + rest) == Prepended([c], Alternatives(rest))
  {
    assert ([c] + rest)[1..] == rest;
  }

  lemma BacktickStep(c: char, rest: string)
    ensures Alternatives(['`', c] + rest) == Prepended(['`', c], Alternatives(rest))
  {
    var whole := ['`', c] + rest;
    assert whole[2..] == rest && whole[..2] == ['`', c];
  }

  lemma CommaStep(rest: string)
    ensures Alternatives("," + rest) == [""] + Alternatives(rest)
  {
    assert ("," + rest)[1..] == rest;
  }

  lemma PrependedOne(head: string, first: string, others: seq<string>)
    ensures Prepended(head, [first] + others) == [head + first] + others
  {
    assert ([first] + others)[1..] == others;
  }

  function Head(c: char): string {
    if Special(c) then ['`', c] else [c]
  }

  lemma HeadStep(c: char, rest: string)
    ensures Alternatives(Head(c) + rest) == Prepended(Head(c), Alternatives(rest))
  {
    if Special(c) {
      BacktickStep(c, rest);
    } else {
      PlainStep(c, rest);
    }
  }

  lemma EscapedHead(pattern: string, tail: string)
    requires pattern != ""
    ensures Escaped(pattern) == Head(pattern[0]) + Escaped(pattern[1..])
    ensures Escaped(pattern) + tail == Head(pattern[0]) + (Escaped(pattern[1..]) + tail)
  {
    Associates(Head(pattern[0]), Escaped(pattern[1..]), tail);
  }

  lemma Associates(a: string, b: string, c: string)
    ensures a + b + c == a + (b + c)
  {
  }

  /** An escaped pattern is one alternative, whatever follows its comma. */
  lemma {:induction false} EscapedIsOne(pattern: string, tail: string)
    requires tail == "" || tail[0] == ','
    ensures Alternatives(Escaped(pattern) + tail) == [Escaped(pattern)] + (if tail == "" then [] else Alternatives(tail[1..]))
    decreases |pattern|
  {
    hide Alternatives, Prepended, Escaped, Head;
    if pattern == "" {
      NoneEscaped(tail);
      NoneBeforeComma(tail);
    } else {
      EscapedHead(pattern, tail);
      EscapedIsOne(pattern[1..], tail);
      HeadStep(pattern[0], Escaped(pattern[1..]) + tail);
      PrependedOne(Head(pattern[0]), Escaped(pattern[1..]), if tail == "" then [] else Alternatives(tail[1..]));
    }
  }

  lemma NoneEscaped(tail: string)
    ensures Escaped("") == "" && Escaped("") + tail == tail
  {
  }

  lemma NoneBeforeComma(tail: string)
    requires tail == "" || tail[0] == ','
    ensures Alternatives(tail) == [""] + (if tail == "" then [] else Alternatives(tail[1..]))
  {
    if tail != "" {
      assert tail == "," + tail[1..];
      CommaStep(tail[1..]);
    }
  }

  lemma {:induction false} JoinedReads(patterns: seq<string>)
    requires patterns != []
    ensures Alternatives(WcmatchAny(patterns)) == seq(|patterns|, i requires 0 <= i < |patterns| => Escaped(patterns[i]))
    decreases |patterns|
  {
    var parts := seq(|patterns|, i requires 0 <= i < |patterns| => Escaped(patterns[i]));
    var others := seq(|patterns[1..]|, i requires 0 <= i < |patterns[1..]| => Escaped(patterns[1..][i]));
    assert parts == [Escaped(patterns[0])] + others && parts[1..] == others;
    if |patterns| == 1 {
      EscapedIsOne(patterns[0], "");
      assert Escaped(patterns[0]) + "" == Escaped(patterns[0]);
    } else {
      JoinedReads(patterns[1..]);
      var tail := "," + Joined(others);
      EscapedIsOne(patterns[0], tail);
      assert Escaped(patterns[0]) + "," + Joined(others) == Escaped(patterns[0]) + tail && tail[1..] == Joined(others);
    }
  }

  lemma {:induction false} SameMeaning(pattern: string, s: string, fold: char -> char)
    ensures Fits(PlainWilds(pattern), s, fold) <==> InLanguage(BodyOf(pattern), s, fold)
    decreases |pattern|
  {
    if pattern != "" {
      var rest := pattern[1..];
      assert PlainWilds(pattern)[1..] == PlainWilds(rest) && BodyOf(pattern)[1..] == BodyOf(rest);
      if pattern[0] == '*' {
        forall k | 0 <= k <= |s| ensures Fits(PlainWilds(rest), s[k..], fold) <==> InLanguage(BodyOf(rest), s[k..], fold) {
          SameMeaning(rest, s[k..], fold);
        }
      } else if s != "" {
        SameMeaning(rest, s[1..], fold);
      }
    }
  }

  /** The filter string accepts a name exactly when one of the patterns matches it. */
  lemma TranslationKeepsMeaning(patterns: seq<string>, s: string, fold: char -> char)
    ensures Wcmatch(WcmatchAny(patterns), s, fold) <==> GlobMatches(patterns, s, fold)
  {
    if patterns == [] {
      assert WcmatchAny(patterns) == "" && Alternatives("") == [""];
      assert Accepts(Alternatives("")[0], s, fold) <==> s == "";
    } else {
      JoinedReads(patterns);
      assert |Alternatives(WcmatchAny(patterns))| == |patterns|;
      forall i | 0 <= i < |patterns|
        ensures Accepts(Alternatives(WcmatchAny(patterns))[i], s, fold) <==> InLanguage(BodyOf(patterns[i]), s, fold)
      {
        EscapedReads(patterns[i]);
        SameMeaning(patterns[i], s, fold);
      }
    }
  }

  lemma UnescapedReads()
    ensures Alternatives("A.B") == ["A.B"] && Wilds("A.B") == [One('A'), NonAlnum, One('B')]
  {
    EscapedIsOne("B", "");
    assert Escaped("B") == "B" && "B" + "" == "B";
    PlainStep('.', "B");
    PlainStep('A', ".B");
    assert ['.'] + "B" == ".B" && ['A'] + ".B" == "A.B";
    assert "A.B"[1..] == ".B" && ".B"[1..] == "B";
    assert Wilds("B") == [One('B')] && Wilds(".B") == [NonAlnum, One('B')];
  }

  lemma DotFitsDash(fold: char -> char)
    ensures Fits([One('A'), NonAlnum, One('B')], "A-B", fold)
  {
    assert "A-B"[1..] == "-B" && "-B"[1..] == "B";
    assert [One('A'), NonAlnum, One('B')][1..] == [NonAlnum, One('B')] && [NonAlnum, One('B')][1..] == [One('B')];
    assert Fits([One('B')], "B", fold) && Fits([NonAlnum, One('B')], "-B", fold);
  }

  lemma DotIsNotDash(fold: char -> char)
    requires fold('.') != fold('-')
    ensures !InLanguage(BodyOf("A.B"), "A-B", fold)
  {
    var body := BodyOf("A.B");
    assert body[0] == Char('A') && body[1..][0] == Char('.') && "A-B"[1..] == "-B";
    assert !InLanguage(body[1..], "-B", fold);
  }

  /** Unescaped, `A.B` would accept a name the glob does not. */
  lemma EscapeIsNeeded(fold: char -> char)
    requires fold('.') != fold('-')
    ensures Wcmatch("A.B", "A-B", fold) && !GlobMatches(["A.B"], "A-B", fold)
  {
    hide Fits, InLanguage, Alternatives, Wilds;
    UnescapedReads();
    DotFitsDash(fold);
    DotIsNotDash(fold);
    assert Accepts(Alternatives("A.B")[0], "A-B", fold);
  }
}
