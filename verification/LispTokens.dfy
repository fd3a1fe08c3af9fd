/** Where strings and comments end and which tokens are numbers, read off the text: what the reader's
    scanners and its grammar share. */
module LispTokens {

  import opened Wrappers
  import opened LispReader

  // ── strings ──

  /** The backslashes that stand right before `k`, from `j` on. */
  function Slashes(text: string, j: nat, k: nat): nat
    requires j <= k <= |text|
    decreases k
  {
    if k == j || text[k - 1] != '\\' then 0 else 1 + Slashes(text, j, k - 1)
  }

  lemma {:induction false} SlashesFrom(text: string, j: nat, i: nat, k: nat)
    requires j <= i <= k <= |text|
    ensures Slashes(text, j, k) == Slashes(text, i, k) + if Slashes(text, i, k) == k - i then Slashes(text, j, i) else 0
    decreases k
  {
    if k > i {
      SlashesFrom(text, j, i, k - 1);
      SlashesWithin(text, i, k - 1);
    }
  }

  lemma {:induction false} SlashesWithin(text: string, j: nat, k: nat)
    requires j <= k <= |text|
    ensures Slashes(text, j, k) <= k - j
    decreases k
  {
    if k > j {
      SlashesWithin(text, j, k - 1);
    }
  }

  /** A quote that no backslash escapes. */
  predicate Closes(text: string, j: nat, k: nat)
    requires j <= k
  {
    k < |text| && text[k] == '"' && Slashes(text, j, k) % 2 == 0
  }

  /** A string ends at its first quote after an even number of backslashes, and is open without one. */
  lemma {:induction false} StringEndsAt(text: string, j: nat)
    ensures match StringEnd(text, j)
            case Some(close) => j <= close && Closes(text, j, close) && forall k | j <= k < close :: !Closes(text, j, k)
            case None => forall k: nat | j <= k :: !Closes(text, j, k)
    decreases |text| - j
  {
    if j < |text| && text[j] != '"' {
      var i := if text[j] == '\\' then j + 2 else j + 1;
      if i <= |text| {
        StringEndsAt(text, i);
        forall k: nat | i <= k ensures Closes(text, j, k) <==> Closes(text, i, k) {
          if k < |text| {
            SlashesFrom(text, j, i, k);
            SlashesTwo(text, j);
          }
        }
      }
      if text[j] == '\\' && i <= |text| {
        SlashesTwo(text, j);
        assert !Closes(text, j, j + 1);
      }
      assert !Closes(text, j, j);
    }
  }

  lemma SlashesTwo(text: string, j: nat)
    requires j < |text|
    ensures Slashes(text, j, j + 1) == if text[j] == '\\' then 1 else 0
    ensures text[j] == '\\' && j + 2 <= |text| ==> Slashes(text, j, j + 2) % 2 == 0
  {
    assert Slashes(text, j, j) == 0;
    assert text[j] == '\\' ==> Slashes(text, j, j + 1) == 1;
  }

  // ── comments ──

  /** A block comment ends after its first `|;`, another after its line. */
  lemma CommentEndsAt(text: string, i: nat)
    requires i < |text|
    ensures var block := i + 1 < |text| && text[i + 1] == '|';
      match CommentEnd(text, i)
      case Some(end) =>
        if block then
          && i + 4 <= end <= |text| && text[end - 2] == '|' && text[end - 1] == ';'
          && forall k | i + 2 <= k < end - 2 :: !(text[k] == '|' && text[k + 1] == ';')
        else i < end <= |text| && text[end - 1] == '\n' && forall k | i <= k < end - 1 :: text[k] != '\n'
      case None =>
        if block then forall k | i + 2 <= k < |text| - 1 :: !(text[k] == '|' && text[k + 1] == ';')
        else forall k | i <= k < |text| :: text[k] != '\n'
  {
    CloseIsFirst(text, i + 2);
    NewlineIsFirst(text, i);
  }

  lemma {:induction false} CloseIsFirst(text: string, k: nat)
    ensures match FindClose(text, k)
            case Some(at) => text[at] == '|' && text[at + 1] == ';' && forall l | k <= l < at :: !(text[l] == '|' && text[l + 1] == ';')
            case None => forall l | k <= l < |text| - 1 :: !(text[l] == '|' && text[l + 1] == ';')
    decreases |text| - k
  {
    if k + 1 < |text| && !(text[k] == '|' && text[k + 1] == ';') {
      CloseIsFirst(text, k + 1);
    }
  }

  lemma {:induction false} NewlineIsFirst(text: string, k: nat)
    ensures match FindNewline(text, k)
            case Some(at) => text[at] == '\n' && forall l | k <= l < at :: text[l] != '\n'
            case None => forall l | k <= l < |text| :: text[l] != '\n'
    decreases |text| - k
  {
    if k < |text| && text[k] != '\n' {
      NewlineIsFirst(text, k + 1);
    }
  }

  // ── numbers ──

  predicate Digits(s: string, i: nat, j: nat) {
    i <= j <= |s| && forall k | i <= k < j :: '0' <= s[k] <= '9'
  }

  /** From `i` on nothing, or an e, a sign or none, and digits. */
  predicate Power(s: string, i: nat) {
    i == |s| || (i < |s| && s[i] in "eE"
      && ((i + 1 < |s| && Digits(s, i + 1, |s|)) || (i + 2 < |s| && s[i + 1] in "+-" && Digits(s, i + 2, |s|))))
  }

  /** A sign up to `a` or none, digits up to `b`, a dot up to `c` or none, digits after a dot up to `d`; a
      digit somewhere; and a power of ten or none. */
  predicate Numeral(s: string, a: nat, b: nat, c: nat, d: nat) {
    && (a == 0 || (a == 1 && s != "" && s[0] in "+-"))
    && Digits(s, a, b) && (c == b || (c == b + 1 && b < |s| && s[b] == '.')) && Digits(s, c, d) && (c == b ==> d == c)
    && (a < b || c < d) && Power(s, d)
  }

  /** The digits from `i` on dropped. */
  lemma {:induction false} DroppedTo(s: string, i: nat, n: nat)
    requires Digits(s, i, n) && (n < |s| ==> !Digit(s[n]))
    ensures DropDigits(s[i..]) == s[n..]
    decreases n - i
  {
    if i < n {
      assert s[i..][1..] == s[i + 1..];
      DroppedTo(s, i + 1, n);
    }
  }

  lemma {:induction false} DigitsFrom(s: string, i: nat) returns (n: nat)
    requires i <= |s|
    ensures Digits(s, i, n) && (n < |s| ==> !Digit(s[n])) && DropDigits(s[i..]) == s[n..]
    decreases |s| - i
  {
    n := i;
    if i < |s| && Digit(s[i]) {
      n := DigitsFrom(s, i + 1);
      assert s[i..][1..] == s[i + 1..];
    }
  }

  lemma PowerIff(s: string, i: nat)
    requires i <= |s|
    ensures Exponent(s[i..]) <==> Power(s, i)
  {
    if i < |s| {
      hide DropDigits;
      var at := if i + 1 < |s| && s[i + 1] in "+-" then i + 2 else i + 1;
      assert s[i..][1..] == s[i + 1..] && DropSign(s[i + 1..]) == s[at..];
      var n := DigitsFrom(s, at);
      assert DropDigits(s[at..]) == "" <==> n == |s|;
      assert n < |s| ==> !Digits(s, at, |s|);
    }
  }

  /** A number by where its digits end. */
  lemma NumberMeans(s: string, a: nat, b: nat, d: nat)
    requires a == (if s != "" && s[0] in "+-" then 1 else 0) && a <= b <= |s| && DropDigits(s[a..]) == s[b..]
    requires if b < |s| && s[b] == '.' then b + 1 <= d <= |s| && DropDigits(s[b + 1..]) == s[d..] else d == b
    ensures IsNumber(s) <==> Power(s, d) && if b < |s| && s[b] == '.' then a < b || b + 1 < d else a < b
  {
    hide DropDigits, Exponent, Power;
    PowerIff(s, d);
    assert DropSign(s) == s[a..];
    assert s[b..] == s[a..] ==> |s[b..]| == |s[a..]|;
    if b < |s| && s[b] == '.' {
      assert s[b..][0] == '.' && s[b..][1..] == s[b + 1..];
      assert s[d..] == s[b + 1..] ==> |s[d..]| == |s[b + 1..]|;
    }
  }

  lemma NumberSplits(s: string) returns (a: nat, b: nat, c: nat, d: nat)
    requires IsNumber(s)
    ensures Numeral(s, a, b, c, d)
  {
    hide IsNumber, DropDigits, Power;
    a := if s != "" && s[0] in "+-" then 1 else 0;
    b := DigitsFrom(s, a);
    c := b;
    d := b;
    if b < |s| && s[b] == '.' {
      c := b + 1;
      d := DigitsFrom(s, c);
    }
    NumberMeans(s, a, b, d);
  }

  lemma NumeralIsNumber(s: string, a: nat, b: nat, c: nat, d: nat)
    requires Numeral(s, a, b, c, d)
    ensures IsNumber(s)
  {
    assert d < |s| ==> !Digit(s[d]);
    hide IsNumber, DropDigits, Power;
    DroppedTo(s, a, b);
    if c > b {
      DroppedTo(s, c, d);
    }
    assert a == 0 ==> s[0] !in "+-";
    NumberMeans(s, a, b, d);
  }

  /** A token is a number exactly if it is spelled as one. */
  lemma NumberIff(s: string)
    ensures IsNumber(s) <==> exists a: nat, b: nat, c: nat, d: nat :: Numeral(s, a, b, c, d)
  {
    hide IsNumber, Numeral;
    if IsNumber(s) {
      var a, b, c, d := NumberSplits(s);
      assert Numeral(s, a, b, c, d);
    }
    forall a: nat, b: nat, c: nat, d: nat | Numeral(s, a, b, c, d) ensures IsNumber(s) {
      NumeralIsNumber(s, a, b, c, d);
    }
  }
}
