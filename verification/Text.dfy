/** The parts of Go's `strings` package the program relies on. */
module Text {
  /** strings.ReplaceAll: leftmost, non-overlapping occurrences. */
  function ReplaceAll(s: string, target: string, replacement: string): string
    requires target != ""
  {
    if |s| < |target| then s
    else if target <= s then replacement + ReplaceAll(s[|target|..], target, replacement)
    else [s[0]] + ReplaceAll(s[1..], target, replacement)
  }

  function Split(s: string, separator: char): (parts: seq<string>)
    ensures parts != []
  {
    if s == "" then [""]
    else if s[0] == separator then [""] + Split(s[1..], separator)
    else
      var rest := Split(s[1..], separator);
      [[s[0]] + rest[0]] + rest[1..]
  }

  lemma {:induction false} SplitAfterSeparator(a: string, b: string, separator: char)
    requires separator !in a
    ensures Split(a + [separator] + b, separator) == [a] + Split(b, separator)
  {
    if a == "" {
      assert a + [separator] + b == [separator] + b;
    } else {
      SplitAfterSeparator(a[1..], b, separator);
      assert (a + [separator] + b)[1..] == a[1..] + [separator] + b;
      assert a == [a[0]] + a[1..];
    }
  }

  lemma {:induction false} SplitWithoutSeparator(s: string, separator: char)
    requires separator !in s
    ensures Split(s, separator) == [s]
  {
    if s != "" {
      SplitWithoutSeparator(s[1..], separator);
      assert s == [s[0]] + s[1..];
    }
  }

  predicate HasSuffix(s: string, c: char) {
    s != "" && s[|s| - 1] == c
  }

  function TrimSuffix(s: string, c: char): string {
    if HasSuffix(s, c) then s[..|s| - 1] else s
  }

  /** unicode.IsSpace */
  predicate IsSpace(c: char) {
    || '\U{0009}' <= c <= '\U{000D}'
    || c in {' ', '\U{0085}', '\U{00A0}', '\U{1680}', '\U{2028}', '\U{2029}', '\U{202F}', '\U{205F}', '\U{3000}'}
    || '\U{2000}' <= c <= '\U{200A}'
  }

  function TrimLeft(s: string): string {
    if s != "" && IsSpace(s[0]) then TrimLeft(s[1..]) else s
  }

  function TrimRight(s: string): string {
    if s != "" && IsSpace(s[|s| - 1]) then TrimRight(s[..|s| - 1]) else s
  }

  /** strings.TrimSpace */
  function TrimSpace(s: string): string {
    TrimRight(TrimLeft(s))
  }

  lemma {:induction false} TrimRightKeepsFirst(s: string)
    ensures TrimRight(s) <= s
    ensures TrimRight(s) != "" ==> !IsSpace(TrimRight(s)[|TrimRight(s)| - 1])
  {
    if s != "" && IsSpace(s[|s| - 1]) {
      TrimRightKeepsFirst(s[..|s| - 1]);
    }
  }

  lemma {:induction false} TrimLeftStopsAtText(s: string)
    ensures TrimLeft(s) != "" ==> !IsSpace(TrimLeft(s)[0])
  {
    if s != "" && IsSpace(s[0]) {
      TrimLeftStopsAtText(s[1..]);
    }
  }

  lemma TrimSpaceIdempotent(s: string)
    ensures TrimSpace(TrimSpace(s)) == TrimSpace(s)
  {
    TrimLeftStopsAtText(s);
    TrimRightKeepsFirst(TrimLeft(s));
  }

  /** The white space of Unicode, by code point. */
  lemma SpacesAre(c: char)
    ensures var n := c as int;
            IsSpace(c) <==>
            || n in {9, 10, 11, 12, 13, 32, 0x85, 0xA0, 0x1680, 0x2028, 0x2029, 0x202F, 0x205F, 0x3000}
            || (0x2000 <= n && n < 0x200B)
  {
  }

  predicate AllSpace(s: string) {
    forall i :: 0 <= i < |s| ==> IsSpace(s[i])
  }

  /** Neither begins nor ends with a space. */
  predicate IsTrimmed(s: string) {
    s != "" ==> !IsSpace(s[0]) && !IsSpace(s[|s| - 1])
  }

  lemma {:induction false} TrimLeftStrips(left: string, s: string)
    requires AllSpace(left) && (s != "" ==> !IsSpace(s[0]))
    ensures TrimLeft(left + s) == s
  {
    if left == "" {
      assert left + s == s;
    } else {
      TrimLeftStrips(left[1..], s);
      assert (left + s)[1..] == left[1..] + s;
    }
  }

  lemma {:induction false} TrimRightStrips(s: string, right: string)
    requires AllSpace(right) && (s != "" ==> !IsSpace(s[|s| - 1]))
    ensures TrimRight(s + right) == s
  {
    if right == "" {
      assert s + right == s;
    } else {
      var n := |right| - 1;
      TrimRightStrips(s, right[..n]);
      assert (s + right)[..|s + right| - 1] == s + right[..n];
    }
  }

  /** Trimming takes the spaces around a text and nothing else. */
  lemma TrimSpaceStrips(left: string, s: string, right: string)
    requires AllSpace(left) && IsTrimmed(s) && AllSpace(right) && (s == "" ==> right == "")
    ensures TrimSpace(left + s + right) == s
  {
    assert left + s + right == left + (s + right);
    TrimLeftStrips(left, s + right);
    TrimRightStrips(s, right);
  }

  lemma TrimmedStays(s: string)
    requires IsTrimmed(s)
    ensures TrimSpace(s) == s
  {
    TrimSpaceStrips("", s, "");
    assert "" + s + "" == s;
  }

  /** strings.ToLower on one character; only letters that can lower to an ASCII letter of
      "true" or "false" matter to the program, and those are ASCII themselves. */
  function LowerChar(c: char): char {
    if 'A' <= c <= 'Z' then (c as int + 32) as char else c
  }

  function ToLower(s: string): (r: string)
    ensures |r| == |s|
  {
    if s == "" then "" else [LowerChar(s[0])] + ToLower(s[1..])
  }

  /** c is the small letter w or its capital. */
  predicate SameLetter(c: char, w: char) {
    c == w || c as int + 32 == w as int
  }

  lemma LetterLowers(c: char, w: char)
    requires 'a' <= w <= 'z'
    ensures LowerChar(c) == w <==> SameLetter(c, w)
  {
  }

  /** Exactly the spellings of a word of small letters that differ in case lower to it. */
  lemma {:induction false} Spellings(s: string, word: string)
    requires forall i :: 0 <= i < |word| ==> 'a' <= word[i] <= 'z'
    ensures ToLower(s) == word <==> |s| == |word| && forall i :: 0 <= i < |s| ==> SameLetter(s[i], word[i])
  {
    if |s| == |word| != 0 {
      LetterLowers(s[0], word[0]);
      Spellings(s[1..], word[1..]);
      assert word == [word[0]] + word[1..];
      assert ToLower(s)[0] == LowerChar(s[0]) && ToLower(s)[1..] == ToLower(s[1..]);
      assert forall i :: 1 <= i < |s| ==> s[i] == s[1..][i - 1] && word[i] == word[1..][i - 1];
    }
  }
}
