/** Escaping a map key into a JSON Pointer (RFC 6901) and reading the pointer back. */
module JsonPointer {
  import opened Kube
  import opened Text

  /** The webhook's escape: two replacement passes. */
  function Escape(s: string): string {
    ReplaceAll(ReplaceAll(s, "~", "~0"), "/", "~1")
  }

  /** Section 4 of RFC 6901: first `~1` to `/`, then `~0` to `~`. */
  function Unescape(s: string): string {
    ReplaceAll(ReplaceAll(s, "~1", "/"), "~0", "~")
  }

  /** Sections 3 and 5 of RFC 6901: the reference tokens a pointer names. */
  function Tokens(pointer: string): Option<seq<string>> {
    if pointer == "" then Some([])
    else if pointer[0] != '/' then None
    else Some(UnescapeAll(Split(pointer[1..], '/')))
  }

  function UnescapeAll(tokens: seq<string>): (r: seq<string>)
    ensures |r| == |tokens|
  {
    if tokens == [] then [] else [Unescape(tokens[0])] + UnescapeAll(tokens[1..])
  }

  /** One pass, one character at a time: an independent definition of the escape. */
  function EscapeChars(s: string): string {
    if s == "" then "" else EscapeChar(s[0]) + EscapeChars(s[1..])
  }

  function EscapeChar(c: char): string {
    if c == '~' then "~0" else if c == '/' then "~1" else [c]
  }

  // The string after the first of the two escaping passes, and also after the first of
  // the two unescaping passes.
  function Halfway(s: string): string {
    if s == "" then ""
    else (if s[0] == '~' then "~0" else [s[0]]) + Halfway(s[1..])
  }

  lemma {:induction false} FirstPass(s: string)
    ensures ReplaceAll(s, "~", "~0") == Halfway(s)
  {
    if s != "" {
      FirstPass(s[1..]);
      assert "~" <= s <==> s[0] == '~';
    }
  }

  lemma KeepFirst(c: char, rest: string, target: string, replacement: string)
    requires target != "" && c != target[0]
    ensures ReplaceAll([c] + rest, target, replacement) == [c] + ReplaceAll(rest, target, replacement)
  {
    var s := [c] + rest;
    assert s[1..] == rest;
    if |s| < |target| {
      assert ReplaceAll(rest, target, replacement) == rest;
    } else {
      assert s[0] != target[0];
    }
  }

  lemma {:induction false} SecondPass(s: string)
    ensures ReplaceAll(Halfway(s), "/", "~1") == EscapeChars(s)
  {
    if s != "" {
      var rest := Halfway(s[1..]);
      SecondPass(s[1..]);
      if s[0] == '~' {
        KeepFirst('~', "0" + rest, "/", "~1");
        KeepFirst('0', rest, "/", "~1");
        assert Halfway(s) == "~" + ("0" + rest);
      } else if s[0] == '/' {
        assert "/" <= Halfway(s) && Halfway(s)[1..] == rest;
      } else {
        KeepFirst(s[0], rest, "/", "~1");
      }
    }
  }

  /** The two passes do not interfere: together they map each character on its own. */
  lemma EscapeIsOnePass(s: string)
    ensures Escape(s) == EscapeChars(s)
  {
    FirstPass(s);
    SecondPass(s);
  }

  lemma {:induction false} EscapeCharsHasNoSlash(s: string)
    ensures '/' !in EscapeChars(s)
  {
    if s != "" {
      EscapeCharsHasNoSlash(s[1..]);
    }
  }

  lemma EscapeHasNoSlash(s: string)
    ensures '/' !in Escape(s)
  {
    EscapeIsOnePass(s);
    EscapeCharsHasNoSlash(s);
  }

  lemma {:induction false} UnescapeFirstPass(s: string)
    ensures ReplaceAll(EscapeChars(s), "~1", "/") == Halfway(s)
  {
    if s != "" {
      var e, rest := EscapeChars(s), EscapeChars(s[1..]);
      UnescapeFirstPass(s[1..]);
      if s[0] == '~' {
        KeepFirst('0', rest, "~1", "/");
        assert e[1] == '0' && e[1..] == "0" + rest;
      } else if s[0] == '/' {
        assert "~1" <= e && e[2..] == rest;
      } else {
        KeepFirst(s[0], rest, "~1", "/");
      }
    }
  }

  lemma {:induction false} UnescapeSecondPass(s: string)
    ensures ReplaceAll(Halfway(s), "~0", "~") == s
  {
    if s != "" {
      var h, rest := Halfway(s), Halfway(s[1..]);
      UnescapeSecondPass(s[1..]);
      if s[0] == '~' {
        assert "~0" <= h && h[2..] == rest;
      } else {
        assert h[0] != '~' && h[1..] == rest;
      }
    }
  }

  /** The reader's unescape order inverts the escape for every string. */
  lemma UnescapeInvertsEscape(s: string)
    ensures Unescape(Escape(s)) == s
  {
    EscapeIsOnePass(s);
    UnescapeFirstPass(s);
    UnescapeSecondPass(s);
  }

  lemma EscapeIsInjective(s: string, t: string)
    requires Escape(s) == Escape(t)
    ensures s == t
  {
    UnescapeInvertsEscape(s);
    UnescapeInvertsEscape(t);
  }

  lemma {:induction false} PlainReplace(s: string, target: string, replacement: string)
    requires |target| == 2 && target[0] == '~' && '~' !in s
    ensures ReplaceAll(s, target, replacement) == s
  {
    if |s| >= 2 {
      PlainReplace(s[1..], target, replacement);
      assert s == [s[0]] + s[1..];
    }
  }

  lemma PlainTokenUnescapes(s: string)
    requires '~' !in s
    ensures Unescape(s) == s
  {
    PlainReplace(s, "~1", "/");
    PlainReplace(s, "~0", "~");
  }

  lemma UnescapeThree(a: string, b: string, c: string)
    ensures UnescapeAll([a, b, c]) == [Unescape(a), Unescape(b), Unescape(c)]
  {
    assert [a, b, c][1..] == [b, c] && [b, c][1..] == [c] && [c][1..] == [];
    assert UnescapeAll([b, c]) == [Unescape(b)] + UnescapeAll([c]);
  }

  lemma SplitPath(first: string, second: string, third: string)
    requires '/' !in first && '/' !in second && '/' !in third
    ensures Split(first + "/" + second + "/" + third, '/') == [first, second, third]
  {
    SplitWithoutSeparator(third, '/');
    SplitAfterSeparator(second, third, '/');
    SplitAfterSeparator(first, second + "/" + third, '/');
    assert first + "/" + second + "/" + third == first + "/" + (second + "/" + third);
  }

  /** A pointer of two plain tokens and an escaped one names exactly these three. */
  lemma TokensOfPath(first: string, second: string, key: string)
    requires '/' !in first && '~' !in first && '/' !in second && '~' !in second
    ensures Tokens("/" + (first + "/" + second + "/" + Escape(key))) == Some([first, second, key])
  {
    EscapeHasNoSlash(key);
    SplitPath(first, second, Escape(key));
    UnescapeThree(first, second, Escape(key));
    UnescapeInvertsEscape(key);
    PlainTokenUnescapes(first);
    PlainTokenUnescapes(second);
  }

  const METADATA := "metadata"
  const ANNOTATIONS := "annotations"

  /** The path of the patch that adds annotation `key`. */
  function AnnotationPath(key: string): string {
    "/" + (METADATA + "/" + ANNOTATIONS + "/" + Escape(key))
  }

  /** A patch path built from an annotation key names that key and nothing else. */
  lemma PathNamesItsKey(key: string)
    ensures Tokens(AnnotationPath(key)) == Some(["metadata", "annotations", key])
  {
    TokensOfPath(METADATA, ANNOTATIONS, key);
  }
}
