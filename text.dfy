/** Character classes, ASCII lower-casing and the small string searches that
    the triage engine and the reply templates are built from. */
module Text {

  /** A regular-expression word character (`\w`), restricted to ASCII. */
  predicate IsWordChar(c: char) {
    ('a' <= c <= 'z') || ('A' <= c <= 'Z') || ('0' <= c <= '9') || c == '_'
  }

  /** `str.lower()` on one character, restricted to ASCII upper-case letters. */
  function LowerChar(c: char): (d: char)
    ensures 'A' <= c <= 'Z' ==> 'a' <= d <= 'z' && d as int == c as int + 32
    ensures !('A' <= c <= 'Z') ==> d == c
  {
    if 'A' <= c <= 'Z' then (c as int + 32) as char else c
  }

  /** `str.lower()` on a whole string: every character is lowered, none is
      added or dropped. */
  function Lower(s: string): (r: string)
    ensures |r| == |s|
    ensures forall i {:trigger r[i]} :: 0 <= i < |s| ==> r[i] == LowerChar(s[i])
  {
    seq(|s|, i requires 0 <= i < |s| => LowerChar(s[i]))
  }

  /** Lowering a concatenation lowers each part. */
  lemma LowerAppend(a: string, b: string)
    ensures Lower(a + b) == Lower(a) + Lower(b)
  {
    assert forall i :: 0 <= i < |a + b| ==> Lower(a + b)[i] == (Lower(a) + Lower(b))[i];
  }

  /** Lowering twice is lowering once. */
  lemma LowerIdempotent(s: string)
    ensures Lower(Lower(s)) == Lower(s)
  {
    assert forall i :: 0 <= i < |s| ==> Lower(Lower(s))[i] == Lower(s)[i];
  }

  /** A character that is not a letter occurs in the lowered string exactly
      where it occurred before. */
  lemma LowerKeepsNonLetters(s: string, c: char)
    requires !('a' <= c <= 'z') && !('A' <= c <= 'Z')
    ensures c in Lower(s) <==> c in s
  {
    if c in Lower(s) {
      var i :| 0 <= i < |s| && Lower(s)[i] == c;
      assert s[i] == c;
    }
    if c in s {
      var i :| 0 <= i < |s| && s[i] == c;
      assert Lower(s)[i] == c;
    }
  }

  /** `w` occurs in `s` starting at position `i`. */
  predicate SubstringAt(s: string, w: string, i: int) {
    0 <= i && i + |w| <= |s| && s[i..i + |w|] == w
  }

  /** Python's `w in s`: `w` occurs somewhere in `s` as a contiguous run. */
  ghost predicate HasSubstring(s: string, w: string) {
    exists i :: SubstringAt(s, w, i)
  }

  /** Left-to-right scan for `w` in `s`, starting at position `i`. */
  function ContainsFrom(s: string, w: string, i: nat): bool
    decreases |s| - i
  {
    if i + |w| > |s| then false
    else SubstringAt(s, w, i) || ContainsFrom(s, w, i + 1)
  }

  /** Executable substring test. */
  function Contains(s: string, w: string): bool {
    ContainsFrom(s, w, 0)
  }

  lemma {:induction false} ContainsFromSound(s: string, w: string, i: nat)
    ensures ContainsFrom(s, w, i) <==> exists j :: i <= j && SubstringAt(s, w, j)
    decreases |s| - i
  {
    if i + |w| <= |s| {
      ContainsFromSound(s, w, i + 1);
    }
  }

  /** The scan finds `w` exactly when `w` is a substring of `s`. */
  lemma ContainsIsSubstring(s: string, w: string)
    ensures Contains(s, w) <==> HasSubstring(s, w)
  {
    ContainsFromSound(s, w, 0);
  }

  /** The characters of `s` before the first `c` (all of `s` if there is none). */
  function TakeUntil(s: string, c: char): (r: string)
    ensures r <= s
    ensures c !in r
  {
    if s == [] || s[0] == c then [] else [s[0]] + TakeUntil(s[1..], c)
  }

  /** The characters of `s` after the last `c` (all of `s` if there is none). */
  function AfterLast(s: string, c: char): (r: string)
    ensures |r| <= |s| && r == s[|s| - |r|..]
    ensures c !in r
  {
    if s == [] || s[|s| - 1] == c then [] else AfterLast(s[..|s| - 1], c) + [s[|s| - 1]]
  }

  /** `TakeUntil` recovers a prefix that is followed by its delimiter. */
  lemma {:induction false} TakeUntilPrefix(a: string, c: char, rest: string)
    requires c !in a
    ensures TakeUntil(a + [c] + rest, c) == a
  {
    if a != [] {
      assert (a + [c] + rest)[1..] == a[1..] + [c] + rest;
      TakeUntilPrefix(a[1..], c, rest);
    }
  }

  /** `AfterLast` recovers a suffix that follows its delimiter. */
  lemma {:induction false} AfterLastSuffix(rest: string, c: char, b: string)
    requires c !in b
    ensures AfterLast(rest + [c] + b, c) == b
  {
    var s := rest + [c] + b;
    if b != [] {
      assert s[..|s| - 1] == rest + [c] + b[..|b| - 1];
      AfterLastSuffix(rest, c, b[..|b| - 1]);
      assert b == b[..|b| - 1] + [b[|b| - 1]];
    }
  }
}
