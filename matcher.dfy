/** The two pattern shapes that occur in the keyword tables and the
    presence-scoring over a table.

    A literal pattern `\bword\b` matches where `word` occurs with a regular
    expression word boundary on each side. The gapped pattern
    `\bhead\b.*\b(?:tail1|tail2)\b` matches where `head` is followed, later on
    the same line, by one of the tails (`.` matches anything but a newline). */
module Matcher {
  import opened Text

  datatype Pattern =
    | Word(w: string)
    | Gap(head: string, tails: seq<string>)

  /** `\b` at position `k` of `t`: the character before `k` and the character
      at `k` differ in being word characters; the ends of the text count as
      non-word characters. */
  predicate BoundaryAt(t: string, k: int)
    requires 0 <= k <= |t|
  {
    (k > 0 && IsWordChar(t[k - 1])) != (k < |t| && IsWordChar(t[k]))
  }

  /** `\bw\b` matches `t` at position `i`. */
  predicate OccursAt(t: string, w: string, i: int) {
    0 <= i && i + |w| <= |t| && t[i..i + |w|] == w
    && BoundaryAt(t, i) && BoundaryAt(t, i + |w|)
  }

  /** One of the tails matches (with boundaries) at position `j`. */
  predicate AnyOccursAt(t: string, ws: seq<string>, j: int) {
    exists k | 0 <= k < |ws| :: OccursAt(t, ws[k], j)
  }

  /** The gapped pattern matches with its head at `i` and a tail at `j`. */
  ghost predicate GapAt(t: string, head: string, tails: seq<string>, i: int, j: int) {
    OccursAt(t, head, i) && AnyOccursAt(t, tails, j) && i + |head| <= j
    && '\n' !in t[i + |head|..j]
  }

  /** `re.search(p, t)` finds a match: the meaning of a pattern. */
  ghost predicate Matches(p: Pattern, t: string) {
    match p
    case Word(w) => exists i :: OccursAt(t, w, i)
    case Gap(head, tails) => exists i, j :: GapAt(t, head, tails, i, j)
  }

  // ---------------------------------------------------------------------------
  // Executable search

  /** Scan for `\bw\b` at positions `i`, `i + 1`, ... */
  function FindWordFrom(t: string, w: string, i: nat): bool
    decreases |t| - i
  {
    if i + |w| > |t| then false
    else OccursAt(t, w, i) || FindWordFrom(t, w, i + 1)
  }

  /** Scan for a tail at `j`, `j + 1`, ..., stopping at the end of the line. */
  function FindTailOnLine(t: string, tails: seq<string>, j: nat): bool
    requires j <= |t|
    decreases |t| - j
  {
    AnyOccursAt(t, tails, j) || (j < |t| && t[j] != '\n' && FindTailOnLine(t, tails, j + 1))
  }

  /** Scan for a head at `i`, `i + 1`, ... that has a tail later on its line. */
  function FindGapFrom(t: string, head: string, tails: seq<string>, i: nat): bool
    decreases |t| - i
  {
    if i + |head| > |t| then false
    else (OccursAt(t, head, i) && FindTailOnLine(t, tails, i + |head|))
         || FindGapFrom(t, head, tails, i + 1)
  }

  /** `re.search(p, t) is not None`, computed by scanning. */
  function Found(p: Pattern, t: string): bool {
    match p
    case Word(w) => FindWordFrom(t, w, 0)
    case Gap(head, tails) => FindGapFrom(t, head, tails, 0)
  }

  lemma {:induction false} FindWordFromSound(t: string, w: string, i: nat)
    ensures FindWordFrom(t, w, i) <==> exists j :: i <= j && OccursAt(t, w, j)
    decreases |t| - i
  {
    if i + |w| <= |t| {
      FindWordFromSound(t, w, i + 1);
    }
  }

  lemma {:induction false} FindTailOnLineSound(t: string, tails: seq<string>, j: nat)
    requires j <= |t|
    ensures FindTailOnLine(t, tails, j) <==>
            exists m :: j <= m <= |t| && AnyOccursAt(t, tails, m) && '\n' !in t[j..m]
    decreases |t| - j
  {
    if j < |t| {
      FindTailOnLineSound(t, tails, j + 1);
      if FindTailOnLine(t, tails, j) && !AnyOccursAt(t, tails, j) {
        var m :| j + 1 <= m <= |t| && AnyOccursAt(t, tails, m) && '\n' !in t[j + 1..m];
        assert t[j..m] == [t[j]] + t[j + 1..m];
      }
      if exists m :: j <= m <= |t| && AnyOccursAt(t, tails, m) && '\n' !in t[j..m] {
        var m :| j <= m <= |t| && AnyOccursAt(t, tails, m) && '\n' !in t[j..m];
        if m > j {
          assert t[j] == t[j..m][0];
          assert t[j + 1..m] == t[j..m][1..];
        }
      }
    } else {
      if exists m :: j <= m <= |t| && AnyOccursAt(t, tails, m) && '\n' !in t[j..m] {
        var m :| j <= m <= |t| && AnyOccursAt(t, tails, m) && '\n' !in t[j..m];
        assert m == j;
      }
    }
  }

  lemma {:induction false} FindGapFromSound(t: string, head: string, tails: seq<string>, i: nat)
    ensures FindGapFrom(t, head, tails, i) <==> exists a, b :: i <= a && GapAt(t, head, tails, a, b)
    decreases |t| - i
  {
    if i + |head| <= |t| {
      FindGapFromSound(t, head, tails, i + 1);
      FindTailOnLineSound(t, tails, i + |head|);
      if OccursAt(t, head, i) && FindTailOnLine(t, tails, i + |head|) {
        var m :| i + |head| <= m <= |t| && AnyOccursAt(t, tails, m) && '\n' !in t[i + |head|..m];
        assert GapAt(t, head, tails, i, m);
      }
      if exists a, b :: i <= a && GapAt(t, head, tails, a, b) {
        var a, b :| i <= a && GapAt(t, head, tails, a, b);
        if a == i {
          assert FindTailOnLine(t, tails, i + |head|);
        }
      }
    }
  }

  /** Scanning finds a pattern exactly when the pattern matches. */
  lemma FoundIffMatches(p: Pattern, t: string)
    ensures Found(p, t) <==> Matches(p, t)
  {
    match p
    case Word(w) => FindWordFromSound(t, w, 0);
    case Gap(head, tails) => FindGapFromSound(t, head, tails, 0);
  }

  // ---------------------------------------------------------------------------
  // Presence scoring

  /** `sum(1 for pattern in ps if re.search(pattern, t))`: the number of
      entries of the table that match, each counted once however often it
      occurs. */
  function CountMatches(ps: seq<Pattern>, t: string): (n: nat)
    ensures n <= |ps|
  {
    if ps == [] then 0
    else (if Found(ps[0], t) then 1 else 0) + CountMatches(ps[1..], t)
  }

  /** The entries of a table are pairwise different. */
  predicate Distinct(ps: seq<Pattern>) {
    forall i, j :: 0 <= i < j < |ps| ==> ps[i] != ps[j]
  }

  /** Two tables without duplicates and without a common entry can be joined. */
  lemma DistinctAppend(a: seq<Pattern>, b: seq<Pattern>)
    requires Distinct(a) && Distinct(b)
    requires forall i, j :: 0 <= i < |a| && 0 <= j < |b| ==> a[i] != b[j]
    ensures Distinct(a + b)
  {
    var ab := a + b;
    forall i, j | 0 <= i < j < |ab| ensures ab[i] != ab[j] {
      if j < |a| {
      } else if i < |a| {
        assert ab[i] == a[i] && ab[j] == b[j - |a|];
      } else {
        assert ab[i] == b[i - |a|] && ab[j] == b[j - |a|];
      }
    }
  }

  /** The distinct patterns of `ps` that match `t`. */
  ghost function MatchSet(ps: seq<Pattern>, t: string): set<Pattern> {
    set p | p in ps && Matches(p, t)
  }

  /** The score of a table of distinct patterns is the number of its patterns
      that match. */
  lemma {:induction false} CountIsMatchSetSize(ps: seq<Pattern>, t: string)
    requires Distinct(ps)
    ensures CountMatches(ps, t) == |MatchSet(ps, t)|
  {
    if ps != [] {
      var rest := ps[1..];
      assert Distinct(rest);
      CountIsMatchSetSize(rest, t);
      FoundIffMatches(ps[0], t);
      assert ps[0] !in rest;
      assert forall p :: p in ps <==> p == ps[0] || p in rest;
      if Matches(ps[0], t) {
        assert MatchSet(ps, t) == {ps[0]} + MatchSet(rest, t);
      } else {
        assert MatchSet(ps, t) == MatchSet(rest, t);
      }
    }
  }

  /** `any(re.search(p, t) for p in ps)`, stopping at the first pattern that
      matches. */
  function AnyFound(ps: seq<Pattern>, t: string): (b: bool)
    ensures b <==> exists p :: p in ps && Matches(p, t)
  {
    if ps == [] then false
    else
      FoundIffMatches(ps[0], t);
      assert forall p :: p in ps <==> p == ps[0] || p in ps[1..];
      Found(ps[0], t) || AnyFound(ps[1..], t)
  }

  /** The pattern's first character is a word character, so its leading `\b`
      needs a word character in the text. */
  predicate StartsWithWordChar(p: Pattern) {
    match p
    case Word(w) => w != [] && IsWordChar(w[0])
    case Gap(head, _) => head != [] && IsWordChar(head[0])
  }

  /** A text without word characters matches no pattern that starts with one. */
  lemma NoWordCharNoMatch(p: Pattern, t: string)
    requires StartsWithWordChar(p)
    requires forall k :: 0 <= k < |t| ==> !IsWordChar(t[k])
    ensures !Matches(p, t)
  {
  }

  /** A table whose patterns all start with a word character scores 0 on a
      text without word characters. */
  lemma {:induction false} NoWordCharScoresZero(ps: seq<Pattern>, t: string)
    requires forall k :: 0 <= k < |ps| ==> StartsWithWordChar(ps[k])
    requires forall k :: 0 <= k < |t| ==> !IsWordChar(t[k])
    ensures CountMatches(ps, t) == 0
  {
    if ps != [] {
      NoWordCharNoMatch(ps[0], t);
      FoundIffMatches(ps[0], t);
      NoWordCharScoresZero(ps[1..], t);
    }
  }
}
