/** Concrete messages and senders, and the verdicts proved for them: the
    behaviour the engine is meant to show on typical input.

    The literals are written in pieces ("Can we " + "schedule" + ...), and
    some lemmas take a parameter fixed by `requires t == "..."`, so that the
    verifier can unfold `Lower` and the scans one part at a time instead of
    over a whole long literal. */
module Scenarios {
  import opened Text
  import opened Matcher
  import opened Keywords
  import opened Classifier

  /** `\bw\b` occurs between a prefix ending in a non-word character and a
      suffix starting with one. */
  lemma OccursBetween(a: string, w: string, b: string)
    requires w != [] && IsWordChar(w[0]) && IsWordChar(w[|w| - 1])
    requires a == [] || !IsWordChar(a[|a| - 1])
    requires b == [] || !IsWordChar(b[0])
    ensures OccursAt(a + w + b, w, |a|)
  {
    var t := a + w + b;
    assert t[|a|..|a| + |w|] == w;
    if a != [] { assert t[|a| - 1] == a[|a| - 1]; }
    if b != [] { assert t[|a| + |w|] == b[0]; }
  }

  /** "free" does not match inside "freedom": the boundary after it is missing. */
  lemma FreeNotInFreedom(t: string)
    requires t == "freedom"
    ensures !Matches(Word("free"), t)
  {
  }

  /** Lowering keeps a character a word character or a non-word character. */
  lemma LowerCharKeepsWordness(c: char)
    ensures IsWordChar(LowerChar(c)) == IsWordChar(c)
  {
  }

  /** Lowering a text made of three parts lowers each part. */
  lemma LowerThree(a: string, w: string, b: string)
    ensures Lower(a + w + b) == Lower(a) + Lower(w) + Lower(b)
  {
    LowerAppend(a + w, b);
    LowerAppend(a, w);
  }

  /** `\bw\b` occurs in the lowered text `Lower(a + w + b)` at `|a|` when `w`
      starts and ends with word characters and its neighbours are not. */
  lemma OccursLowered(a: string, w: string, b: string)
    requires w != [] && IsWordChar(w[0]) && IsWordChar(w[|w| - 1])
    requires a == [] || !IsWordChar(a[|a| - 1])
    requires b == [] || !IsWordChar(b[0])
    ensures OccursAt(Lower(a + w + b), Lower(w), |a|)
  {
    LowerThree(a, w, b);
    if a != [] { LowerCharKeepsWordness(a[|a| - 1]); }
    LowerCharKeepsWordness(w[0]);
    LowerCharKeepsWordness(w[|w| - 1]);
    if b != [] { LowerCharKeepsWordness(b[0]); }
    OccursBetween(Lower(a), Lower(w), Lower(b));
  }

  /** A word `w` of the subject, between non-word characters, occurs in the
      scored text, lower-cased, at its own position. */
  lemma WordInSubject(a: string, w: string, b: string, body: string)
    requires w != [] && IsWordChar(w[0]) && IsWordChar(w[|w| - 1])
    requires a == [] || !IsWordChar(a[|a| - 1])
    requires b == [] || !IsWordChar(b[0])
    ensures OccursAt(Blob(a + w + b, body), Lower(w), |a|)
  {
    var rest := b + " " + body;
    assert a + w + b + " " + body == a + w + rest;
    OccursLowered(a, w, rest);
  }

  /** The same for a word of the body. */
  lemma WordInBody(subject: string, a: string, w: string, b: string)
    requires w != [] && IsWordChar(w[0]) && IsWordChar(w[|w| - 1])
    requires a == [] || !IsWordChar(a[|a| - 1])
    requires b == [] || !IsWordChar(b[0])
    ensures OccursAt(Blob(subject, a + w + b), Lower(w), |subject| + 1 + |a|)
  {
    var front := subject + " " + a;
    RegroupBody(subject, a, w, b);
    OccursLowered(front, w, b);
    assert Blob(subject, a + w + b) == Lower(front + w + b);
    assert |front| == |subject| + 1 + |a|;
  }

  lemma RegroupBody(subject: string, a: string, w: string, b: string)
    ensures subject + " " + (a + w + b) == (subject + " " + a) + w + b
    ensures (subject + " " + a)[|subject + " " + a| - 1] == if a == [] then ' ' else a[|a| - 1]
  {
  }

  /** "Can we schedule a call tomorrow?" proposes a meeting. */
  lemma ScheduleIsMeeting()
    ensures DetectMeeting("Can we " + "schedule" + " a call tomorrow?", "")
  {
    WordInSubject("Can we ", "schedule", " a call tomorrow?", "");
    assert Lower("schedule") == "schedule";
    assert MEETING_KEYWORDS[1] == Word("schedule");
    assert Matches(MEETING_KEYWORDS[1], Blob("Can we " + "schedule" + " a call tomorrow?", ""));
  }

  /** Two distinct spam patterns make a message spam, whoever sends it. */
  lemma TwoSpamTermsIsSpam(sender: string)
    ensures Classify("Free" + " gift", "Special " + "offer" + ", claim now", sender) == SPAM
  {
    var subject, body := "Free" + " gift", "Special " + "offer" + ", claim now";
    assert subject == [] + "Free" + " gift";
    WordInSubject([], "Free", " gift", body);
    WordInBody(subject, "Special ", "offer", ", claim now");
    LowerFree("Free", "offer");
    FreeAndOfferAreSpam(Blob(subject, body), 0, |subject| + 1 + |"Special "|);
  }

  lemma LowerFree(w1: string, w2: string)
    requires w1 == "Free" && w2 == "offer"
    ensures Lower(w1) == "free" && Lower(w2) == "offer"
  {
  }

  /** A text in which both `\bfree\b` and `\boffer\b` occur matches at least
      two spam patterns. */
  lemma FreeAndOfferAreSpam(t: string, i: int, j: int)
    requires OccursAt(t, "free", i) && OccursAt(t, "offer", j)
    ensures |MatchSet(SPAM_KEYWORDS, t)| >= 2
  {
    assert SPAM_KEYWORDS[0] == Word("free") && SPAM_KEYWORDS[8] == Word("offer");
    assert Matches(Word("free"), t) && Matches(Word("offer"), t);
    assert Word("free") in MatchSet(SPAM_KEYWORDS, t);
    assert Word("offer") in MatchSet(SPAM_KEYWORDS, t);
    TwoMembers(MatchSet(SPAM_KEYWORDS, t), Word("free"), Word("offer"));
  }

  lemma TwoMembers<T>(s: set<T>, a: T, b: T)
    requires a in s && b in s && a != b
    ensures |s| >= 2
  {
    var rest := s - {a, b};
    assert s == rest + {a, b};
  }

  /** The marker must directly follow the `@`, with nothing required after
      it: "a@company.com" and "x@organic.net" earn the bonus. */
  lemma InstitutionalSenders()
    ensures SenderBonus("a@" + "company" + ".com") == 2
    ensures SenderBonus("x@" + "organic" + ".net") == 2
  {
    MarkerAfterAt("a@", "company", ".com", 0);
    MarkerAfterAt("x@", "organic", ".net", 2);
  }

  /** A sender `a + m + b` whose `a` ends in `@` and whose `m` starts with the
      `k`-th marker is institutional. */
  lemma MarkerAfterAt(a: string, m: string, b: string, k: nat)
    requires a != [] && a[|a| - 1] == '@'
    requires k < |INSTITUTIONS| && INSTITUTIONS[k] <= Lower(m)
    ensures InstitutionalSender(a + m + b)
  {
    var s := a + m + b;
    LowerAppend(a + m, b);
    LowerAppend(a, m);
    var l := Lower(s);
    assert l[|a| - 1] == '@';
    assert l[|a|..] == Lower(m) + Lower(b);
    assert InstitutionAt(l, |a| - 1);
  }

  /** "x@gmail.org" earns nothing: "org" follows a dot, not the `@`. */
  lemma PlainSender()
    ensures SenderBonus("x@" + "gmail.org") == 0
  {
    LowerAppend("x@", "gmail.org");
    LowerPlain("x@", "gmail.org");
    NoMarker("x@", "gmail.org");
  }

  lemma LowerPlain(a: string, b: string)
    requires a == "x@" && b == "gmail.org"
    ensures Lower(a) == a && Lower(b) == b
  {
  }

  lemma NoMarker(a: string, rest: string)
    requires a == "x@" && rest == "gmail.org"
    ensures forall i :: !InstitutionAt(a + rest, i)
  {
    var l := a + rest;
    assert '@' !in rest;
    forall i | 0 <= i < |l| ensures !InstitutionAt(l, i) {
      if i == 0 {
        assert l[0] == 'x';
      } else if i == 1 {
        assert l[2..] == rest;
        forall k | 0 <= k < |INSTITUTIONS| ensures !(INSTITUTIONS[k] <= rest) {
          assert INSTITUTIONS[k][0] != 'g' || INSTITUTIONS[k][1] != 'm';
        }
      } else {
        assert l[i] == rest[i - 2];
      }
    }
  }

  /** The gapped meeting pattern: "join" and "today" on one line match ... */
  lemma JoinTodayOneLine(t: string)
    requires t == "join us today"
    ensures Matches(MEETING_KEYWORDS[13], t)
  {
    var tails := ["today", "tomorrow"];
    assert MEETING_KEYWORDS[13] == Gap("join", tails);
    assert t[0..4] == "join" && t[8..13] == "today";
    assert OccursAt(t, tails[0], 8);
    assert GapAt(t, "join", tails, 0, 8);
  }

  /** ... and a line break between them prevents the match. */
  lemma JoinTodayTwoLines(t: string)
    requires t == "join us\ntoday"
    ensures !Matches(MEETING_KEYWORDS[13], t)
  {
    var tails := ["today", "tomorrow"];
    assert MEETING_KEYWORDS[13] == Gap("join", tails);
    forall i | 0 <= i <= |t| ensures OccursAt(t, "join", i) ==> i == 0 {
      if OccursAt(t, "join", i) {
        assert t[i] == t[i..i + 4][0];
      }
    }
    forall j | 0 <= j <= |t| ensures AnyOccursAt(t, tails, j) ==> j == 8 {
      if AnyOccursAt(t, tails, j) {
        var k :| 0 <= k < |tails| && OccursAt(t, tails[k], j);
        assert t[j] == t[j..j + |tails[k]|][0];
      }
    }
    assert t[7] == '\n' && t[4..8][3] == t[7];
  }
}
