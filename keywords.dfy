/** The four constant pattern tables of the triage engine, entry for entry and
    in their original order. Every entry is already lower-case: the engine
    lowers the text, never the patterns. */
module Keywords {
  import opened Matcher

  const SPAM_KEYWORDS: seq<Pattern> := [
    Word("free"), Word("win"), Word("prize"), Word("lottery"),
    Word("congratulations"), Word("claim now"), Word("click here"),
    Word("unsubscribe"), Word("offer"), Word("discount"),
    Word("save up to"), Word("earn points"), Word("grab your offer"),
    Word("exclusive deal"), Word("limited time"), Word("shop now"),
    Word("noreply@"), Word("mailers"), Word("survey"), Word("recommendations@")
  ]

  const PROFESSIONAL_KEYWORDS: seq<Pattern> := [
    Word("meeting"), Word("project"), Word("deadline"), Word("report"),
    Word("proposal"), Word("client"), Word("team"), Word("work"),
    Word("office"), Word("presentation"), Word("conference"),
    Word("business"), Word("schedule"), Word("agenda")
  ]

  const PERSONAL_KEYWORDS: seq<Pattern> := [
    Word("family"), Word("friend"), Word("party"), Word("birthday"),
    Word("weekend"), Word("dinner"), Word("lunch"), Word("coffee"),
    Word("how are you"), Word("miss you"), Word("catch up")
  ]

  const MEETING_KEYWORDS: seq<Pattern> := [
    Word("meeting"), Word("schedule"), Word("call"), Word("appointment"),
    Word("conference"), Word("discussion"), Word("catch up"),
    Word("let's meet"), Word("meet up"), Word("zoom"), Word("teams"),
    Word("interview"), Word("session"), Gap("join", ["today", "tomorrow"]),
    Word("webinar"), Word("virtual meeting"), Word("video call")
  ]

  /** No table lists a pattern twice, so a table's score is a number of
      distinct patterns. */
  lemma SpamDistinct() ensures Distinct(SPAM_KEYWORDS) {
    SpamHeadDistinct();
    SpamTailDistinct();
    SpamHeadTailApart();
    DistinctAppend(SPAM_KEYWORDS[..10], SPAM_KEYWORDS[10..]);
    assert SPAM_KEYWORDS == SPAM_KEYWORDS[..10] + SPAM_KEYWORDS[10..];
  }
  lemma SpamHeadDistinct() ensures Distinct(SPAM_KEYWORDS[..10]) {}
  lemma SpamTailDistinct() ensures Distinct(SPAM_KEYWORDS[10..]) {}
  lemma SpamHeadTailApart()
    ensures forall i, j :: 0 <= i < 10 <= j < |SPAM_KEYWORDS| ==> SPAM_KEYWORDS[i] != SPAM_KEYWORDS[j]
  {}
  lemma ProfessionalDistinct() ensures Distinct(PROFESSIONAL_KEYWORDS) {}
  lemma PersonalDistinct() ensures Distinct(PERSONAL_KEYWORDS) {}
  lemma MeetingDistinct() ensures Distinct(MEETING_KEYWORDS) {
    MeetingHeadDistinct();
    MeetingTailDistinct();
    MeetingHeadTailApart();
    DistinctAppend(MEETING_KEYWORDS[..9], MEETING_KEYWORDS[9..]);
    assert MEETING_KEYWORDS == MEETING_KEYWORDS[..9] + MEETING_KEYWORDS[9..];
  }
  lemma MeetingHeadDistinct() ensures Distinct(MEETING_KEYWORDS[..9]) {}
  lemma MeetingTailDistinct() ensures Distinct(MEETING_KEYWORDS[9..]) {}
  lemma MeetingHeadTailApart()
    ensures forall i, j :: 0 <= i < 9 <= j < |MEETING_KEYWORDS| ==> MEETING_KEYWORDS[i] != MEETING_KEYWORDS[j]
  {}

  /** Every pattern of every table begins with a letter. */
  lemma TablesStartWithWordChars()
    ensures forall k :: 0 <= k < |SPAM_KEYWORDS| ==> StartsWithWordChar(SPAM_KEYWORDS[k])
    ensures forall k :: 0 <= k < |PROFESSIONAL_KEYWORDS| ==> StartsWithWordChar(PROFESSIONAL_KEYWORDS[k])
    ensures forall k :: 0 <= k < |PERSONAL_KEYWORDS| ==> StartsWithWordChar(PERSONAL_KEYWORDS[k])
    ensures forall k :: 0 <= k < |MEETING_KEYWORDS| ==> StartsWithWordChar(MEETING_KEYWORDS[k])
  {
  }
}
