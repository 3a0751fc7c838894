/** The rule-based triage of one message: spam threshold, professional and
    personal scores, the institutional-sender bonus, and meeting detection. */
module Classifier {
  import opened Text
  import opened Matcher
  import opened Keywords

  /** The three labels `classify_email` returns. */
  datatype Category = SPAM | PROFESSIONAL | PERSONAL

  /** The string the source returns for each label. */
  function Label(c: Category): string {
    match c
    case SPAM => "SPAM"
    case PROFESSIONAL => "PROFESSIONAL"
    case PERSONAL => "PERSONAL"
  }

  /** The three labels are different strings, so comparing labels is
      comparing categories. */
  lemma LabelInjective(c1: Category, c2: Category)
    ensures Label(c1) == Label(c2) <==> c1 == c2
  {
  }

  /** The text every score is computed on: `(subject + " " + body).lower()`. */
  function Blob(subject: string, body: string): string {
    Lower(subject + " " + body)
  }

  // ---------------------------------------------------------------------------
  // Sender-domain bonus

  /** The institutional markers that may follow the `@` of a sender. */
  const INSTITUTIONS: seq<string> := ["company", "corp", "org", "edu", "gov"]

  /** `s` has an `@` at position `i` that is immediately followed by one of the
      institutional markers (no word boundary is required after it). */
  predicate InstitutionAt(s: string, i: int) {
    0 <= i < |s| && s[i] == '@'
    && exists k | 0 <= k < |INSTITUTIONS| :: INSTITUTIONS[k] <= s[i + 1..]
  }

  /** `re.search(r'@(company|corp|org|edu|gov)', sender.lower())` succeeds. */
  ghost predicate InstitutionalSender(sender: string) {
    exists i :: InstitutionAt(Lower(sender), i)
  }

  /** Scan for an institutional `@` at positions `i`, `i + 1`, ... */
  function FindInstitutionFrom(s: string, i: nat): bool
    decreases |s| - i
  {
    if i >= |s| then false else InstitutionAt(s, i) || FindInstitutionFrom(s, i + 1)
  }

  lemma {:induction false} FindInstitutionFromSound(s: string, i: nat)
    ensures FindInstitutionFrom(s, i) <==> exists j :: i <= j && InstitutionAt(s, j)
    decreases |s| - i
  {
    if i < |s| {
      FindInstitutionFromSound(s, i + 1);
    }
  }

  /** The amount added to the professional score for the sender: 2 for an
      institutional sender, otherwise 0. It never fails, whatever the sender. */
  function SenderBonus(sender: string): (b: nat)
    ensures b == 0 || b == 2
    ensures b == 2 <==> InstitutionalSender(sender)
  {
    FindInstitutionFromSound(Lower(sender), 0);
    if FindInstitutionFrom(Lower(sender), 0) then 2 else 0
  }

  /** A sender without any `@` (the empty sender included) gets no bonus. */
  lemma NoAtNoBonus(sender: string)
    requires '@' !in sender
    ensures SenderBonus(sender) == 0
  {
    LowerKeepsNonLetters(sender, '@');
  }

  // ---------------------------------------------------------------------------
  // Scores

  /** The spam score: the number of distinct spam patterns that match. */
  function SpamScore(subject: string, body: string): (n: nat)
    ensures n <= |SPAM_KEYWORDS|
    ensures n == |MatchSet(SPAM_KEYWORDS, Blob(subject, body))|
  {
    SpamDistinct();
    CountIsMatchSetSize(SPAM_KEYWORDS, Blob(subject, body));
    CountMatches(SPAM_KEYWORDS, Blob(subject, body))
  }

  /** The professional score: distinct professional patterns that match, plus
      the sender bonus. */
  function ProfessionalScore(subject: string, body: string, sender: string): (n: nat)
    ensures n <= |PROFESSIONAL_KEYWORDS| + 2
    ensures n == |MatchSet(PROFESSIONAL_KEYWORDS, Blob(subject, body))| + SenderBonus(sender)
  {
    ProfessionalDistinct();
    CountIsMatchSetSize(PROFESSIONAL_KEYWORDS, Blob(subject, body));
    CountMatches(PROFESSIONAL_KEYWORDS, Blob(subject, body)) + SenderBonus(sender)
  }

  /** The personal score: the number of distinct personal patterns that match. */
  function PersonalScore(subject: string, body: string): (n: nat)
    ensures n <= |PERSONAL_KEYWORDS|
    ensures n == |MatchSet(PERSONAL_KEYWORDS, Blob(subject, body))|
  {
    PersonalDistinct();
    CountIsMatchSetSize(PERSONAL_KEYWORDS, Blob(subject, body));
    CountMatches(PERSONAL_KEYWORDS, Blob(subject, body))
  }

  // ---------------------------------------------------------------------------
  // Classification

  /** `classify_email`: spam first, then the professional/personal comparison
      with PROFESSIONAL as the default when nothing personal matched. */
  function Classify(subject: string, body: string, sender: string): (c: Category)
    ensures c == SPAM <==> |MatchSet(SPAM_KEYWORDS, Blob(subject, body))| >= 2
    ensures c == PERSONAL <==>
              |MatchSet(SPAM_KEYWORDS, Blob(subject, body))| < 2
              && 0 < |MatchSet(PERSONAL_KEYWORDS, Blob(subject, body))|
              && |MatchSet(PROFESSIONAL_KEYWORDS, Blob(subject, body))| + SenderBonus(sender)
                 <= |MatchSet(PERSONAL_KEYWORDS, Blob(subject, body))|
  {
    if SpamScore(subject, body) >= 2 then SPAM
    else
      var prof := ProfessionalScore(subject, body, sender);
      var personal := PersonalScore(subject, body);
      if prof > personal then PROFESSIONAL
      else if personal > 0 then PERSONAL
      else PROFESSIONAL
  }

  /** Whether a message is spam never depends on its sender. */
  lemma SpamIgnoresSender(subject: string, body: string, sender1: string, sender2: string)
    ensures Classify(subject, body, sender1) == SPAM <==> Classify(subject, body, sender2) == SPAM
  {
  }

  /** Equal non-zero professional and personal scores resolve to PERSONAL. */
  lemma TieIsPersonal(subject: string, body: string, sender: string)
    requires SpamScore(subject, body) < 2
    requires ProfessionalScore(subject, body, sender) == PersonalScore(subject, body) > 0
    ensures Classify(subject, body, sender) == PERSONAL
  {
  }

  /** Mail that matches no professional and no personal pattern, and is not
      spam, is PROFESSIONAL whoever sent it. */
  lemma NeutralIsProfessional(subject: string, body: string, sender: string)
    requires SpamScore(subject, body) < 2
    requires PersonalScore(subject, body) == 0
    ensures Classify(subject, body, sender) == PROFESSIONAL
  {
  }

  /** For the same text, an institutional sender turns a tie that a plain
      sender loses to PERSONAL into PROFESSIONAL. */
  lemma BonusBreaksTie(subject: string, body: string, plain: string, institutional: string)
    requires SpamScore(subject, body) < 2
    requires !InstitutionalSender(plain) && InstitutionalSender(institutional)
    requires ProfessionalScore(subject, body, plain) == PersonalScore(subject, body) > 0
    ensures Classify(subject, body, plain) == PERSONAL
    ensures Classify(subject, body, institutional) == PROFESSIONAL
  {
  }

  /** Upper- and lower-case letters are treated alike in subject, body and
      sender. */
  lemma {:induction false} ClassifyIgnoresCase(subject: string, body: string, sender: string)
    ensures Classify(subject, body, sender) == Classify(Lower(subject), Lower(body), Lower(sender))
  {
    BlobIgnoresCase(subject, body);
    LowerIdempotent(sender);
  }

  lemma {:induction false} BlobIgnoresCase(subject: string, body: string)
    ensures Blob(Lower(subject), Lower(body)) == Blob(subject, body)
  {
    LowerAppend(subject, " ");
    LowerAppend(subject + " ", body);
    LowerAppend(Lower(subject), " ");
    LowerAppend(Lower(subject) + " ", body);
    assert Lower(" ") == " ";
    LowerAppend(Lower(subject) + " ", Lower(body));
    LowerIdempotent(subject);
    LowerIdempotent(body);
  }

  // ---------------------------------------------------------------------------
  // Meeting detection

  /** `detect_meeting`: some meeting pattern matches the lower-cased subject
      and body. The sender plays no part. */
  function DetectMeeting(subject: string, body: string): (b: bool)
    ensures b <==> exists p :: p in MEETING_KEYWORDS && Matches(p, Blob(subject, body))
  {
    AnyFound(MEETING_KEYWORDS, Blob(subject, body))
  }

  /** Upper- and lower-case letters are treated alike by meeting detection. */
  lemma {:induction false} DetectMeetingIgnoresCase(subject: string, body: string)
    ensures DetectMeeting(subject, body) == DetectMeeting(Lower(subject), Lower(body))
  {
    BlobIgnoresCase(subject, body);
  }

  // ---------------------------------------------------------------------------
  // Messages without words

  lemma {:induction false} BlobWithoutWords(subject: string, body: string)
    requires forall k :: 0 <= k < |subject| ==> !IsWordChar(subject[k])
    requires forall k :: 0 <= k < |body| ==> !IsWordChar(body[k])
    ensures forall k :: 0 <= k < |Blob(subject, body)| ==> !IsWordChar(Blob(subject, body)[k])
  {
    var raw := subject + " " + body;
    forall k | 0 <= k < |raw| ensures !IsWordChar(Blob(subject, body)[k]) {
      if k < |subject| {
        assert raw[k] == subject[k];
      } else if k > |subject| {
        assert raw[k] == body[k - |subject| - 1];
      }
    }
  }

  /** A message whose subject and body hold no word character (the empty
      message among them) is PROFESSIONAL and proposes no meeting, whoever
      sent it. */
  lemma {:induction false} NoWordsIsProfessional(subject: string, body: string, sender: string)
    requires forall k :: 0 <= k < |subject| ==> !IsWordChar(subject[k])
    requires forall k :: 0 <= k < |body| ==> !IsWordChar(body[k])
    ensures Classify(subject, body, sender) == PROFESSIONAL
    ensures !DetectMeeting(subject, body)
  {
    var t := Blob(subject, body);
    BlobWithoutWords(subject, body);
    TablesStartWithWordChars();
    NoWordCharScoresZero(SPAM_KEYWORDS, t);
    NoWordCharScoresZero(PERSONAL_KEYWORDS, t);
    NoWordCharScoresZero(MEETING_KEYWORDS, t);
    forall p | p in MEETING_KEYWORDS ensures !Matches(p, t) {
      NoWordCharNoMatch(p, t);
    }
  }

  /** `classify_email("", "", sender)` is PROFESSIONAL. */
  lemma EmptyIsProfessional(sender: string)
    ensures Classify("", "", sender) == PROFESSIONAL
  {
    NoWordsIsProfessional("", "", sender);
  }
}
