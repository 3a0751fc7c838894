/** The two small pieces of decision logic in the interactive workflow: the
    recipient menu and the end-of-run tally of triage results. */
module Workflow {
  import opened Tone
  import opened Matcher
  import opened Keywords
  import opened Classifier

  /** The recipient menu offered before drafting a reply or a new message. */
  const RECIPIENT_MENU: map<string, string> :=
    map["1" := "friend", "2" := "colleague", "3" := "client", "4" := "boss", "5" := "relative"]

  /** `type_map.get(choice, "colleague")`. Whatever is typed, the result is a
      recipient type the tone table knows, so the tone lookup never needs its
      own fallback; anything off the menu means a colleague. */
  function RecipientForChoice(choice: string): (r: string)
    ensures r in BASE_TONES
    ensures r != "student"
    ensures choice !in RECIPIENT_MENU ==> r == FALLBACK_TYPE
    ensures choice in RECIPIENT_MENU ==> r == RECIPIENT_MENU[choice]
  {
    if choice in RECIPIENT_MENU then RECIPIENT_MENU[choice] else FALLBACK_TYPE
  }

  /** Different menu entries name different recipient types. */
  lemma MenuInjective(c1: string, c2: string)
    requires c1 in RECIPIENT_MENU && c2 in RECIPIENT_MENU && c1 != c2
    ensures RecipientForChoice(c1) != RecipientForChoice(c2)
  {
  }

  /** What the workflow records about one processed message. */
  datatype Outcome = Outcome(category: Category, hasMeeting: bool)

  /** One unread message as the processing loop sees it. */
  datatype Message = Message(sender: string, subject: string, body: string)

  /** The text of a message is spam: at least two distinct spam patterns
      match its lower-cased subject and body. */
  ghost predicate IsSpamText(m: Message) {
    |MatchSet(SPAM_KEYWORDS, Blob(m.subject, m.body))| >= 2
  }

  /** The text of a message proposes a meeting: some meeting pattern matches
      its lower-cased subject and body. */
  ghost predicate ProposesMeeting(m: Message) {
    exists p :: p in MEETING_KEYWORDS && Matches(p, Blob(m.subject, m.body))
  }

  /** The verdicts recorded for one message: its category and whether it
      proposes a meeting. */
  function Triage(m: Message): (o: Outcome)
    ensures o.category == SPAM <==> IsSpamText(m)
    ensures o.hasMeeting <==> ProposesMeeting(m)
    ensures o.category == PERSONAL <==>
              !IsSpamText(m)
              && 0 < |MatchSet(PERSONAL_KEYWORDS, Blob(m.subject, m.body))|
              && |MatchSet(PROFESSIONAL_KEYWORDS, Blob(m.subject, m.body))| + SenderBonus(m.sender)
                 <= |MatchSet(PERSONAL_KEYWORDS, Blob(m.subject, m.body))|
  {
    Outcome(Classify(m.subject, m.body, m.sender), DetectMeeting(m.subject, m.body))
  }

  /** The processing loop: every message is triaged in turn and its outcome
      appended to the results, so the results follow the messages one for
      one and in order. */
  method ProcessInbox(messages: seq<Message>) returns (results: seq<Outcome>)
    ensures |results| == |messages|
    ensures forall i :: 0 <= i < |messages| ==> results[i] == Triage(messages[i])
    ensures Summarize(results).spam == SpamMessages(messages)
    ensures Summarize(results).meetings == MeetingMessages(messages)
  {
    results := [];
    var k := 0;
    while k < |messages|
      invariant 0 <= k <= |messages|
      invariant |results| == k
      invariant forall i :: 0 <= i < k ==> results[i] == Triage(messages[i])
    {
      results := results + [Triage(messages[k])];
      k := k + 1;
    }
    TallyCountsMessages(messages, results);
  }

  /** How many of the messages are spam by their text. */
  ghost function SpamMessages(messages: seq<Message>): nat {
    if messages == [] then 0
    else (if IsSpamText(messages[0]) then 1 else 0) + SpamMessages(messages[1..])
  }

  /** How many of the messages propose a meeting by their text. */
  ghost function MeetingMessages(messages: seq<Message>): nat {
    if messages == [] then 0
    else (if ProposesMeeting(messages[0]) then 1 else 0) + MeetingMessages(messages[1..])
  }

  /** The tally over triaged messages counts as spam exactly the messages
      whose text holds two spam patterns, and as meetings exactly those that
      propose one; the sender never enters either count. */
  lemma {:induction false} TallyCountsMessages(messages: seq<Message>, results: seq<Outcome>)
    requires |results| == |messages|
    requires forall i :: 0 <= i < |messages| ==> results[i] == Triage(messages[i])
    ensures Summarize(results).spam == SpamMessages(messages)
    ensures Summarize(results).meetings == MeetingMessages(messages)
  {
    if messages != [] {
      TallyCountsMessages(messages[1..], results[1..]);
    }
  }

  /** `sum(1 for r in results if r['category'] == c)`. */
  function CountCategory(results: seq<Outcome>, c: Category): (n: nat)
    ensures n <= |results|
  {
    if results == [] then 0
    else (if results[0].category == c then 1 else 0) + CountCategory(results[1..], c)
  }

  /** `sum(1 for r in results if r['has_meeting'])`. */
  function CountMeetings(results: seq<Outcome>): (n: nat)
    ensures n <= |results|
  {
    if results == [] then 0
    else (if results[0].hasMeeting then 1 else 0) + CountMeetings(results[1..])
  }

  /** The tally as written: results whose recorded label string equals
      `name`. */
  function CountLabel(results: seq<Outcome>, name: string): (n: nat)
    ensures n <= |results|
  {
    if results == [] then 0
    else (if Label(results[0].category) == name then 1 else 0) + CountLabel(results[1..], name)
  }

  /** Counting by label string counts exactly the results of that category. */
  lemma {:induction false} CountLabelIsCountCategory(results: seq<Outcome>, c: Category)
    ensures CountLabel(results, Label(c)) == CountCategory(results, c)
  {
    if results != [] {
      LabelInjective(results[0].category, c);
      CountLabelIsCountCategory(results[1..], c);
    }
  }

  /** The statistics printed at the end of a run. */
  datatype Summary = Summary(personal: nat, professional: nat, spam: nat, meetings: nat)

  function Summarize(results: seq<Outcome>): (s: Summary)
    ensures s.personal == CountCategory(results, PERSONAL)
    ensures s.professional == CountCategory(results, PROFESSIONAL)
    ensures s.spam == CountCategory(results, SPAM)
    ensures s.meetings == CountMeetings(results)
  {
    Summary(CountCategory(results, PERSONAL), CountCategory(results, PROFESSIONAL),
            CountCategory(results, SPAM), CountMeetings(results))
  }

  /** Every result is counted under exactly one category, so the three
      category counts add up to the number of results. */
  lemma {:induction false} TallyPartition(results: seq<Outcome>)
    ensures Summarize(results).personal + Summarize(results).professional + Summarize(results).spam
            == |results|
    ensures Summarize(results).meetings <= |results|
  {
    if results != [] {
      TallyPartition(results[1..]);
    }
  }

  /** Appending one result adds one to its own category and nothing to the
      others. */
  lemma {:induction false} CountCategoryAppend(results: seq<Outcome>, o: Outcome, c: Category)
    ensures CountCategory(results + [o], c)
            == CountCategory(results, c) + (if o.category == c then 1 else 0)
  {
    if results != [] {
      assert (results + [o])[1..] == results[1..] + [o];
      CountCategoryAppend(results[1..], o, c);
    }
  }
}
