/** The template fallbacks that draft a reply or a new message without the
    text-generation service: a body chosen from fixed sentences, framed by the
    tone profile's greeting and signoff. */
module Templates {
  import opened Text
  import opened Tone

  /** What both template functions return. */
  datatype Draft = Draft(greeting: string, body: string, signoff: string, fullText: string, tone: string)

  const THANKS_REPLY: string :=
    "Thank you for your email. I appreciate you reaching out. I'll review this and get back to you shortly."
  const MEETING_REPLY: string :=
    "Thank you for the meeting invite. I'd be happy to join. Please let me know the time that works best for you."
  const QUESTION_REPLY: string :=
    "Thanks for your question. I'll look into this and provide you with detailed information soon."
  const DEFAULT_REPLY: string :=
    "Thank you for your email. I've received your message and will respond appropriately."

  /** What a new message says after the line naming its subject. */
  const EMAIL_PREFIX: string := "Regarding: "
  const EMAIL_CLOSING: string :=
    "\n\nI wanted to reach out to discuss this matter with you. Please let me know your thoughts."

  /** The full text of a draft: greeting, a comma and a blank line, the body,
      a blank line, the signoff. */
  function Compose(greeting: string, body: string, signoff: string): string {
    greeting + ",\n\n" + body + "\n\n" + signoff
  }

  // ---------------------------------------------------------------------------
  // Reading a composed text back

  /** The greeting of a composed text: everything before its first comma. */
  function GreetingOf(fullText: string): string {
    TakeUntil(fullText, ',')
  }

  /** The signoff of a composed text: everything after its last newline. */
  function SignoffOf(fullText: string): string {
    AfterLast(fullText, '\n')
  }

  /** The body of a composed text: what lies between the greeting's ",\n\n"
      and the signoff's "\n\n". */
  function BodyOf(fullText: string): string {
    var lo := |GreetingOf(fullText)| + 3;
    var hi := |fullText| - |SignoffOf(fullText)| - 2;
    if lo <= hi then fullText[lo..hi] else ""
  }

  /** A composed text gives back its three parts, provided the greeting holds
      no comma and the signoff no newline. */
  lemma {:induction false} ComposeParses(greeting: string, body: string, signoff: string)
    requires ',' !in greeting && '\n' !in signoff
    ensures GreetingOf(Compose(greeting, body, signoff)) == greeting
    ensures SignoffOf(Compose(greeting, body, signoff)) == signoff
    ensures BodyOf(Compose(greeting, body, signoff)) == body
  {
    ComposeSplitsAtComma(greeting, body, signoff);
    TakeUntilPrefix(greeting, ',', "\n\n" + body + "\n\n" + signoff);
    ComposeSplitsAtNewline(greeting, body, signoff);
    AfterLastSuffix(greeting + ",\n\n" + body + "\n", '\n', signoff);
    ComposeBodySlice(greeting, body, signoff);
  }

  lemma ComposeSplitsAtComma(greeting: string, body: string, signoff: string)
    ensures Compose(greeting, body, signoff) == greeting + [','] + ("\n\n" + body + "\n\n" + signoff)
  {
  }

  lemma ComposeSplitsAtNewline(greeting: string, body: string, signoff: string)
    ensures Compose(greeting, body, signoff) == (greeting + ",\n\n" + body + "\n") + ['\n'] + signoff
  {
  }

  lemma ComposeBodySlice(greeting: string, body: string, signoff: string)
    ensures var s := Compose(greeting, body, signoff);
            s[|greeting| + 3..|s| - |signoff| - 2] == body
  {
  }

  /** A base tone whose greeting and signoff can be read back from a draft. */
  predicate Readable(t: BaseTone) {
    ',' !in t.greeting && '\n' !in t.signoff
  }

  /** Every greeting in the tone table is free of commas and every signoff
      free of newlines, so every template draft can be read back. */
  lemma {:induction false} ToneTableParses(recipientType: string)
    ensures Readable(ToneFor(recipientType))
  {
    RecipientTypes();
    var key := if recipientType in BASE_TONES then recipientType else FALLBACK_TYPE;
    assert ToneFor(recipientType) == BASE_TONES[key];
    if key == "friend" { FriendReadable(); }
    else if key == "colleague" { ColleagueReadable(); }
    else if key == "relative" { RelativeReadable(); }
    else if key == "student" { StudentReadable(); }
    else if key == "client" { ClientReadable(); }
    else { BossReadable(); }
  }

  lemma FriendReadable() ensures Readable(BASE_TONES["friend"]) {}
  lemma ColleagueReadable() ensures Readable(BASE_TONES["colleague"]) {}
  lemma RelativeReadable() ensures Readable(BASE_TONES["relative"]) {}
  lemma StudentReadable() ensures Readable(BASE_TONES["student"]) {}
  lemma ClientReadable() ensures Readable(BASE_TONES["client"]) {}
  lemma BossReadable() ensures Readable(BASE_TONES["boss"]) {}

  // ---------------------------------------------------------------------------
  // Reply template

  /** The reply body, chosen by the first of "thank", "meeting", "question"
      found in the lower-cased reply context, in that order. */
  function ReplyBody(replyContext: string): (body: string)
    ensures body == THANKS_REPLY <==> HasSubstring(Lower(replyContext), "thank")
    ensures body == MEETING_REPLY <==>
              !HasSubstring(Lower(replyContext), "thank") && HasSubstring(Lower(replyContext), "meeting")
    ensures body == QUESTION_REPLY <==>
              !HasSubstring(Lower(replyContext), "thank") && !HasSubstring(Lower(replyContext), "meeting")
              && HasSubstring(Lower(replyContext), "question")
    ensures body == DEFAULT_REPLY <==>
              !HasSubstring(Lower(replyContext), "thank") && !HasSubstring(Lower(replyContext), "meeting")
              && !HasSubstring(Lower(replyContext), "question")
  {
    var ctx := Lower(replyContext);
    ContainsIsSubstring(ctx, "thank");
    ContainsIsSubstring(ctx, "meeting");
    ContainsIsSubstring(ctx, "question");
    if Contains(ctx, "thank") then THANKS_REPLY
    else if Contains(ctx, "meeting") then MEETING_REPLY
    else if Contains(ctx, "question") then QUESTION_REPLY
    else DEFAULT_REPLY
  }

  /** `generate_template_reply`: the chosen body framed by the tone profile. */
  function TemplateReply(replyContext: string, recipientType: string, formality: real): (d: Draft)
    ensures d.body == ReplyBody(replyContext)
    ensures d.greeting == GetToneProfile(recipientType, formality).greeting
    ensures d.signoff == GetToneProfile(recipientType, formality).signoff
    ensures d.tone == GetToneProfile(recipientType, formality).style
    ensures d.fullText == Compose(d.greeting, d.body, d.signoff)
    ensures GreetingOf(d.fullText) == d.greeting
    ensures BodyOf(d.fullText) == d.body
    ensures SignoffOf(d.fullText) == d.signoff
  {
    var profile := GetToneProfile(recipientType, formality);
    var body := ReplyBody(replyContext);
    ToneTableParses(recipientType);
    ComposeParses(profile.greeting, body, profile.signoff);
    Draft(profile.greeting, body, profile.signoff, Compose(profile.greeting, body, profile.signoff), profile.style)
  }

  // ---------------------------------------------------------------------------
  // New-message template

  /** The body of a new message about `context`: the fixed opening, the
      context, the fixed closing. */
  function EmailBody(context: string): (r: string)
    ensures EMAIL_PREFIX <= r
    ensures |r| == |EMAIL_PREFIX| + |context| + |EMAIL_CLOSING|
    ensures r[|EMAIL_PREFIX|..|r| - |EMAIL_CLOSING|] == context
    ensures r[|r| - |EMAIL_CLOSING|..] == EMAIL_CLOSING
  {
    EMAIL_PREFIX + context + EMAIL_CLOSING
  }

  /** The context a new-message body is about. */
  function ContextOf(body: string): string {
    if |EMAIL_PREFIX| + |EMAIL_CLOSING| <= |body|
    then body[|EMAIL_PREFIX|..|body| - |EMAIL_CLOSING|]
    else ""
  }

  /** `generate_template_email`: a body naming the context, framed by the tone
      profile; the context can be read back from the body and the body from
      the full text. */
  function TemplateEmail(context: string, recipientType: string, formality: real): (d: Draft)
    ensures d.body == EmailBody(context)
    ensures ContextOf(d.body) == context
    ensures d.greeting == GetToneProfile(recipientType, formality).greeting
    ensures d.signoff == GetToneProfile(recipientType, formality).signoff
    ensures d.tone == GetToneProfile(recipientType, formality).style
    ensures d.fullText == Compose(d.greeting, d.body, d.signoff)
    ensures GreetingOf(d.fullText) == d.greeting
    ensures BodyOf(d.fullText) == d.body
    ensures SignoffOf(d.fullText) == d.signoff
  {
    var profile := GetToneProfile(recipientType, formality);
    var body := EmailBody(context);
    ToneTableParses(recipientType);
    ComposeParses(profile.greeting, body, profile.signoff);
    Draft(profile.greeting, body, profile.signoff, Compose(profile.greeting, body, profile.signoff), profile.style)
  }
}
