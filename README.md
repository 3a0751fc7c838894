# E-mail triage engine: a verified model

This project models the decision logic of the e-mail automation script
`email_automation.py`:

- the rule-based classifier that labels an incoming message SPAM,
  PROFESSIONAL or PERSONAL;
- the meeting detector;
- the tone engine that picks a greeting, a signoff and a style for a recipient
  type and a formality;
- the template fallbacks that draft a reply or a new message;
- the recipient menu and the end-of-run tally of the processing workflow.

Everything in this core is deterministic string processing over constant
tables, so it is modelled as functions and lemmas. Each operation that scans
(regular-expression search, substring test, early-exit loop) has two parts.
One is an executable scanning function. The other is a declarative meaning,
stated as an existential over positions. A lemma proves the two agree.

Files and modules:

- `text.dfy` (`Text`): ASCII word characters and lower-casing, substring
  search, and the prefix/suffix splitting used to read a draft back.
- `matcher.dfy` (`Matcher`): the two pattern shapes of the keyword tables.
  A literal `\bword\b` is one shape. The gapped
  `\bjoin\b.*\b(?:today|tomorrow)\b` is the other. The module also holds
  their search and the presence score over a table.
- `keywords.dfy` (`Keywords`): the four keyword tables, entry for entry.
- `classifier.dfy` (`Classifier`): `classify_email`, the sender-domain bonus
  and `detect_meeting`.
- `tone.dfy` (`Tone`): `ToneEngine.base_tones`, `blend` and
  `get_tone_profile`.
- `templates.dfy` (`Templates`): `generate_template_reply` and
  `generate_template_email`.
- `workflow.dfy` (`Workflow`): the recipient menu, the loop that records
  each message's verdicts, and the category/meeting tally.
- `scenarios.dfy` (`Scenarios`): concrete messages and senders, and the
  verdicts proved for them.

Decisions worth knowing:

- Ties. When the professional score (bonus included) equals a non-zero
  personal score, the code returns PERSONAL. The first test is a strict `>`,
  which fails on a tie, and the second is `personal_count > 0`, which holds.
  One might expect a tie to go to PROFESSIONAL, but the code gives PERSONAL.
  The model follows the code (`Classifier.TieIsPersonal`).
- Line breaks. In the gapped meeting pattern, `.` does not match a newline.
  So "join" and "today"/"tomorrow" must be on the same line. The model keeps
  this (`Scenarios.JoinTodayTwoLines`). It does not follow the looser reading
  "head followed anywhere by tail".
- Regular-expression boundaries. `\b` is modelled exactly as Python defines
  it: the character before and the character after differ in being word
  characters, and the ends of the text count as non-word. So
  `\bnoreply@\b` needs a word character right after the `@`.
- Sender bonus. The institutional test is a bare substring test on the
  lower-cased sender: `@` followed directly by company, corp, org, edu or gov.
  No word boundary follows, so `x@organic.net` earns the bonus and
  `x@gmail.org` does not.
- Labels. The three labels are a datatype `Category`. `Classifier.Label`
  gives the strings the source returns, and the tally's string comparison is
  proved to count the same results as a comparison of categories.
- Formality. Formality is a `real`. It is only compared with 0.33 and 0.66.
  A decimal of at most 15 significant digits falls in the same band whether
  it is read as a binary float or as an exact rational. For the two limits
  themselves, Python's `0.66 > 0.66` and the model's `0.66 > 0.66` are both
  false. Longer decimals can differ (see "## Left out").

## Model

| member | source | states |
|---|---|---|
| Text.Lower | email_automation.py:264 | `.lower()` keeps the length and lowers each character on its own (ASCII letters only) |
| Text.ContainsIsSubstring | email_automation.py:369-374 | the left-to-right scan behind Python's `w in s` succeeds exactly when `w` occurs somewhere in `s` |
| Matcher.FoundIffMatches | email_automation.py:231-259 | scanning for a pattern succeeds exactly when `re.search` would find it. A literal needs `\b` on both sides. The gapped pattern needs a tail later on the head's line |
| Matcher.FindTailOnLineSound | email_automation.py:257 | the tail scan succeeds exactly when some tail occurs at or after the start with no newline in between |
| Matcher.CountMatches | email_automation.py:267 | a table's score is between 0 and the table's length |
| Matcher.CountIsMatchSetSize | email_automation.py:267 | for a table without duplicates, the score is the number of distinct patterns that match. A pattern that occurs many times counts once |
| Matcher.AnyFound | email_automation.py:294-297 | the early-exit loop over a table returns true exactly when some pattern of the table matches |
| Keywords.SpamDistinct | email_automation.py:231-237 | the spam table has no duplicate pattern |
| Keywords.ProfessionalDistinct | email_automation.py:240-245 | the professional table has no duplicate pattern |
| Keywords.PersonalDistinct | email_automation.py:247-251 | the personal table has no duplicate pattern |
| Keywords.MeetingDistinct | email_automation.py:253-259 | the meeting table has no duplicate pattern |
| Keywords.TablesStartWithWordChars | email_automation.py:231-259 | every pattern begins with a word character, so its leading `\b` needs a word character in the text |
| Classifier.LabelInjective | email_automation.py:269-287 | the three returned label strings are different, so equal labels mean equal categories |
| Classifier.SenderBonus | email_automation.py:278-279 | the bonus is 0 or 2. It is 2 exactly when the lower-cased sender has an `@` directly followed by company, corp, org, edu or gov. It never fails |
| Classifier.NoAtNoBonus | email_automation.py:278-279 | a sender with no `@`, the empty sender included, gets no bonus |
| Classifier.SpamScore | email_automation.py:264-267 | the spam score is the number of distinct spam patterns matching the lower-cased subject, a space and the body. It is at most 20 |
| Classifier.ProfessionalScore | email_automation.py:271-279 | the professional score is the number of distinct professional patterns that match, plus the sender bonus. It is at most 14 + 2 |
| Classifier.PersonalScore | email_automation.py:274-275 | the personal score is the number of distinct personal patterns that match. It is at most 11 |
| Classifier.Classify | email_automation.py:262-287 | SPAM exactly when at least 2 distinct spam patterns match. PERSONAL exactly when it is not spam, some personal pattern matches, and professional + bonus does not exceed personal. Otherwise PROFESSIONAL |
| Classifier.SpamIgnoresSender | email_automation.py:264-269 | whether a message is spam never depends on its sender |
| Classifier.TieIsPersonal | email_automation.py:282-287 | equal non-zero professional and personal scores give PERSONAL |
| Classifier.NeutralIsProfessional | email_automation.py:282-287 | non-spam mail with no personal match is PROFESSIONAL, whatever its sender |
| Classifier.BonusBreaksTie | email_automation.py:278-285 | on the same text, a tie that a plain sender loses to PERSONAL is PROFESSIONAL for an institutional sender |
| Classifier.ClassifyIgnoresCase | email_automation.py:264 | lower-casing subject, body and sender first does not change the label |
| Classifier.NoWordsIsProfessional | email_automation.py:262-297 | a subject and body without word characters give PROFESSIONAL and no meeting, whatever the sender |
| Classifier.EmptyIsProfessional | email_automation.py:262-287 | an empty subject and body are PROFESSIONAL, whatever the sender |
| Classifier.DetectMeeting | email_automation.py:290-297 | true exactly when some meeting pattern matches the lower-cased subject, a space and the body. The sender is not an input |
| Classifier.DetectMeetingIgnoresCase | email_automation.py:292 | lower-casing subject and body first does not change the verdict |
| Tone.BandOf | email_automation.py:113-118 | the three bands are disjoint and cover every formality: casual below 0.33, formal above 0.66, balanced in between with both limits included |
| Tone.ModifierInjective | email_automation.py:102-118 | the casual list joined by ", ", the formal list joined by ", " and the balanced phrase are three different suffixes |
| Tone.Blend | email_automation.py:95-120 | the result is the base style, then ", ", then exactly the suffix of the formality's band |
| Tone.BlendSameIffSameBand | email_automation.py:95-120 | two formalities blend a style into the same text exactly when they fall in the same band |
| Tone.BandMonotone | email_automation.py:113-118 | raising the formality never moves the blend to a less formal band |
| Tone.ToneFor | email_automation.py:124 | a known recipient type gets its own entry. Any other type gets the colleague entry |
| Tone.GetToneProfile | email_automation.py:122-129 | greeting and signoff are copied from the recipient's base tone. The style is that base style blended with the formality |
| Tone.RecipientTypes | email_automation.py:62-93 | the table holds exactly friend, colleague, relative, student, client and boss |
| Tone.UnknownIsColleague | email_automation.py:124 | an unknown recipient type gives the colleague profile |
| Tone.ProfileSameIffSameBand | email_automation.py:122-129 | formality never changes greeting or signoff. Two formalities give the same profile exactly when they share a band |
| Tone.DefaultIsBalanced | email_automation.py:122 | the default formality 0.5 is in the balanced band |
| Templates.ComposeParses | email_automation.py:378 | greeting + ",\n\n" + body + "\n\n" + signoff gives back its greeting, body and signoff. This needs a greeting without a comma and a signoff without a newline |
| Templates.ToneTableParses | email_automation.py:62-93 | no greeting in the tone table holds a comma and no signoff holds a newline |
| Templates.ReplyBody | email_automation.py:369-376 | the body is the thank-you text when "thank" occurs in the lower-cased context. Otherwise it is the meeting text when "meeting" occurs, otherwise the question text when "question" occurs, otherwise the default |
| Templates.TemplateReply | email_automation.py:362-386 | the reply has the chosen body and the profile's greeting, signoff and style. Its full text is greeting + ",\n\n" + body + "\n\n" + signoff, and reads back to the same greeting, body and signoff |
| Templates.EmailBody | email_automation.py:435 | the body is "Regarding: ", then the context, then the fixed closing; the context sits exactly between the two |
| Templates.TemplateEmail | email_automation.py:429-444 | the body is the fixed text around the context, and the context can be read back from it. The full text is greeting + ",\n\n" + body + "\n\n" + signoff and reads back to its three parts. The tone is the profile's style |
| Workflow.RecipientForChoice | email_automation.py:589-590 | every answer maps to a recipient type the tone table knows, never "student". An answer off the menu means colleague |
| Workflow.MenuInjective | email_automation.py:589 | different menu entries name different recipient types |
| Workflow.Triage | email_automation.py:553-561 | the recorded category is SPAM exactly when two distinct spam patterns match the message text, and PERSONAL exactly when, besides, some personal pattern matches and professional + bonus does not exceed personal. The meeting flag is set exactly when some meeting pattern matches |
| Workflow.ProcessInbox | email_automation.py:538-627 | the loop records one outcome per message, in order, each the triage of that message. Its spam count is the number of messages whose text is spam, and its meeting count the number that propose a meeting |
| Workflow.TallyCountsMessages | email_automation.py:642-645 | over triaged messages, the tally counts as spam exactly the messages whose text holds two spam patterns, and as meetings exactly those that propose one. The sender never enters either count |
| Workflow.CountLabel | email_automation.py:642-644 | counting results whose label string equals a given name never exceeds the number of results |
| Workflow.CountLabelIsCountCategory | email_automation.py:642-644 | counting results by their label string counts exactly the results of that category |
| Workflow.CountCategory | email_automation.py:642-644 | a category count never exceeds the number of results |
| Workflow.CountMeetings | email_automation.py:645 | the meeting count never exceeds the number of results |
| Workflow.Summarize | email_automation.py:642-645 | the summary holds the personal, professional, spam and meeting counts of the results |
| Workflow.TallyPartition | email_automation.py:642-645 | personal + professional + spam equals the number of results, and meetings are at most that many |
| Workflow.CountCategoryAppend | email_automation.py:621 | recording one more result adds one to its own category and nothing to the others |
| Scenarios.FreeNotInFreedom | email_automation.py:232 | `\bfree\b` does not match inside "freedom" |
| Scenarios.ScheduleIsMeeting | email_automation.py:290-297 | "Can we schedule a call tomorrow?" is a meeting |
| Scenarios.TwoSpamTermsIsSpam | email_automation.py:266-269 | subject "Free gift" with body "Special offer, claim now" is SPAM whoever sends it: "free" matches despite its capital letter, and "offer" is a second spam term |
| Scenarios.InstitutionalSenders | email_automation.py:278 | "a@company.com" and "x@organic.net" earn the bonus |
| Scenarios.PlainSender | email_automation.py:278 | "x@gmail.org" earns no bonus |
| Scenarios.JoinTodayOneLine | email_automation.py:257 | "join us today" matches the gapped meeting pattern |
| Scenarios.JoinTodayTwoLines | email_automation.py:257 | a line break between "join" and "today" prevents that match |

## Left out

- Text.Lower: lower-cases ASCII letters only. Python's `str.lower()` also
  lowers non-ASCII letters, and a few of them change length.
- Text.IsWordChar: `\w` is taken as `[A-Za-z0-9_]`. Python's default
  Unicode `\w` also counts non-ASCII letters and digits, so `\b` can differ
  next to them.
- Workflow.ProcessInbox: the model assumes every fetch, prompt and API call
  in the loop succeeds, so every message is recorded and the tally is always
  reached. In the source an empty inbox returns at
  email_automation.py:531-533 before any tally (the model gives a tally of
  zeros). A non-numeric formality answer makes `float(...)` raise at :592, a
  failing fetch (:546), calendar insert (:572) or send (:618) raises too, and
  the top-level handler at :770 then ends the run without printing the tally.
- Authentication (OAuth flow, token file, credential refresh): file I/O and
  a third-party service.
- Fetching and sending mail: Gmail API calls, raw-message decoding, MIME
  part selection, charset decoding in `extract_body`, and
  `create_email_message`. Message text reaches the model already decoded.
- Calls to the text-generation service (`initialize_gemini`,
  `generate_reply_with_gemini`, `generate_new_email_with_gemini`): network
  calls with nondeterministic output. The template fallbacks they use are
  modelled.
- Calendar code (`extract_meeting_time`, `add_to_calendar`): it depends on
  the clock and an API insert, and the suggested time ignores the message
  text.
- The interactive workflows and the main menu: prompts, printing and
  recursion on the user's choice. The recipient menu, the recording of each
  message's category and meeting verdict, and the final tally are modelled;
  the calendar and reply prompts inside the processing loop are not. Nor is
  the extraction of an address from `<...>` in a sender.
- The `original_email` argument of `generate_template_reply` is never read,
  so the model's `TemplateReply` does not take it.
- Formality as a float: a Python float is modelled as an exact `real`.
  Values that are not numbers (NaN) are not modelled. A NaN fails both
  comparisons, so Python would give it the balanced band. A decimal with more
  than 15 significant digits can round onto a limit: `0.3299999999999999999`
  is the same float as `0.33`, so Python blends it as balanced while the
  model's band is casual; `0.6600000000000000001` is balanced in Python and
  formal in the model.
