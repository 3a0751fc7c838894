/** The tone engine: a constant table of base tones per recipient type and the
    formality blend that decorates a base style with one modifier phrase. */
module Tone {

  /** One entry of the base-tone table. */
  datatype BaseTone = BaseTone(style: string, greeting: string, signoff: string)

  /** What `get_tone_profile` returns. */
  datatype ToneProfile = ToneProfile(greeting: string, signoff: string, style: string)

  /** The six base tones, keyed by recipient type; set up once and never
      changed. */
  const BASE_TONES: map<string, BaseTone> := map[
    "friend" := BaseTone("casual, warm, relaxed, humorous if appropriate", "Hey", "Cheers"),
    "colleague" := BaseTone("professional, respectful, concise", "Hi", "Best regards"),
    "relative" := BaseTone("personal, warm, caring, gentle", "Hi", "Take care"),
    "student" := BaseTone("clear, encouraging, supportive", "Hello", "Warm regards"),
    "client" := BaseTone("polished, courteous, confident, solution-oriented", "Hello", "Kind regards"),
    "boss" := BaseTone("formal, respectful, clear, professional", "Dear", "Respectfully")
  ]

  /** The recipient type used when the requested one is not in the table. */
  const FALLBACK_TYPE: string := "colleague"

  /** The formality a caller gets when it does not pass one. */
  const DEFAULT_FORMALITY: real := 0.5

  const CASUAL_MODIFIERS: seq<string> :=
    ["casual", "relaxed", "friendly", "approachable", "light-hearted", "informal"]

  const FORMAL_MODIFIERS: seq<string> :=
    ["formal", "professional", "polished", "respectful", "structured", "concise"]

  const BALANCED_PHRASE: string := "balanced tone (between casual and formal)"

  /** `sep.join(xs)`. */
  function Join(xs: seq<string>, sep: string): (r: string)
    ensures xs != [] ==> xs[0] <= r
  {
    if xs == [] then ""
    else if |xs| == 1 then xs[0]
    else xs[0] + sep + Join(xs[1..], sep)
  }

  /** The three formality bands of `blend`. */
  datatype Band = Casual | Balanced | Formal

  /** Which band a formality falls in: below 0.33 is casual, above 0.66 is
      formal, and everything in between (both limits included) is balanced. */
  function BandOf(formality: real): (b: Band)
    ensures b == Casual <==> formality < 0.33
    ensures b == Formal <==> formality > 0.66
    ensures b == Balanced <==> 0.33 <= formality <= 0.66
  {
    if formality < 0.33 then Casual
    else if formality > 0.66 then Formal
    else Balanced
  }

  /** The phrase `blend` appends for each band. */
  function Modifier(b: Band): string {
    match b
    case Casual => Join(CASUAL_MODIFIERS, ", ")
    case Formal => Join(FORMAL_MODIFIERS, ", ")
    case Balanced => BALANCED_PHRASE
  }

  /** The three phrases are different, so the phrase names its band. */
  lemma ModifierInjective(b1: Band, b2: Band)
    ensures Modifier(b1) == Modifier(b2) <==> b1 == b2
  {
    assert Modifier(Casual)[0] == 'c' by { assert CASUAL_MODIFIERS[0] <= Modifier(Casual); }
    assert Modifier(Formal)[0] == 'f' by { assert FORMAL_MODIFIERS[0] <= Modifier(Formal); }
    assert Modifier(Balanced)[0] == 'b';
  }

  /** `blend`: the base style, a comma and a space, then the phrase of the
      formality's band. */
  function Blend(baseStyle: string, formality: real): (r: string)
    ensures baseStyle + ", " <= r
    ensures r[|baseStyle| + 2..] == Modifier(BandOf(formality))
  {
    baseStyle + ", " + Modifier(BandOf(formality))
  }

  /** Two formalities blend a base style into the same text exactly when they
      fall in the same band. */
  lemma BlendSameIffSameBand(baseStyle: string, f1: real, f2: real)
    ensures Blend(baseStyle, f1) == Blend(baseStyle, f2) <==> BandOf(f1) == BandOf(f2)
  {
    ModifierInjective(BandOf(f1), BandOf(f2));
  }

  /** A higher formality never moves the blend to a less formal band. */
  lemma BandMonotone(f1: real, f2: real)
    requires f1 <= f2
    ensures BandOf(f1) == Formal ==> BandOf(f2) == Formal
    ensures BandOf(f2) == Casual ==> BandOf(f1) == Casual
  {
  }

  /** The base tone for a recipient type, falling back to the colleague entry. */
  function ToneFor(recipientType: string): (t: BaseTone)
    ensures recipientType in BASE_TONES ==> t == BASE_TONES[recipientType]
    ensures recipientType !in BASE_TONES ==> t == BASE_TONES[FALLBACK_TYPE]
  {
    if recipientType in BASE_TONES then BASE_TONES[recipientType] else BASE_TONES[FALLBACK_TYPE]
  }

  /** `get_tone_profile`: greeting and signoff copied from the base tone, the
      style blended with the formality. It never fails. */
  function GetToneProfile(recipientType: string, formality: real): (p: ToneProfile)
    ensures p.greeting == ToneFor(recipientType).greeting
    ensures p.signoff == ToneFor(recipientType).signoff
    ensures ToneFor(recipientType).style + ", " <= p.style
    ensures p.style[|ToneFor(recipientType).style| + 2..] == Modifier(BandOf(formality))
  {
    var base := ToneFor(recipientType);
    ToneProfile(base.greeting, base.signoff, Blend(base.style, formality))
  }

  /** The table knows exactly six recipient types. */
  lemma RecipientTypes()
    ensures BASE_TONES.Keys == {"friend", "colleague", "relative", "student", "client", "boss"}
  {
  }

  /** An unknown recipient type is treated as a colleague. */
  lemma UnknownIsColleague(recipientType: string, formality: real)
    requires recipientType !in BASE_TONES
    ensures GetToneProfile(recipientType, formality) == GetToneProfile(FALLBACK_TYPE, formality)
  {
  }

  /** Formality only changes the style: for one recipient type, two
      formalities give the same profile exactly when they share a band. */
  lemma {:induction false} ProfileSameIffSameBand(recipientType: string, f1: real, f2: real)
    ensures GetToneProfile(recipientType, f1).greeting == GetToneProfile(recipientType, f2).greeting
    ensures GetToneProfile(recipientType, f1).signoff == GetToneProfile(recipientType, f2).signoff
    ensures GetToneProfile(recipientType, f1) == GetToneProfile(recipientType, f2)
            <==> BandOf(f1) == BandOf(f2)
  {
    BlendSameIffSameBand(ToneFor(recipientType).style, f1, f2);
  }

  /** Without an explicit formality the style is balanced. */
  lemma DefaultIsBalanced()
    ensures BandOf(DEFAULT_FORMALITY) == Balanced
  {
  }
}
