/**
 * The fixed voice-parameter axes of the sweep and the way each value is
 * rendered into file names (tts.js:86-88, 113-115, 123-129).
 */
module Options {

  datatype Gender = Female | Male

  /** The three speaking rates 0.75, 1 and 1.25. They are only ever
      rendered or passed on to the synthesis request, never computed on. */
  datatype Rate = Slow | Normal | Fast

  /** One point of the sweep; one synthesis request and one file pair. */
  datatype SweepOption = SweepOption(
    pitch: int,
    gender: Gender,
    language: string,
    text: string,
    speakingRate: Rate)

  const Pitches: seq<int> := [-10, 0, 10]
  const Genders: seq<Gender> := [Female, Male]
  const SpeakingRates: seq<Rate> := [Slow, Normal, Fast]

  /** The SSML gender string the source stores in the option. */
  function GenderName(g: Gender): string {
    match g
    case Female => "FEMALE"
    case Male => "MALE"
  }

  /** How JavaScript stringifies 0.75, 1 and 1.25. */
  function RateText(r: Rate): string {
    match r
    case Slow => "0.75"
    case Normal => "1"
    case Fast => "1.25"
  }

  function DigitChar(d: nat): char
    requires d < 10
  {
    "0123456789"[d]
  }

  /** Decimal rendering of a natural number, most significant digit first. */
  function NatText(n: nat): (s: string)
    ensures |s| >= 1
    decreases n
  {
    if n < 10 then [DigitChar(n)] else NatText(n / 10) + [DigitChar(n % 10)]
  }

  /** Decimal rendering of an integer, as string concatenation does it. */
  function IntText(i: int): string {
    if i < 0 then "-" + NatText(-i) else NatText(i)
  }

  lemma PitchTexts()
    ensures IntText(-10) == "-10" && IntText(0) == "0" && IntText(10) == "10"
  {
    assert NatText(10) == NatText(1) + [DigitChar(0)];
  }
}
