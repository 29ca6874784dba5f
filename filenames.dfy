/**
 * The file names of tts.js:173-174. Both names share the stem
 * `<dataLabel>.<lang>-<gender>-<pitch>-<rate>`; the mp3 lives in `out-mp3`
 * with suffix `.mp3`, the waveform in `out-wav` with suffix `.tts.wav`.
 * A decoder for mp3 names shows that, for a fixed label, the name
 * determines the language, gender, pitch and rate it was made from.
 */
module FileNames {
  import opened Wrappers
  import opened Options

  const Mp3Dir: string := "out-mp3/"
  const WavDir: string := "out-wav/"
  const Mp3Suffix: string := ".mp3"
  const WavSuffix: string := ".tts.wav"

  function Stem(dataLabel: string, o: SweepOption): string {
    dataLabel + "." + o.language + "-" + GenderName(o.gender) + "-" + IntText(o.pitch) + "-" + RateText(o.speakingRate)
  }

  function Mp3Name(dataLabel: string, o: SweepOption): string {
    Mp3Dir + Stem(dataLabel, o) + Mp3Suffix
  }

  function WavName(dataLabel: string, o: SweepOption): string {
    WavDir + Stem(dataLabel, o) + WavSuffix
  }

  predicate EndsWith(s: string, suffix: string) {
    |suffix| <= |s| && s[|s| - |suffix|..] == suffix
  }

  predicate StartsWith(s: string, prefix: string) {
    |prefix| <= |s| && s[..|prefix|] == prefix
  }

  function DropSuffix(s: string, n: nat): string
    requires n <= |s|
  {
    s[..|s| - n]
  }

  /** The four fields a name encodes. */
  datatype NameFields = NameFields(language: string, gender: Gender, pitch: int, speakingRate: Rate)

  function ParseRate(s: string): Option<(string, Rate)> {
    if EndsWith(s, "-0.75") then Some((DropSuffix(s, 5), Slow))
    else if EndsWith(s, "-1.25") then Some((DropSuffix(s, 5), Fast))
    else if EndsWith(s, "-1") then Some((DropSuffix(s, 2), Normal))
    else None
  }

  function ParsePitch(s: string): Option<(string, int)> {
    if EndsWith(s, "--10") then Some((DropSuffix(s, 4), -10))
    else if EndsWith(s, "-10") then Some((DropSuffix(s, 3), 10))
    else if EndsWith(s, "-0") then Some((DropSuffix(s, 2), 0))
    else None
  }

  function ParseGender(s: string): Option<(string, Gender)> {
    if EndsWith(s, "-FEMALE") then Some((DropSuffix(s, 7), Female))
    else if EndsWith(s, "-MALE") then Some((DropSuffix(s, 5), Male))
    else None
  }

  /** Reads the fields back out of a stem `<lang>-<gender>-<pitch>-<rate>`,
      working from the right. */
  function ParseTail(s: string): Option<NameFields> {
    match ParseRate(s)
    case None => None
    case Some((s1, r)) =>
      match ParsePitch(s1)
      case None => None
      case Some((s2, p)) =>
        match ParseGender(s2)
        case None => None
        case Some((lang, g)) => Some(NameFields(lang, g, p, r))
  }

  /** Decodes an mp3 name made for the given label. */
  function ParseMp3Name(dataLabel: string, name: string): Option<NameFields> {
    var prefix := Mp3Dir + dataLabel + ".";
    if StartsWith(name, prefix) && EndsWith(name, Mp3Suffix) && |prefix| + |Mp3Suffix| <= |name|
    then ParseTail(name[|prefix|..|name| - |Mp3Suffix|])
    else None
  }

  /** The stem an mp3 name and a wav name carry between directory and suffix. */
  function Mp3Stem(name: string): string
    requires StartsWith(name, Mp3Dir) && EndsWith(name, Mp3Suffix) && |Mp3Dir| + |Mp3Suffix| <= |name|
  {
    name[|Mp3Dir|..|name| - |Mp3Suffix|]
  }

  function WavStem(name: string): string
    requires StartsWith(name, WavDir) && EndsWith(name, WavSuffix) && |WavDir| + |WavSuffix| <= |name|
  {
    name[|WavDir|..|name| - |WavSuffix|]
  }

  lemma Framed(dir: string, stem: string, suffix: string)
    ensures StartsWith(dir + stem + suffix, dir) && EndsWith(dir + stem + suffix, suffix)
    ensures (dir + stem + suffix)[|dir|..|dir + stem + suffix| - |suffix|] == stem
  {
    var n := dir + stem + suffix;
    assert n[..|dir|] == dir;
    assert n[|n| - |suffix|..] == suffix;
  }

  /** Both names of an option sit in their own directory with their own
      suffix, and what lies between is the same stem. */
  lemma SharedStem(dataLabel: string, o: SweepOption)
    ensures StartsWith(Mp3Name(dataLabel, o), Mp3Dir) && EndsWith(Mp3Name(dataLabel, o), Mp3Suffix)
    ensures StartsWith(WavName(dataLabel, o), WavDir) && EndsWith(WavName(dataLabel, o), WavSuffix)
    ensures |Mp3Name(dataLabel, o)| == |Mp3Dir| + |Stem(dataLabel, o)| + |Mp3Suffix|
    ensures |WavName(dataLabel, o)| == |WavDir| + |Stem(dataLabel, o)| + |WavSuffix|
    ensures Mp3Stem(Mp3Name(dataLabel, o)) == WavStem(WavName(dataLabel, o)) == Stem(dataLabel, o)
  {
    Framed(Mp3Dir, Stem(dataLabel, o), Mp3Suffix);
    Framed(WavDir, Stem(dataLabel, o), WavSuffix);
  }

  lemma AppendedSuffix(s: string, t: string)
    ensures EndsWith(s + t, t) && DropSuffix(s + t, |t|) == s
  {
    assert (s + t)[|s + t| - |t|..] == t;
    assert (s + t)[..|s|] == s;
  }

  /** A name whose i-th character from the end of `t`'s window differs
      from `t[i]` does not end with `t`. */
  lemma Differs(n: string, t: string, i: nat)
    requires i < |t|
    requires |t| <= |n| ==> n[|n| - |t| + i] != t[i]
    ensures !EndsWith(n, t)
  {
    if |t| <= |n| {
      assert n[|n| - |t|..][i] == n[|n| - |t| + i];
    }
  }

  lemma SlowRoundTrip(s: string)
    ensures ParseRate(s + "-0.75") == Some((s, Slow))
  {
    AppendedSuffix(s, "-0.75");
  }

  lemma NormalRoundTrip(s: string)
    ensures ParseRate(s + "-1") == Some((s, Normal))
  {
    var n := s + "-1";
    AppendedSuffix(s, "-1");
    assert n[|n| - 1] == '1';
    Differs(n, "-0.75", 4);
    Differs(n, "-1.25", 4);
  }

  lemma FastRoundTrip(s: string)
    ensures ParseRate(s + "-1.25") == Some((s, Fast))
  {
    var n := s + "-1.25";
    AppendedSuffix(s, "-1.25");
    assert n[|n| - 4] == '1';
    Differs(n, "-0.75", 1);
  }

  lemma RateRoundTrip(s: string, r: Rate)
    ensures ParseRate(s + "-" + RateText(r)) == Some((s, r))
  {
    match r
    case Slow =>
      assert s + "-" + RateText(r) == s + "-0.75";
      SlowRoundTrip(s);
    case Normal =>
      assert s + "-" + RateText(r) == s + "-1";
      NormalRoundTrip(s);
    case Fast =>
      assert s + "-" + RateText(r) == s + "-1.25";
      FastRoundTrip(s);
  }

  lemma MinusTenRoundTrip(s: string)
    ensures ParsePitch(s + "--10") == Some((s, -10))
  {
    AppendedSuffix(s, "--10");
  }

  lemma TenRoundTrip(s: string)
    requires |s| >= 1 && s[|s| - 1] != '-'
    ensures ParsePitch(s + "-10") == Some((s, 10))
  {
    var n := s + "-10";
    AppendedSuffix(s, "-10");
    assert n[|n| - 4] == s[|s| - 1];
    Differs(n, "--10", 0);
  }

  lemma ZeroRoundTrip(s: string)
    ensures ParsePitch(s + "-0") == Some((s, 0))
  {
    var n := s + "-0";
    AppendedSuffix(s, "-0");
    assert n[|n| - 2] == '-';
    Differs(n, "--10", 2);
    Differs(n, "-10", 1);
  }

  lemma PitchRoundTrip(s: string, p: int)
    requires p in Pitches
    requires |s| >= 1 && s[|s| - 1] != '-'
    ensures ParsePitch(s + "-" + IntText(p)) == Some((s, p))
  {
    PitchTexts();
    if p == -10 {
      assert s + "-" + IntText(p) == s + "--10";
      MinusTenRoundTrip(s);
    } else if p == 0 {
      assert s + "-" + IntText(p) == s + "-0";
      ZeroRoundTrip(s);
    } else {
      assert s + "-" + IntText(p) == s + "-10";
      TenRoundTrip(s);
    }
  }

  lemma FemaleRoundTrip(s: string)
    ensures ParseGender(s + "-FEMALE") == Some((s, Female))
  {
    AppendedSuffix(s, "-FEMALE");
  }

  lemma MaleRoundTrip(s: string)
    ensures ParseGender(s + "-MALE") == Some((s, Male))
  {
    var n := s + "-MALE";
    AppendedSuffix(s, "-MALE");
    assert n[|n| - 5] == '-';
    Differs(n, "-FEMALE", 2);
  }

  lemma GenderRoundTrip(s: string, g: Gender)
    ensures ParseGender(s + "-" + GenderName(g)) == Some((s, g))
  {
    match g
    case Female =>
      assert s + "-" + GenderName(g) == s + "-FEMALE";
      FemaleRoundTrip(s);
    case Male =>
      assert s + "-" + GenderName(g) == s + "-MALE";
      MaleRoundTrip(s);
  }

  /** The part of a stem after `<label>.`. */
  function Tail(o: SweepOption): string {
    o.language + "-" + GenderName(o.gender) + "-" + IntText(o.pitch) + "-" + RateText(o.speakingRate)
  }

  lemma TailRoundTrip(o: SweepOption)
    requires o.pitch in Pitches
    ensures ParseTail(Tail(o)) == Some(NameFields(o.language, o.gender, o.pitch, o.speakingRate))
  {
    var s2 := o.language + "-" + GenderName(o.gender);
    var s1 := s2 + "-" + IntText(o.pitch);
    RateRoundTrip(s1, o.speakingRate);
    assert s2[|s2| - 1] == 'E';
    PitchRoundTrip(s2, o.pitch);
    GenderRoundTrip(o.language, o.gender);
  }

  /** Decoding an mp3 name gives back the language, gender, pitch and rate
      it was made from, whatever the label and the language code are. */
  lemma Mp3NameRoundTrip(dataLabel: string, o: SweepOption)
    requires o.pitch in Pitches
    ensures ParseMp3Name(dataLabel, Mp3Name(dataLabel, o)) == Some(NameFields(o.language, o.gender, o.pitch, o.speakingRate))
  {
    var prefix := Mp3Dir + dataLabel + ".";
    var name := Mp3Name(dataLabel, o);
    assert Stem(dataLabel, o) == dataLabel + "." + Tail(o);
    assert name == prefix + Tail(o) + Mp3Suffix;
    Framed(prefix, Tail(o), Mp3Suffix);
    TailRoundTrip(o);
  }

  /** Two options of the sweep with the same mp3 name agree on everything
      but the text, which is not part of the name. */
  lemma Mp3NameInjective(dataLabel: string, o1: SweepOption, o2: SweepOption)
    requires o1.pitch in Pitches && o2.pitch in Pitches
    ensures Mp3Name(dataLabel, o1) == Mp3Name(dataLabel, o2) <==>
      (o1.language == o2.language && o1.gender == o2.gender &&
       o1.pitch == o2.pitch && o1.speakingRate == o2.speakingRate)
  {
    Mp3NameRoundTrip(dataLabel, o1);
    Mp3NameRoundTrip(dataLabel, o2);
  }

  /** The wav name is a function of the mp3 name: equal mp3 names give
      equal wav names. */
  lemma WavFollowsMp3(dataLabel: string, o1: SweepOption, o2: SweepOption)
    requires Mp3Name(dataLabel, o1) == Mp3Name(dataLabel, o2)
    ensures WavName(dataLabel, o1) == WavName(dataLabel, o2)
  {
    SharedStem(dataLabel, o1);
    SharedStem(dataLabel, o2);
  }

  /** The names of the female, pitch -10, rate 1 option for label
      `helloworld` and language `en-US`: both carry the stem
      `helloworld.en-US-FEMALE--10-1`. */
  lemma ExampleNames(o: SweepOption)
    requires o == SweepOption(-10, Female, "en-US", "hello world", Normal)
    ensures Stem("helloworld", o) == "helloworld.en-US-FEMALE--10-1"
    ensures Mp3Name("helloworld", o) == Mp3Dir + "helloworld.en-US-FEMALE--10-1" + Mp3Suffix
    ensures WavName("helloworld", o) == WavDir + "helloworld.en-US-FEMALE--10-1" + WavSuffix
  {
    PitchTexts();
  }
}
