/**
 * The option sweep of tts.js:117-134: five nested loops over pitch, gender,
 * language, text and speaking rate, pushing one option per combination.
 * Each Level function is what one loop level appends, defined on its
 * last element so that it grows exactly as the loop does.
 */
module Sweep {
  import opened Options

  function RateLevel(p: int, g: Gender, l: string, t: string, rates: seq<Rate>): seq<SweepOption>
    decreases |rates|
  {
    if rates == [] then []
    else RateLevel(p, g, l, t, rates[..|rates| - 1]) + [SweepOption(p, g, l, t, rates[|rates| - 1])]
  }

  function TextLevel(p: int, g: Gender, l: string, texts: seq<string>): seq<SweepOption>
    decreases |texts|
  {
    if texts == [] then []
    else TextLevel(p, g, l, texts[..|texts| - 1]) + RateLevel(p, g, l, texts[|texts| - 1], SpeakingRates)
  }

  function LanguageLevel(p: int, g: Gender, langs: seq<string>, texts: seq<string>): seq<SweepOption>
    decreases |langs|
  {
    if langs == [] then []
    else LanguageLevel(p, g, langs[..|langs| - 1], texts) + TextLevel(p, g, langs[|langs| - 1], texts)
  }

  function GenderLevel(p: int, gs: seq<Gender>, langs: seq<string>, texts: seq<string>): seq<SweepOption>
    decreases |gs|
  {
    if gs == [] then []
    else GenderLevel(p, gs[..|gs| - 1], langs, texts) + LanguageLevel(p, gs[|gs| - 1], langs, texts)
  }

  function PitchLevel(ps: seq<int>, langs: seq<string>, texts: seq<string>): seq<SweepOption>
    decreases |ps|
  {
    if ps == [] then []
    else PitchLevel(ps[..|ps| - 1], langs, texts) + GenderLevel(ps[|ps| - 1], Genders, langs, texts)
  }

  /** The whole sweep, before any subsampling. */
  function FullSweep(langs: seq<string>, texts: seq<string>): seq<SweepOption> {
    PitchLevel(Pitches, langs, texts)
  }

  lemma MulNonneg(a: nat, b: nat)
    ensures a * b >= 0
  {
  }

  lemma MulStep(n: nat, m: nat)
    requires n >= 1
    ensures (n - 1) * m + m == n * m
  {
  }

  /** Position base + j, with base == i * m, of a sequence made of n blocks
      of size m lies in block i, at offset j. */
  lemma BlockIndex<T>(front: seq<T>, last: seq<T>, m: nat, n: nat, i: nat, j: nat, base: nat)
    requires n >= 1 && |front| == (n - 1) * m && |last| == m
    requires i < n && j < m && base == i * m
    ensures |front + last| == n * m
    ensures base + j < n * m
    ensures i < n - 1 ==> base + j < |front| && (front + last)[base + j] == front[base + j]
    ensures i == n - 1 ==> (front + last)[base + j] == last[j]
  {
    MulStep(n, m);
    assert base + m <= n * m by {
      assert (i + 1) * m <= n * m;
    }
    if i < n - 1 {
      assert (i + 1) * m <= (n - 1) * m;
    }
  }

  lemma {:induction false} RateLevelAt(p: int, g: Gender, l: string, t: string, rates: seq<Rate>)
    ensures |RateLevel(p, g, l, t, rates)| == |rates|
    ensures forall s :: 0 <= s < |rates| ==> RateLevel(p, g, l, t, rates)[s] == SweepOption(p, g, l, t, rates[s])
    decreases |rates|
  {
    if rates != [] {
      RateLevelAt(p, g, l, t, rates[..|rates| - 1]);
    }
  }

  lemma {:induction false} TextLevelLength(p: int, g: Gender, l: string, texts: seq<string>)
    ensures |TextLevel(p, g, l, texts)| == |texts| * 3
    decreases |texts|
  {
    if texts != [] {
      TextLevelLength(p, g, l, texts[..|texts| - 1]);
      RateLevelAt(p, g, l, texts[|texts| - 1], SpeakingRates);
    }
  }

  lemma {:induction false} TextLevelAt(p: int, g: Gender, l: string, texts: seq<string>, t: nat, s: nat)
    requires t < |texts| && s < 3
    ensures |TextLevel(p, g, l, texts)| == |texts| * 3
    ensures t * 3 + s < |texts| * 3
    ensures TextLevel(p, g, l, texts)[t * 3 + s] == SweepOption(p, g, l, texts[t], SpeakingRates[s])
    decreases |texts|
  {
    var n := |texts|;
    var init := texts[..n - 1];
    TextLevelLength(p, g, l, init);
    RateLevelAt(p, g, l, texts[n - 1], SpeakingRates);
    BlockIndex(TextLevel(p, g, l, init), RateLevel(p, g, l, texts[n - 1], SpeakingRates), 3, n, t, s, t * 3);
    if t < n - 1 {
      TextLevelAt(p, g, l, init, t, s);
    }
  }

  lemma {:induction false} LanguageLevelLength(p: int, g: Gender, langs: seq<string>, texts: seq<string>, m: nat)
    requires m == |texts| * 3
    ensures |LanguageLevel(p, g, langs, texts)| == |langs| * m
    decreases |langs|
  {
    if langs != [] {
      var n := |langs|;
      var init := langs[..n - 1];
      LanguageLevelLength(p, g, init, texts, m);
      TextLevelLength(p, g, langs[n - 1], texts);
      assert LanguageLevel(p, g, langs, texts) == LanguageLevel(p, g, init, texts) + TextLevel(p, g, langs[n - 1], texts);
      MulStep(n, m);
    }
  }

  lemma {:induction false} LanguageLevelAt(p: int, g: Gender, langs: seq<string>, texts: seq<string>, m: nat, l: nat, r: nat, base: nat)
    requires m == |texts| * 3
    requires l < |langs| && r < m && base == l * m
    ensures |TextLevel(p, g, langs[l], texts)| == m
    ensures |LanguageLevel(p, g, langs, texts)| == |langs| * m
    ensures base + r < |langs| * m
    ensures LanguageLevel(p, g, langs, texts)[base + r] == TextLevel(p, g, langs[l], texts)[r]
    decreases |langs|
  {
    var n := |langs|;
    var init := langs[..n - 1];
    TextLevelLength(p, g, langs[l], texts);
    TextLevelLength(p, g, langs[n - 1], texts);
    LanguageLevelLength(p, g, init, texts, m);
    BlockIndex(LanguageLevel(p, g, init, texts), TextLevel(p, g, langs[n - 1], texts), m, n, l, r, base);
    if l < n - 1 {
      LanguageLevelAt(p, g, init, texts, m, l, r, base);
    }
  }

  lemma {:induction false} GenderLevelLength(p: int, gs: seq<Gender>, langs: seq<string>, texts: seq<string>, m1: nat, m: nat)
    requires m1 == |texts| * 3 && m == |langs| * m1
    ensures |GenderLevel(p, gs, langs, texts)| == |gs| * m
    decreases |gs|
  {
    if gs != [] {
      var n := |gs|;
      var init := gs[..n - 1];
      GenderLevelLength(p, init, langs, texts, m1, m);
      LanguageLevelLength(p, gs[n - 1], langs, texts, m1);
      assert GenderLevel(p, gs, langs, texts) == GenderLevel(p, init, langs, texts) + LanguageLevel(p, gs[n - 1], langs, texts);
      MulStep(n, m);
    }
  }

  lemma {:induction false} GenderLevelAt(p: int, gs: seq<Gender>, langs: seq<string>, texts: seq<string>, m1: nat, m: nat, g: nat, r: nat, base: nat)
    requires m1 == |texts| * 3 && m == |langs| * m1
    requires g < |gs| && r < m && base == g * m
    ensures |LanguageLevel(p, gs[g], langs, texts)| == m
    ensures |GenderLevel(p, gs, langs, texts)| == |gs| * m
    ensures base + r < |gs| * m
    ensures GenderLevel(p, gs, langs, texts)[base + r] == LanguageLevel(p, gs[g], langs, texts)[r]
    decreases |gs|
  {
    var n := |gs|;
    var init := gs[..n - 1];
    LanguageLevelLength(p, gs[g], langs, texts, m1);
    LanguageLevelLength(p, gs[n - 1], langs, texts, m1);
    GenderLevelLength(p, init, langs, texts, m1, m);
    BlockIndex(GenderLevel(p, init, langs, texts), LanguageLevel(p, gs[n - 1], langs, texts), m, n, g, r, base);
    if g < n - 1 {
      GenderLevelAt(p, init, langs, texts, m1, m, g, r, base);
    }
  }

  lemma {:induction false} PitchLevelLength(ps: seq<int>, langs: seq<string>, texts: seq<string>, m1: nat, m: nat, mm: nat)
    requires m1 == |texts| * 3 && m == |langs| * m1 && mm == 2 * m
    ensures |PitchLevel(ps, langs, texts)| == |ps| * mm
    decreases |ps|
  {
    if ps != [] {
      var n := |ps|;
      var init := ps[..n - 1];
      PitchLevelLength(init, langs, texts, m1, m, mm);
      GenderLevelLength(ps[n - 1], Genders, langs, texts, m1, m);
      assert PitchLevel(ps, langs, texts) == PitchLevel(init, langs, texts) + GenderLevel(ps[n - 1], Genders, langs, texts);
      MulStep(n, mm);
    }
  }

  lemma {:induction false} PitchLevelAt(ps: seq<int>, langs: seq<string>, texts: seq<string>, m1: nat, m: nat, mm: nat, p: nat, r: nat, base: nat)
    requires m1 == |texts| * 3 && m == |langs| * m1 && mm == 2 * m
    requires p < |ps| && r < mm && base == p * mm
    ensures |PitchLevel(ps, langs, texts)| == |ps| * mm
    ensures base + r < |ps| * mm
    ensures |GenderLevel(ps[p], Genders, langs, texts)| == mm
    ensures PitchLevel(ps, langs, texts)[base + r] == GenderLevel(ps[p], Genders, langs, texts)[r]
    decreases |ps|
  {
    var n := |ps|;
    var init := ps[..n - 1];
    GenderLevelLength(ps[p], Genders, langs, texts, m1, m);
    GenderLevelLength(ps[n - 1], Genders, langs, texts, m1, m);
    PitchLevelLength(init, langs, texts, m1, m, mm);
    BlockIndex(PitchLevel(init, langs, texts), GenderLevel(ps[n - 1], Genders, langs, texts), mm, n, p, r, base);
    if p < n - 1 {
      PitchLevelAt(init, langs, texts, m1, m, mm, p, r, base);
    }
  }

  lemma MixedRadix(p: nat, g: nat, l: nat, t: nat, s: nat, nl: nat, nt: nat, m1: nat, m: nat, mm: nat, b1: nat, b2: nat, b3: nat, i: nat)
    requires m1 == nt * 3 && m == nl * m1 && mm == 2 * m
    requires b1 == l * m1 && b2 == g * m && b3 == p * mm
    requires i == (((p * 2 + g) * nl + l) * nt + t) * 3 + s
    ensures i == b3 + (b2 + (b1 + (t * 3 + s)))
    ensures 3 * 2 * nl * nt * 3 == 3 * mm
  {
  }

  lemma LanguageComboAt(p: int, g: Gender, langs: seq<string>, texts: seq<string>, m1: nat, l: nat, t: nat, s: nat, b1: nat)
    requires m1 == |texts| * 3 && b1 == l * m1
    requires l < |langs| && t < |texts| && s < 3
    ensures |LanguageLevel(p, g, langs, texts)| == |langs| * m1
    ensures b1 + (t * 3 + s) < |langs| * m1
    ensures LanguageLevel(p, g, langs, texts)[b1 + (t * 3 + s)] == SweepOption(p, g, langs[l], texts[t], SpeakingRates[s])
  {
    TextLevelAt(p, g, langs[l], texts, t, s);
    LanguageLevelAt(p, g, langs, texts, m1, l, t * 3 + s, b1);
  }

  lemma GenderComboAt(p: int, langs: seq<string>, texts: seq<string>, m1: nat, m: nat, g: nat, l: nat, t: nat, s: nat, b1: nat, b2: nat)
    requires m1 == |texts| * 3 && m == |langs| * m1 && b1 == l * m1 && b2 == g * m
    requires g < 2 && l < |langs| && t < |texts| && s < 3
    ensures |GenderLevel(p, Genders, langs, texts)| == 2 * m
    ensures b2 + (b1 + (t * 3 + s)) < 2 * m
    ensures GenderLevel(p, Genders, langs, texts)[b2 + (b1 + (t * 3 + s))]
         == SweepOption(p, Genders[g], langs[l], texts[t], SpeakingRates[s])
  {
    LanguageComboAt(p, Genders[g], langs, texts, m1, l, t, s, b1);
    GenderLevelAt(p, Genders, langs, texts, m1, m, g, b1 + (t * 3 + s), b2);
  }

  lemma PitchComboAt(ps: seq<int>, langs: seq<string>, texts: seq<string>, m1: nat, m: nat, mm: nat, p: nat, g: nat, l: nat, t: nat, s: nat, b1: nat, b2: nat, b3: nat)
    requires m1 == |texts| * 3 && m == |langs| * m1 && mm == 2 * m
    requires b1 == l * m1 && b2 == g * m && b3 == p * mm
    requires p < |ps| && g < 2 && l < |langs| && t < |texts| && s < 3
    ensures |PitchLevel(ps, langs, texts)| == |ps| * mm
    ensures b3 + (b2 + (b1 + (t * 3 + s))) < |ps| * mm
    ensures PitchLevel(ps, langs, texts)[b3 + (b2 + (b1 + (t * 3 + s)))]
         == SweepOption(ps[p], Genders[g], langs[l], texts[t], SpeakingRates[s])
  {
    GenderComboAt(ps[p], langs, texts, m1, m, g, l, t, s, b1, b2);
    PitchLevelAt(ps, langs, texts, m1, m, mm, p, b2 + (b1 + (t * 3 + s)), b3);
  }

  /** Sweep shape and order: the sweep has 3 * 2 * |langs| * |texts| * 3
      entries, and the entry at the mixed-radix position i of
      (pitch p, gender g, language l, text t, rate s) is exactly that
      combination, pitch varying slowest and speaking rate fastest. */
  lemma SweepAt(langs: seq<string>, texts: seq<string>, p: nat, g: nat, l: nat, t: nat, s: nat, i: nat)
    requires p < 3 && g < 2 && l < |langs| && t < |texts| && s < 3
    requires i == (((p * 2 + g) * |langs| + l) * |texts| + t) * 3 + s
    ensures |FullSweep(langs, texts)| == 3 * 2 * |langs| * |texts| * 3
    ensures i < |FullSweep(langs, texts)|
    ensures FullSweep(langs, texts)[i] == SweepOption(Pitches[p], Genders[g], langs[l], texts[t], SpeakingRates[s])
  {
    var m1 := |texts| * 3;
    var m := |langs| * m1;
    var mm := 2 * m;
    MulNonneg(l, m1);
    MulNonneg(g, m);
    MulNonneg(p, mm);
    var b1: nat := l * m1;
    var b2: nat := g * m;
    var b3: nat := p * mm;
    MixedRadix(p, g, l, t, s, |langs|, |texts|, m1, m, mm, b1, b2, b3, i);
    PitchComboAt(Pitches, langs, texts, m1, m, mm, p, g, l, t, s, b1, b2, b3);
  }

  /** The same for the tool's single-keyword text axis: entry
      ((p * 2 + g) * |langs| + l) * 3 + s. */
  lemma KeywordSweepAt(langs: seq<string>, keyword: string, p: nat, g: nat, l: nat, s: nat, i: nat)
    requires p < 3 && g < 2 && l < |langs| && s < 3
    requires i == ((p * 2 + g) * |langs| + l) * 3 + s
    ensures |FullSweep(langs, [keyword])| == 18 * |langs|
    ensures i < |FullSweep(langs, [keyword])|
    ensures FullSweep(langs, [keyword])[i] == SweepOption(Pitches[p], Genders[g], langs[l], keyword, SpeakingRates[s])
  {
    SweepAt(langs, [keyword], p, g, l, 0, s, i);
  }

  /** Every entry of the sweep is built from the axes it was given. */
  predicate Drawn(o: SweepOption, ps: seq<int>, gs: seq<Gender>, langs: seq<string>, texts: seq<string>) {
    o.pitch in ps && o.gender in gs && o.language in langs && o.text in texts && o.speakingRate in SpeakingRates
  }

  lemma {:induction false} RateLevelMembers(p: int, g: Gender, l: string, t: string, rates: seq<Rate>)
    ensures forall o :: o in RateLevel(p, g, l, t, rates) ==>
      o.pitch == p && o.gender == g && o.language == l && o.text == t && o.speakingRate in rates
    decreases |rates|
  {
    if rates != [] {
      var front := rates[..|rates| - 1];
      RateLevelMembers(p, g, l, t, front);
      assert forall r :: r in front ==> r in rates;
    }
  }

  lemma {:induction false} TextLevelMembers(p: int, g: Gender, l: string, texts: seq<string>)
    ensures forall o :: o in TextLevel(p, g, l, texts) ==>
      o.pitch == p && o.gender == g && o.language == l && o.text in texts && o.speakingRate in SpeakingRates
    decreases |texts|
  {
    if texts != [] {
      var front := texts[..|texts| - 1];
      TextLevelMembers(p, g, l, front);
      RateLevelMembers(p, g, l, texts[|texts| - 1], SpeakingRates);
      assert forall t :: t in front ==> t in texts;
    }
  }

  lemma {:induction false} LanguageLevelMembers(p: int, g: Gender, langs: seq<string>, texts: seq<string>)
    ensures forall o :: o in LanguageLevel(p, g, langs, texts) ==>
      o.pitch == p && o.gender == g && Drawn(o, [p], [g], langs, texts)
    decreases |langs|
  {
    if langs != [] {
      var front := langs[..|langs| - 1];
      LanguageLevelMembers(p, g, front, texts);
      TextLevelMembers(p, g, langs[|langs| - 1], texts);
      assert forall l :: l in front ==> l in langs;
    }
  }

  lemma {:induction false} GenderLevelMembers(p: int, gs: seq<Gender>, langs: seq<string>, texts: seq<string>)
    ensures forall o :: o in GenderLevel(p, gs, langs, texts) ==> Drawn(o, [p], gs, langs, texts)
    decreases |gs|
  {
    if gs != [] {
      var front := gs[..|gs| - 1];
      GenderLevelMembers(p, front, langs, texts);
      LanguageLevelMembers(p, gs[|gs| - 1], langs, texts);
      assert forall g :: g in front ==> g in gs;
    }
  }

  lemma {:induction false} PitchLevelMembers(ps: seq<int>, langs: seq<string>, texts: seq<string>)
    ensures forall o :: o in PitchLevel(ps, langs, texts) ==> Drawn(o, ps, Genders, langs, texts)
    decreases |ps|
  {
    if ps != [] {
      var front := ps[..|ps| - 1];
      PitchLevelMembers(front, langs, texts);
      GenderLevelMembers(ps[|ps| - 1], Genders, langs, texts);
      assert forall p :: p in front ==> p in ps;
    }
  }

  /** Every option of the sweep has one of the fixed pitches, genders and
      rates, and one of the given languages and texts. */
  lemma SweepMembers(langs: seq<string>, texts: seq<string>)
    ensures forall o :: o in FullSweep(langs, texts) ==> Drawn(o, Pitches, Genders, langs, texts)
  {
    PitchLevelMembers(Pitches, langs, texts);
  }

  // The nested loops of tts.js:117-134, one method per loop level; each
  // level pushes onto the sequence it is given, in loop order.

  method PushRates(p: int, g: Gender, l: string, t: string, acc: seq<SweepOption>) returns (allOpts: seq<SweepOption>)
    ensures allOpts == acc + RateLevel(p, g, l, t, SpeakingRates)
  {
    allOpts := acc;
    for si := 0 to |SpeakingRates|
      invariant allOpts == acc + RateLevel(p, g, l, t, SpeakingRates[..si])
    {
      allOpts := allOpts + [SweepOption(p, g, l, t, SpeakingRates[si])];
      assert SpeakingRates[..si + 1][..si] == SpeakingRates[..si];
    }
    assert SpeakingRates[..|SpeakingRates|] == SpeakingRates;
  }

  method PushTexts(p: int, g: Gender, l: string, text: seq<string>, acc: seq<SweepOption>) returns (allOpts: seq<SweepOption>)
    ensures allOpts == acc + TextLevel(p, g, l, text)
  {
    allOpts := acc;
    for ti := 0 to |text|
      invariant allOpts == acc + TextLevel(p, g, l, text[..ti])
    {
      allOpts := PushRates(p, g, l, text[ti], allOpts);
      assert text[..ti + 1][..ti] == text[..ti];
    }
    assert text[..|text|] == text;
  }

  method PushLanguages(p: int, g: Gender, languages: seq<string>, text: seq<string>, acc: seq<SweepOption>) returns (allOpts: seq<SweepOption>)
    ensures allOpts == acc + LanguageLevel(p, g, languages, text)
  {
    allOpts := acc;
    for li := 0 to |languages|
      invariant allOpts == acc + LanguageLevel(p, g, languages[..li], text)
    {
      allOpts := PushTexts(p, g, languages[li], text, allOpts);
      assert languages[..li + 1][..li] == languages[..li];
    }
    assert languages[..|languages|] == languages;
  }

  method PushGenders(p: int, languages: seq<string>, text: seq<string>, acc: seq<SweepOption>) returns (allOpts: seq<SweepOption>)
    ensures allOpts == acc + GenderLevel(p, Genders, languages, text)
  {
    allOpts := acc;
    for gi := 0 to |Genders|
      invariant allOpts == acc + GenderLevel(p, Genders[..gi], languages, text)
    {
      allOpts := PushLanguages(p, Genders[gi], languages, text, allOpts);
      assert Genders[..gi + 1][..gi] == Genders[..gi];
    }
    assert Genders[..|Genders|] == Genders;
  }

  /** The whole sweep construction: `allOpts` starts empty and the pitch
      loop is the outermost one. */
  method BuildSweep(languages: seq<string>, text: seq<string>) returns (allOpts: seq<SweepOption>)
    ensures allOpts == FullSweep(languages, text)
  {
    allOpts := [];
    for pi := 0 to |Pitches|
      invariant allOpts == PitchLevel(Pitches[..pi], languages, text)
    {
      allOpts := PushGenders(Pitches[pi], languages, text, allOpts);
      assert Pitches[..pi + 1][..pi] == Pitches[..pi];
    }
    assert Pitches[..|Pitches|] == Pitches;
  }
}
