/**
 * The synthesis-and-cache loop of tts.js:158-202 over an abstract
 * filesystem. The files that exist are two sets of names: the mp3 cache,
 * which survives between runs, and the wav directory, which starts empty
 * because it is wiped first (tts.js:151). The outside effects of one run
 * are a log of actions: a synthesis request to the text-to-speech
 * service, a `sox` conversion, or a pause of two seconds.
 */
module CacheLoop {
  import opened Options
  import opened FileNames

  /** The body of `synthesizeSpeech`'s request (tts.js:163-169). */
  datatype Request = Request(
    text: string,
    languageCode: string,
    ssmlGender: Gender,
    audioEncoding: string,
    sampleRateHertz: nat,
    pitch: int,
    speakingRate: Rate)

  function RequestFor(o: SweepOption): Request {
    Request(o.text, o.language, o.gender, "MP3", 16000, o.pitch, o.speakingRate)
  }

  /** An outside effect of the loop, in the order it happens. */
  datatype Action =
    | Synthesize(request: Request, target: string)
    | Convert(target: string, command: string)
    | Pause(milliseconds: nat)

  const PauseMs: nat := 2000

  /** The shell command that mixes the mp3 with `silence.wav`, resamples to
      16 kHz and trims to the requested length (tts.js:186). */
  function SoxCommand(mp3: string, wav: string, outLength: string): string {
    "sox -m \"" + mp3 + "\" silence.wav -r 16000 \"" + wav + "\" trim 0 " + outLength
  }

  /** One entry of `downloadedFiles` (tts.js:190-197). */
  datatype FileRecord = FileRecord(path: string, dataLabel: string, category: string, metadata: map<string, string>)

  /** What the loop reads besides the options: the label, the `--out-length`
      value and the working directory against which paths are resolved. */
  datatype Config = Config(dataLabel: string, outLength: string, cwd: string)

  /** `Path.resolve` of a relative path. */
  function Resolve(cwd: string, path: string): string {
    cwd + "/" + path
  }

  const ImportMetadata: map<string, string> := map["imported_from" := "Google Cloud TTS"]

  function RecordFor(c: Config, o: SweepOption): FileRecord {
    FileRecord(Resolve(c.cwd, WavName(c.dataLabel, o)), c.dataLabel, "split", ImportMetadata)
  }

  datatype LoopState = LoopState(mp3s: set<string>, wavs: set<string>, log: seq<Action>, files: seq<FileRecord>)

  /** The state at the start of a run: the cached mp3s, no wavs, nothing
      done and nothing recorded. */
  function Fresh(mp3s: set<string>): LoopState {
    LoopState(mp3s, {}, [], [])
  }

  // Views of an action log.

  function SynthTargets(log: seq<Action>): seq<string> {
    if log == [] then []
    else
      var front := SynthTargets(log[..|log| - 1]);
      if log[|log| - 1].Synthesize? then front + [log[|log| - 1].target] else front
  }

  function Conversions(log: seq<Action>): seq<Action> {
    if log == [] then []
    else
      var front := Conversions(log[..|log| - 1]);
      if log[|log| - 1].Convert? then front + [log[|log| - 1]] else front
  }

  function ConvertTargets(log: seq<Action>): seq<string> {
    if log == [] then []
    else
      var front := ConvertTargets(log[..|log| - 1]);
      if log[|log| - 1].Convert? then front + [log[|log| - 1].target] else front
  }

  function PauseCount(log: seq<Action>): nat {
    if log == [] then 0
    else PauseCount(log[..|log| - 1]) + (if log[|log| - 1].Pause? then 1 else 0)
  }

  lemma {:induction false} SynthTargetsAppend(a: seq<Action>, b: seq<Action>)
    ensures SynthTargets(a + b) == SynthTargets(a) + SynthTargets(b)
    decreases |b|
  {
    if b == [] {
      assert a + b == a;
    } else {
      var b' := b[..|b| - 1];
      SynthTargetsAppend(a, b');
      assert (a + b)[..|a + b| - 1] == a + b';
      assert (a + b)[|a + b| - 1] == b[|b| - 1];
    }
  }

  lemma {:induction false} ConversionsAppend(a: seq<Action>, b: seq<Action>)
    ensures Conversions(a + b) == Conversions(a) + Conversions(b)
    decreases |b|
  {
    if b == [] {
      assert a + b == a;
    } else {
      var b' := b[..|b| - 1];
      ConversionsAppend(a, b');
      assert (a + b)[..|a + b| - 1] == a + b';
      assert (a + b)[|a + b| - 1] == b[|b| - 1];
    }
  }

  lemma {:induction false} ConvertTargetsAppend(a: seq<Action>, b: seq<Action>)
    ensures ConvertTargets(a + b) == ConvertTargets(a) + ConvertTargets(b)
    decreases |b|
  {
    if b == [] {
      assert a + b == a;
    } else {
      var b' := b[..|b| - 1];
      ConvertTargetsAppend(a, b');
      assert (a + b)[..|a + b| - 1] == a + b';
      assert (a + b)[|a + b| - 1] == b[|b| - 1];
    }
  }

  lemma {:induction false} PauseCountAppend(a: seq<Action>, b: seq<Action>)
    ensures PauseCount(a + b) == PauseCount(a) + PauseCount(b)
    decreases |b|
  {
    if b == [] {
      assert a + b == a;
    } else {
      var b' := b[..|b| - 1];
      PauseCountAppend(a, b');
      assert (a + b)[..|a + b| - 1] == a + b';
      assert (a + b)[|a + b| - 1] == b[|b| - 1];
    }
  }

  /** Each view of a log distributes over concatenation. */
  lemma ViewsAppend(a: seq<Action>, b: seq<Action>)
    ensures SynthTargets(a + b) == SynthTargets(a) + SynthTargets(b)
    ensures Conversions(a + b) == Conversions(a) + Conversions(b)
    ensures ConvertTargets(a + b) == ConvertTargets(a) + ConvertTargets(b)
    ensures PauseCount(a + b) == PauseCount(a) + PauseCount(b)
  {
    SynthTargetsAppend(a, b);
    ConversionsAppend(a, b);
    ConvertTargetsAppend(a, b);
    PauseCountAppend(a, b);
  }

  /** The actions of one iteration: synthesis if the mp3 is missing, then
      conversion if the wav is missing, then the pause if the service was
      called (tts.js:175-201). */
  function Step(c: Config, s: LoopState, o: SweepOption): seq<Action> {
    var mp3 := Mp3Name(c.dataLabel, o);
    var wav := WavName(c.dataLabel, o);
    var hasHitApi := mp3 !in s.mp3s;
    (if hasHitApi then [Synthesize(RequestFor(o), mp3)] else [])
    + (if wav !in s.wavs then [Convert(wav, SoxCommand(mp3, wav, c.outLength))] else [])
    + (if hasHitApi then [Pause(PauseMs)] else [])
  }

  lemma StepViews(c: Config, s: LoopState, o: SweepOption)
    ensures SynthTargets(Step(c, s, o)) ==
      (if Mp3Name(c.dataLabel, o) in s.mp3s then [] else [Mp3Name(c.dataLabel, o)])
    ensures ConvertTargets(Step(c, s, o)) ==
      (if WavName(c.dataLabel, o) in s.wavs then [] else [WavName(c.dataLabel, o)])
    ensures PauseCount(Step(c, s, o)) == |SynthTargets(Step(c, s, o))|
    ensures Conversions(Step(c, s, o)) ==
      (if WavName(c.dataLabel, o) in s.wavs then []
       else [Convert(WavName(c.dataLabel, o), SoxCommand(Mp3Name(c.dataLabel, o), WavName(c.dataLabel, o), c.outLength))])
  {
    var mp3 := Mp3Name(c.dataLabel, o);
    var wav := WavName(c.dataLabel, o);
    var synth: seq<Action> := if mp3 !in s.mp3s then [Synthesize(RequestFor(o), mp3)] else [];
    var conv: seq<Action> := if wav !in s.wavs then [Convert(wav, SoxCommand(mp3, wav, c.outLength))] else [];
    var pause: seq<Action> := if mp3 !in s.mp3s then [Pause(PauseMs)] else [];
    ViewsAppend(synth, conv);
    ViewsAppend(synth + conv, pause);
    assert Step(c, s, o) == synth + conv + pause;
    if synth != [] {
      assert synth[..0] == [];
    }
    if conv != [] {
      assert conv[..0] == [];
    }
    if pause != [] {
      assert pause[..0] == [];
    }
  }

  /** One iteration of the loop over options: both files now exist, the
      iteration's actions are logged and its record appended. */
  function Visit(c: Config, s: LoopState, o: SweepOption): LoopState {
    LoopState(s.mp3s + {Mp3Name(c.dataLabel, o)}, s.wavs + {WavName(c.dataLabel, o)},
      s.log + Step(c, s, o), s.files + [RecordFor(c, o)])
  }

  /** What one iteration does: synthesis exactly when the mp3 is missing,
      conversion exactly when the wav is missing, a pause exactly when the
      service was called, synthesis first and the pause last, the command
      converting the mp3 into the wav, and one record appended. */
  lemma VisitEffect(c: Config, s: LoopState, o: SweepOption)
    ensures Mp3Name(c.dataLabel, o) in Visit(c, s, o).mp3s && WavName(c.dataLabel, o) in Visit(c, s, o).wavs
    ensures Visit(c, s, o).files == s.files + [RecordFor(c, o)]
    ensures |s.log| <= |Visit(c, s, o).log| <= |s.log| + 3 && Visit(c, s, o).log[..|s.log|] == s.log
    ensures SynthTargets(Visit(c, s, o).log[|s.log|..]) ==
      (if Mp3Name(c.dataLabel, o) in s.mp3s then [] else [Mp3Name(c.dataLabel, o)])
    ensures ConvertTargets(Visit(c, s, o).log[|s.log|..]) ==
      (if WavName(c.dataLabel, o) in s.wavs then [] else [WavName(c.dataLabel, o)])
    ensures PauseCount(Visit(c, s, o).log[|s.log|..]) == |SynthTargets(Visit(c, s, o).log[|s.log|..])|
    ensures Mp3Name(c.dataLabel, o) !in s.mp3s ==>
      Visit(c, s, o).log[|s.log|] == Synthesize(RequestFor(o), Mp3Name(c.dataLabel, o)) &&
      Visit(c, s, o).log[|Visit(c, s, o).log| - 1] == Pause(PauseMs)
    ensures WavName(c.dataLabel, o) !in s.wavs ==>
      Convert(WavName(c.dataLabel, o), SoxCommand(Mp3Name(c.dataLabel, o), WavName(c.dataLabel, o), c.outLength))
        in Visit(c, s, o).log[|s.log|..]
  {
    var t := Visit(c, s, o);
    assert t.log[..|s.log|] == s.log;
    assert t.log[|s.log|..] == Step(c, s, o);
    StepViews(c, s, o);
  }

  /** The loop over a sequence of options. */
  function VisitAll(c: Config, s: LoopState, opts: seq<SweepOption>): LoopState {
    if opts == [] then s
    else Visit(c, VisitAll(c, s, opts[..|opts| - 1]), opts[|opts| - 1])
  }

  function Mp3Names(c: Config, opts: seq<SweepOption>): set<string> {
    set o | o in opts :: Mp3Name(c.dataLabel, o)
  }

  function WavNames(c: Config, opts: seq<SweepOption>): set<string> {
    set o | o in opts :: WavName(c.dataLabel, o)
  }

  function Records(c: Config, opts: seq<SweepOption>): seq<FileRecord> {
    seq(|opts|, i requires 0 <= i < |opts| => RecordFor(c, opts[i]))
  }

  predicate NoDup<T(==)>(q: seq<T>) {
    forall i, j :: 0 <= i < j < |q| ==> q[i] != q[j]
  }

  function Elems<T>(q: seq<T>): set<T> {
    set x | x in q
  }

  lemma ElemsAppend<T>(a: seq<T>, b: seq<T>)
    ensures Elems(a + b) == Elems(a) + Elems(b)
  {
  }

  lemma NoDupAppend<T>(a: seq<T>, b: seq<T>)
    requires NoDup(a) && NoDup(b) && Elems(a) !! Elems(b)
    ensures NoDup(a + b)
  {
    forall i, j | 0 <= i < j < |a + b|
      ensures (a + b)[i] != (a + b)[j]
    {
      if i < |a| && |a| <= j {
        assert (a + b)[i] in Elems(a);
        assert (a + b)[j] in Elems(b);
      }
    }
  }

  /** Appending a name exactly when it is not yet present keeps a list of
      the names added to `base` free of duplicates. */
  lemma TargetsStep(before: seq<string>, added: seq<string>, x: string, base: set<string>, names: set<string>)
    requires NoDup(before) && Elems(before) == names - base
    requires added == (if x in base + names then [] else [x])
    ensures NoDup(before + added)
    ensures Elems(before + added) == (names + {x}) - base
  {
    ElemsAppend(before, added);
    NoDupAppend(before, added);
  }

  lemma NamesStep(c: Config, opts: seq<SweepOption>)
    requires opts != []
    ensures Mp3Names(c, opts) == Mp3Names(c, opts[..|opts| - 1]) + {Mp3Name(c.dataLabel, opts[|opts| - 1])}
    ensures WavNames(c, opts) == WavNames(c, opts[..|opts| - 1]) + {WavName(c.dataLabel, opts[|opts| - 1])}
  {
    assert opts == opts[..|opts| - 1] + [opts[|opts| - 1]];
  }

  /** The last iteration of the loop. */
  lemma VisitAllLast(c: Config, s: LoopState, opts: seq<SweepOption>)
    requires opts != []
    ensures VisitAll(c, s, opts) == Visit(c, VisitAll(c, s, opts[..|opts| - 1]), opts[|opts| - 1])
  {
  }

  /** After the loop the mp3 cache holds every option's mp3 name. */
  lemma {:induction false} VisitAllMp3s(c: Config, s: LoopState, opts: seq<SweepOption>)
    ensures VisitAll(c, s, opts).mp3s == s.mp3s + Mp3Names(c, opts)
    decreases |opts|
  {
    if opts != [] {
      VisitAllMp3s(c, s, opts[..|opts| - 1]);
      NamesStep(c, opts);
      VisitAllLast(c, s, opts);
    }
  }

  /** After the loop the wav directory holds every option's wav name. */
  lemma {:induction false} VisitAllWavs(c: Config, s: LoopState, opts: seq<SweepOption>)
    ensures VisitAll(c, s, opts).wavs == s.wavs + WavNames(c, opts)
    decreases |opts|
  {
    if opts != [] {
      VisitAllWavs(c, s, opts[..|opts| - 1]);
      NamesStep(c, opts);
      VisitAllLast(c, s, opts);
    }
  }

  lemma RecordsStep(c: Config, opts: seq<SweepOption>)
    requires opts != []
    ensures Records(c, opts) == Records(c, opts[..|opts| - 1]) + [RecordFor(c, opts[|opts| - 1])]
  {
    var front := opts[..|opts| - 1];
    var r := Records(c, front) + [RecordFor(c, opts[|opts| - 1])];
    forall i | 0 <= i < |opts|
      ensures r[i] == Records(c, opts)[i]
    {
      if i < |front| {
        assert front[i] == opts[i];
      }
    }
  }

  /** One record per option is appended, in option order. */
  lemma {:induction false} VisitAllFiles(c: Config, s: LoopState, opts: seq<SweepOption>)
    ensures VisitAll(c, s, opts).files == s.files + Records(c, opts)
    decreases |opts|
  {
    if opts != [] {
      var front := opts[..|opts| - 1];
      VisitAllFiles(c, s, front);
      VisitAllLast(c, s, opts);
      RecordsStep(c, opts);
    }
  }

  /** The conversion of one option: its mp3 into its wav, trimmed to the
      configured length (tts.js:186). */
  function ConversionFor(c: Config, o: SweepOption): Action {
    Convert(WavName(c.dataLabel, o), SoxCommand(Mp3Name(c.dataLabel, o), WavName(c.dataLabel, o), c.outLength))
  }

  /** Every conversion the loop logs is the conversion of one of its
      options, under the run's configuration. */
  lemma {:induction false} VisitAllCommands(c: Config, s: LoopState, opts: seq<SweepOption>)
    ensures forall a :: a in VisitAll(c, s, opts).log && a.Convert? ==>
      a in s.log || exists o :: o in opts && a == ConversionFor(c, o)
    decreases |opts|
  {
    if opts != [] {
      var front := opts[..|opts| - 1];
      var o := opts[|opts| - 1];
      VisitAllCommands(c, s, front);
      var u := VisitAll(c, s, front);
      assert VisitAll(c, s, opts) == Visit(c, u, o);
      forall a | a in Visit(c, u, o).log && a.Convert?
        ensures a in s.log || exists o' :: o' in opts && a == ConversionFor(c, o')
      {
        if a in u.log {
          if a !in s.log {
            var o' :| o' in front && a == ConversionFor(c, o');
            assert o' in opts;
          }
        } else {
          assert a in Step(c, u, o);
          assert a == ConversionFor(c, o);
        }
      }
    }
  }

  /** The loop only appends to the log. */
  lemma {:induction false} VisitAllLog(c: Config, s: LoopState, opts: seq<SweepOption>)
    ensures |s.log| <= |VisitAll(c, s, opts).log| && VisitAll(c, s, opts).log[..|s.log|] == s.log
    decreases |opts|
  {
    if opts != [] {
      var front := opts[..|opts| - 1];
      VisitAllLog(c, s, front);
      VisitAllLast(c, s, opts);
      var u := VisitAll(c, s, front);
      var t := VisitAll(c, s, opts);
      assert t.log[..|u.log|] == u.log;
      assert t.log[..|s.log|] == u.log[..|s.log|];
    }
  }

  /** After the loop every option's two names exist, and one record per
      option has been appended in option order. */
  lemma VisitAllShape(c: Config, s: LoopState, opts: seq<SweepOption>)
    ensures VisitAll(c, s, opts).mp3s == s.mp3s + Mp3Names(c, opts)
    ensures VisitAll(c, s, opts).wavs == s.wavs + WavNames(c, opts)
    ensures VisitAll(c, s, opts).files == s.files + Records(c, opts)
    ensures |s.log| <= |VisitAll(c, s, opts).log| && VisitAll(c, s, opts).log[..|s.log|] == s.log
  {
    VisitAllMp3s(c, s, opts);
    VisitAllWavs(c, s, opts);
    VisitAllFiles(c, s, opts);
    VisitAllLog(c, s, opts);
  }

  /** A fresh run records one file per option, pointing at its wav. */
  lemma RunFiles(c: Config, cachedMp3s: set<string>, opts: seq<SweepOption>)
    ensures var files := VisitAll(c, Fresh(cachedMp3s), opts).files;
      |files| == |opts| &&
      forall i :: 0 <= i < |files| ==>
        files[i].path == c.cwd + "/" + WavName(c.dataLabel, opts[i]) &&
        files[i].dataLabel == c.dataLabel &&
        files[i].category == "split" &&
        files[i].metadata == ImportMetadata
  {
    VisitAllFiles(c, Fresh(cachedMp3s), opts);
    var files := VisitAll(c, Fresh(cachedMp3s), opts).files;
    assert files == Records(c, opts);
    forall i | 0 <= i < |files|
      ensures files[i] == RecordFor(c, opts[i])
    {
    }
  }

  /** The log of the loop splits into the log of all but the last option
      and the actions of the last one. */
  lemma DeltaSplit(s: LoopState, u: LoopState, t: LoopState)
    requires |s.log| <= |u.log| && u.log[..|s.log|] == s.log
    requires |u.log| <= |t.log| && t.log[..|u.log|] == u.log
    ensures t.log[|s.log|..] == u.log[|s.log|..] + t.log[|u.log|..]
  {
    assert t.log == u.log + t.log[|u.log|..];
  }

  /** An iteration appends its step to the log. */
  lemma StepAppended(c: Config, u: LoopState, o: SweepOption)
    ensures |u.log| <= |Visit(c, u, o).log|
    ensures Visit(c, u, o).log[..|u.log|] == u.log
    ensures Visit(c, u, o).log[|u.log|..] == Step(c, u, o)
  {
    var t := Visit(c, u, o);
    assert t.log == u.log + Step(c, u, o);
  }

  /** One iteration keeps the synthesis log free of duplicates and equal
      to the names that were missing. */
  lemma SynthesisStep(c: Config, s: LoopState, u: LoopState, o: SweepOption, names: set<string>)
    requires |s.log| <= |u.log| && u.log[..|s.log|] == s.log
    requires u.mp3s == s.mp3s + names
    requires NoDup(SynthTargets(u.log[|s.log|..]))
    requires Elems(SynthTargets(u.log[|s.log|..])) == names - s.mp3s
    ensures |s.log| <= |Visit(c, u, o).log|
    ensures NoDup(SynthTargets(Visit(c, u, o).log[|s.log|..]))
    ensures Elems(SynthTargets(Visit(c, u, o).log[|s.log|..])) == (names + {Mp3Name(c.dataLabel, o)}) - s.mp3s
  {
    var t := Visit(c, u, o);
    var mp3 := Mp3Name(c.dataLabel, o);
    var e := Step(c, u, o);
    StepAppended(c, u, o);
    DeltaSplit(s, u, t);
    var du := u.log[|s.log|..];
    ViewsAppend(du, e);
    StepViews(c, u, o);
    TargetsStep(SynthTargets(du), SynthTargets(e), mp3, s.mp3s, names);
  }

  /** One iteration pauses exactly as often as it calls the service. */
  lemma PauseStep(c: Config, s: LoopState, u: LoopState, o: SweepOption)
    requires |s.log| <= |u.log| && u.log[..|s.log|] == s.log
    requires PauseCount(u.log[|s.log|..]) == |SynthTargets(u.log[|s.log|..])|
    ensures |s.log| <= |Visit(c, u, o).log|
    ensures PauseCount(Visit(c, u, o).log[|s.log|..]) == |SynthTargets(Visit(c, u, o).log[|s.log|..])|
  {
    var t := Visit(c, u, o);
    StepAppended(c, u, o);
    DeltaSplit(s, u, t);
    ViewsAppend(u.log[|s.log|..], Step(c, u, o));
    StepViews(c, u, o);
  }

  /** Each missing mp3 is synthesized exactly once, nothing else is, and
      a pause follows every synthesis. */
  lemma {:induction false} VisitAllSynthesis(c: Config, s: LoopState, opts: seq<SweepOption>)
    ensures |s.log| <= |VisitAll(c, s, opts).log|
    ensures NoDup(SynthTargets(VisitAll(c, s, opts).log[|s.log|..]))
    ensures Elems(SynthTargets(VisitAll(c, s, opts).log[|s.log|..])) == Mp3Names(c, opts) - s.mp3s
    ensures PauseCount(VisitAll(c, s, opts).log[|s.log|..]) == |SynthTargets(VisitAll(c, s, opts).log[|s.log|..])|
    decreases |opts|
  {
    if opts == [] {
      assert s.log[|s.log|..] == [];
    } else {
      var front := opts[..|opts| - 1];
      VisitAllSynthesis(c, s, front);
      VisitAllMp3s(c, s, front);
      VisitAllLog(c, s, front);
      NamesStep(c, opts);
      VisitAllLast(c, s, opts);
      SynthesisStep(c, s, VisitAll(c, s, front), opts[|opts| - 1], Mp3Names(c, front));
      PauseStep(c, s, VisitAll(c, s, front), opts[|opts| - 1]);
    }
  }

  /** One iteration keeps the conversion log free of duplicates and equal
      to the names that were missing. */
  lemma ConversionStep(c: Config, s: LoopState, u: LoopState, o: SweepOption, names: set<string>)
    requires |s.log| <= |u.log| && u.log[..|s.log|] == s.log
    requires u.wavs == s.wavs + names
    requires NoDup(ConvertTargets(u.log[|s.log|..]))
    requires Elems(ConvertTargets(u.log[|s.log|..])) == names - s.wavs
    ensures |s.log| <= |Visit(c, u, o).log|
    ensures NoDup(ConvertTargets(Visit(c, u, o).log[|s.log|..]))
    ensures Elems(ConvertTargets(Visit(c, u, o).log[|s.log|..])) == (names + {WavName(c.dataLabel, o)}) - s.wavs
  {
    var t := Visit(c, u, o);
    var wav := WavName(c.dataLabel, o);
    var e := Step(c, u, o);
    StepAppended(c, u, o);
    DeltaSplit(s, u, t);
    var du := u.log[|s.log|..];
    ViewsAppend(du, e);
    StepViews(c, u, o);
    TargetsStep(ConvertTargets(du), ConvertTargets(e), wav, s.wavs, names);
  }

  /** Each missing wav is converted exactly once, and nothing else is. */
  lemma {:induction false} VisitAllConversion(c: Config, s: LoopState, opts: seq<SweepOption>)
    ensures |s.log| <= |VisitAll(c, s, opts).log|
    ensures NoDup(ConvertTargets(VisitAll(c, s, opts).log[|s.log|..]))
    ensures Elems(ConvertTargets(VisitAll(c, s, opts).log[|s.log|..])) == WavNames(c, opts) - s.wavs
    decreases |opts|
  {
    if opts == [] {
      assert s.log[|s.log|..] == [];
    } else {
      var front := opts[..|opts| - 1];
      VisitAllConversion(c, s, front);
      VisitAllWavs(c, s, front);
      VisitAllLog(c, s, front);
      NamesStep(c, opts);
      VisitAllLast(c, s, opts);
      ConversionStep(c, s, VisitAll(c, s, front), opts[|opts| - 1], WavNames(c, front));
    }
  }

  lemma {:induction false} DistinctCard<T>(q: seq<T>)
    requires NoDup(q)
    ensures |Elems(q)| == |q|
    decreases |q|
  {
    if q != [] {
      var front := q[..|q| - 1];
      DistinctCard(front);
      assert Elems(q) == Elems(front) + {q[|q| - 1]};
      assert q[|q| - 1] !in Elems(front);
    }
  }

  /** The number of service calls is the number of distinct mp3 names not
      yet cached; the number of conversions the number of distinct wav
      names not yet present. */
  lemma WorkCount(c: Config, s: LoopState, opts: seq<SweepOption>)
    ensures |s.log| <= |VisitAll(c, s, opts).log|
    ensures |SynthTargets(VisitAll(c, s, opts).log[|s.log|..])| == |Mp3Names(c, opts) - s.mp3s|
    ensures PauseCount(VisitAll(c, s, opts).log[|s.log|..]) == |Mp3Names(c, opts) - s.mp3s|
    ensures |ConvertTargets(VisitAll(c, s, opts).log[|s.log|..])| == |WavNames(c, opts) - s.wavs|
  {
    VisitAllSynthesis(c, s, opts);
    VisitAllConversion(c, s, opts);
    var d := VisitAll(c, s, opts).log[|s.log|..];
    DistinctCard(SynthTargets(d));
    DistinctCard(ConvertTargets(d));
  }

  /** When every mp3 the options name is already cached, the loop calls the
      service zero times and never pauses. */
  lemma CachedRunIsQuiet(c: Config, s: LoopState, opts: seq<SweepOption>)
    requires Mp3Names(c, opts) <= s.mp3s
    ensures |s.log| <= |VisitAll(c, s, opts).log|
    ensures SynthTargets(VisitAll(c, s, opts).log[|s.log|..]) == []
    ensures PauseCount(VisitAll(c, s, opts).log[|s.log|..]) == 0
  {
    WorkCount(c, s, opts);
    assert Mp3Names(c, opts) - s.mp3s == {};
  }

  lemma StepWhenCached(c: Config, s: LoopState, o: SweepOption)
    requires Mp3Name(c.dataLabel, o) in s.mp3s
    ensures Step(c, s, o) == Conversions(Step(c, s, o))
  {
  }

  /** A run whose mp3s are all cached does exactly the conversions another
      run over the same options and the same wav directory does. */
  lemma {:induction false} ReplayConversions(c: Config, s1: LoopState, s2: LoopState, opts: seq<SweepOption>)
    requires s1.wavs == s2.wavs && Mp3Names(c, opts) <= s2.mp3s
    requires s2.log == Conversions(s1.log)
    ensures VisitAll(c, s2, opts).log == Conversions(VisitAll(c, s1, opts).log)
    decreases |opts|
  {
    if opts != [] {
      var front := opts[..|opts| - 1];
      var o := opts[|opts| - 1];
      NamesStep(c, opts);
      ReplayConversions(c, s1, s2, front);
      VisitAllShape(c, s1, front);
      VisitAllShape(c, s2, front);
      var u1 := VisitAll(c, s1, front);
      var u2 := VisitAll(c, s2, front);
      ViewsAppend(u1.log, Step(c, u1, o));
      StepViews(c, u1, o);
      StepViews(c, u2, o);
      StepWhenCached(c, u2, o);
    }
  }

  /** Running the sweep a second time with the mp3 cache the first run left
      behind calls the service zero times, never pauses, redoes exactly the
      first run's conversions (the wav directory was wiped) and produces
      the same records. */
  lemma SecondRun(c: Config, cached: set<string>, opts: seq<SweepOption>)
    ensures SynthTargets(VisitAll(c, Fresh(VisitAll(c, Fresh(cached), opts).mp3s), opts).log) == []
    ensures PauseCount(VisitAll(c, Fresh(VisitAll(c, Fresh(cached), opts).mp3s), opts).log) == 0
    ensures VisitAll(c, Fresh(VisitAll(c, Fresh(cached), opts).mp3s), opts).log ==
      Conversions(VisitAll(c, Fresh(cached), opts).log)
    ensures VisitAll(c, Fresh(VisitAll(c, Fresh(cached), opts).mp3s), opts).files ==
      VisitAll(c, Fresh(cached), opts).files
  {
    var t1 := VisitAll(c, Fresh(cached), opts);
    var s2 := Fresh(t1.mp3s);
    VisitAllShape(c, Fresh(cached), opts);
    VisitAllShape(c, s2, opts);
    CachedRunIsQuiet(c, s2, opts);
    assert VisitAll(c, s2, opts).log[|s2.log|..] == VisitAll(c, s2, opts).log;
    ReplayConversions(c, Fresh(cached), s2, opts);
  }

  /**
   * The loop's mutable state: the two directories, the outside effects so
   * far and `downloadedFiles`.
   */
  class Workspace {
    const config: Config
    var mp3s: set<string>
    var wavs: set<string>
    var log: seq<Action>
    var downloadedFiles: seq<FileRecord>

    function State(): LoopState
      reads this
    {
      LoopState(mp3s, wavs, log, downloadedFiles)
    }

    /** A run starts with the cached mp3s and an empty wav directory. */
    constructor(config: Config, cachedMp3s: set<string>)
      ensures this.config == config
      ensures State() == Fresh(cachedMp3s)
    {
      this.config := config;
      mp3s := cachedMp3s;
      wavs := {};
      log := [];
      downloadedFiles := [];
    }

    /** One pass of the loop body, tts.js:162-201. */
    method ProcessOption(o: SweepOption)
      modifies this
      ensures State() == Visit(config, old(State()), o)
    {
      ghost var before := State();
      var request := RequestFor(o);
      var hasHitApi := false;
      var mp3FileName := Mp3Name(config.dataLabel, o);
      var wavFileName := WavName(config.dataLabel, o);
      ghost var synthesized: seq<Action> := [];
      ghost var converted: seq<Action> := [];
      if mp3FileName !in mp3s {
        log := log + [Synthesize(request, mp3FileName)];
        synthesized := [Synthesize(request, mp3FileName)];
        mp3s := mp3s + {mp3FileName};
        hasHitApi := true;
      }
      if wavFileName !in wavs {
        log := log + [Convert(wavFileName, SoxCommand(mp3FileName, wavFileName, config.outLength))];
        converted := [Convert(wavFileName, SoxCommand(mp3FileName, wavFileName, config.outLength))];
        wavs := wavs + {wavFileName};
      }
      downloadedFiles := downloadedFiles + [RecordFor(config, o)];
      ghost var paused: seq<Action> := [];
      if hasHitApi {
        log := log + [Pause(PauseMs)];
        paused := [Pause(PauseMs)];
      }
      assert mp3s == before.mp3s + {mp3FileName};
      assert wavs == before.wavs + {wavFileName};
      assert log == before.log + synthesized + converted + paused;
      assert synthesized + converted + paused == Step(config, before, o);
      assert State() == LoopState(before.mp3s + {mp3FileName}, before.wavs + {wavFileName},
        before.log + Step(config, before, o), before.files + [RecordFor(config, o)]);
    }

    /** The loop over all options, tts.js:158-202. */
    method ProcessAll(allOpts: seq<SweepOption>)
      modifies this
      ensures State() == VisitAll(config, old(State()), allOpts)
    {
      for i := 0 to |allOpts|
        invariant State() == VisitAll(config, old(State()), allOpts[..i])
      {
        assert allOpts[..i + 1][..i] == allOpts[..i];
        ProcessOption(allOpts[i]);
      }
      assert allOpts[..|allOpts|] == allOpts;
    }
  }
}
