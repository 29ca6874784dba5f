/**
 * The whole run of tts.js from parsed arguments to the manifest handed to
 * the uploader: language resolution, sweep, subsample, the cache loop and
 * the `{version: 1, files}` object (tts.js:60-68, 104-146, 150-218).
 */
module Pipeline {
  import opened Wrappers
  import opened Options
  import opened Languages
  import opened Sweep
  import opened Subsample
  import opened FileNames
  import opened CacheLoop

  /** The parsed command line. `count` is `Number(--count)`; `outLength` is
      the `--out-length` value if one was given. */
  datatype Args = Args(
    keyword: string,
    dataLabel: string,
    lang: string,
    count: CountArg,
    outLength: Option<string>,
    skipUpload: bool)

  const DefaultOutLength: string := "00:01"

  /** `program.outLength || '00:01'`: a missing or empty value falls back to
      the default, any other value is kept. */
  function OutLength(given: Option<string>): (r: string)
    ensures r != ""
    ensures given.Some? && given.value != "" ==> r == given.value
    ensures given.None? || given.value == "" ==> r == DefaultOutLength
  {
    if given.Some? && given.value != "" then given.value else DefaultOutLength
  }

  /** The language codes the sweep runs over. */
  function LanguagesOf(args: Args): seq<string> {
    var selected := Split(args.lang, ',');
    if AllSentinel in selected then Catalog else selected
  }

  /** The options the loop visits, in order. */
  function Plan(args: Args): seq<SweepOption> {
    Subsampled(FullSweep(LanguagesOf(args), [args.keyword]), args.count)
  }

  function ConfigFor(args: Args, cwd: string): Config {
    Config(args.dataLabel, OutLength(args.outLength), cwd)
  }

  /** The info file passed to `edge-impulse-uploader`. */
  datatype Manifest = Manifest(version: nat, files: seq<FileRecord>)

  /**
   * One run. `countError` is whether the count check at tts.js:66 reports
   * an error, `unknown` the codes reported as invalid at tts.js:107, and
   * `manifest` the info file when uploading is not skipped.
   */
  method Generate(args: Args, cwd: string, cachedMp3s: set<string>)
    returns (countError: bool, unknown: seq<string>, ws: Workspace, manifest: Option<Manifest>)
    ensures countError <==> args.count.NaN?
    ensures unknown == (if AllSentinel in Split(args.lang, ',') then [] else Unknown(Split(args.lang, ',')))
    ensures fresh(ws) && ws.config == ConfigFor(args, cwd)
    ensures ws.State() == VisitAll(ConfigFor(args, cwd), Fresh(cachedMp3s), Plan(args))
    ensures manifest == if args.skipUpload then None else Some(Manifest(1, ws.downloadedFiles))
  {
    var selectedLanguages := Split(args.lang, ',');
    countError := args.count.NaN?;
    var languages;
    languages, unknown := ResolveLanguages(selectedLanguages);
    var allOpts := BuildSweep(languages, [args.keyword]);
    allOpts := Subsample.Subsample(allOpts, args.count);
    ws := new Workspace(ConfigFor(args, cwd), cachedMp3s);
    ws.ProcessAll(allOpts);
    if args.skipUpload {
      manifest := None;
    } else {
      manifest := Some(Manifest(1, ws.downloadedFiles));
    }
  }

  /** How many options the run visits: all `18·L` of the sweep unless
      `count` is a number below that; then `count` of them when it is
      positive, one when it is zero (the stride is infinite) and all but
      the first when it is negative. */
  lemma PlanSize(args: Args)
    ensures var n := 18 * |LanguagesOf(args)|;
      |Plan(args)| ==
        if !Subsamples(n, args.count) then n
        else if args.count.value >= 1 then args.count.value
        else if args.count.value == 0 then 1
        else n - 1
  {
    var opts := FullSweep(LanguagesOf(args), [args.keyword]);
    KeywordSweepAt(LanguagesOf(args), args.keyword, 0, 0, 0, 0, 0);
    var n := |opts|;
    if Subsamples(n, args.count) {
      var c := args.count.value;
      if c >= 1 {
        ExactCount(opts, c);
      } else if c == 0 {
        ZeroCount(opts);
      } else {
        NegativeCount(opts, c);
      }
    }
  }

  /** Every option the run visits uses a fixed pitch, gender and rate, one of
      the resolved languages and the keyword. */
  lemma PlanMembers(args: Args)
    ensures forall o :: o in Plan(args) ==> Drawn(o, Pitches, Genders, LanguagesOf(args), [args.keyword])
  {
    var opts := FullSweep(LanguagesOf(args), [args.keyword]);
    SweepMembers(LanguagesOf(args), [args.keyword]);
    if Subsamples(|opts|, args.count) {
      SubsampleIsSubsequence(opts, args.count);
      forall o | o in Plan(args)
        ensures o in opts
      {
        var j :| 0 <= j < |Plan(args)| && Plan(args)[j] == o;
      }
    }
  }

  /** `--out-length`, after its fallback, is the `trim 0` length of every
      `sox` call of the run: each logged conversion turns some visited
      option's mp3 into its wav with that length. */
  lemma RunTrimLength(args: Args, cwd: string, cachedMp3s: set<string>)
    ensures forall a :: a in VisitAll(ConfigFor(args, cwd), Fresh(cachedMp3s), Plan(args)).log && a.Convert? ==>
      exists o :: o in Plan(args) && a.target == WavName(args.dataLabel, o) &&
        a.command == SoxCommand(Mp3Name(args.dataLabel, o), WavName(args.dataLabel, o), OutLength(args.outLength))
  {
    VisitAllCommands(ConfigFor(args, cwd), Fresh(cachedMp3s), Plan(args));
  }

  /** The records of a run, and so the `files` of its manifest: one per
      visited option, in order, each pointing at the absolute path of that
      option's wav, with the run's label, category `split` and the import
      source. */
  lemma RunRecords(args: Args, cwd: string, cachedMp3s: set<string>)
    ensures var files := VisitAll(ConfigFor(args, cwd), Fresh(cachedMp3s), Plan(args)).files;
      |files| == |Plan(args)| &&
      forall i :: 0 <= i < |files| ==>
        files[i].path == cwd + "/" + WavName(args.dataLabel, Plan(args)[i]) &&
        files[i].dataLabel == args.dataLabel &&
        files[i].category == "split" &&
        files[i].metadata == ImportMetadata
  {
    RunFiles(ConfigFor(args, cwd), cachedMp3s, Plan(args));
  }

  /** In a run every visited option's mp3 is either cached or synthesized,
      and the name it is cached under gives back the option's language,
      gender, pitch and rate. */
  lemma RunNamesDecode(args: Args, cwd: string, cachedMp3s: set<string>)
    ensures forall o :: o in Plan(args) ==>
      Mp3Name(args.dataLabel, o) in VisitAll(ConfigFor(args, cwd), Fresh(cachedMp3s), Plan(args)).mp3s &&
      ParseMp3Name(args.dataLabel, Mp3Name(args.dataLabel, o)) ==
        Some(NameFields(o.language, o.gender, o.pitch, o.speakingRate))
  {
    VisitAllMp3s(ConfigFor(args, cwd), Fresh(cachedMp3s), Plan(args));
    PlanMembers(args);
    forall o | o in Plan(args)
      ensures ParseMp3Name(args.dataLabel, Mp3Name(args.dataLabel, o)) ==
        Some(NameFields(o.language, o.gender, o.pitch, o.speakingRate))
    {
      Mp3NameRoundTrip(args.dataLabel, o);
    }
  }

  /** `--keyword "hello world" --label helloworld --lang en-US --count 1`:
      the sweep has 18 options, the stride is 18 and the only kept option is
      the one at index 1, female at pitch -10 and rate 1. */
  lemma HelloWorldPlan(args: Args)
    requires args.keyword == "hello world" && args.lang == "en-US" && args.count == Number(1)
    ensures Plan(args) == [SweepOption(-10, Female, "en-US", "hello world", Normal)]
  {
    SplitPlain(args.lang, ',');
    assert LanguagesOf(args) == ["en-US"];
    var opts := FullSweep(LanguagesOf(args), [args.keyword]);
    KeywordSweepAt(LanguagesOf(args), args.keyword, 0, 0, 0, 1, 1);
    ExactCount(opts, 1);
    assert KthKept(0, 18, 1) == 1;
  }

  /** The files of that one option, and the default output length. */
  lemma HelloWorldNames(args: Args, cwd: string)
    requires args.keyword == "hello world" && args.dataLabel == "helloworld" && args.lang == "en-US"
    requires args.count == Number(1) && args.outLength == None
    ensures |Plan(args)| == 1
    ensures Mp3Name(args.dataLabel, Plan(args)[0]) == Mp3Dir + "helloworld.en-US-FEMALE--10-1" + Mp3Suffix
    ensures WavName(args.dataLabel, Plan(args)[0]) == WavDir + "helloworld.en-US-FEMALE--10-1" + WavSuffix
    ensures ConfigFor(args, cwd).outLength == "00:01"
  {
    HelloWorldPlan(args);
    ExampleNames(Plan(args)[0]);
  }
}
