# Text-to-speech keyword generator, modelled in Dafny

`tts.js` is an Edge Impulse transform block. It produces spoken samples of a
keyword for training a keyword-spotting model:

1. It splits `--lang` on commas and resolves it to a list of language codes.
   The entry `all` selects the fixed 48-code catalog. Unknown codes are
   reported but kept.
2. It builds the sweep: every combination of three pitches (-10, 0, 10), two
   SSML genders (FEMALE, MALE), the resolved languages, the keyword and three
   speaking rates (0.75, 1, 1.25). The loops nest pitch, then gender, then
   language, then text, then rate.
3. When `--count` is below the sweep size, a stride filter thins the sweep.
4. It visits each option:
   - it calls the text-to-speech service unless the mp3 is already cached;
   - it converts the mp3 to a wav with `sox` unless that wav exists;
   - it records the wav for upload;
   - it pauses two seconds after every service call.
5. Unless `--skip-upload` is given, it hands `{version: 1, files}` to the
   uploader.

The project models steps 1 to 5 and proves what the code promises about
them. The modules are:

- `Options`: the fixed axes and how each value is rendered in names.
- `Languages`: the comma split and the resolution of `--lang`.
- `Sweep`: the nested loops, one method per loop level. Each method is
  proved against a level function defined by its last element.
- `Subsample`: the stride filter, with exact rationals and an explicit
  infinite stride. It is proved against a recursive scan. The scan gets a
  closed form in exact arithmetic: the k-th kept index is
  `floor(k·N/count) + 1`.
- `FileNames`: the mp3 and wav names, plus a decoder that shows the name
  determines the option's language, gender, pitch and rate (the keyword is
  not part of the name).
- `CacheLoop`:
  - the filesystem is two sets of names: the mp3 cache survives between
    runs, and the wav directory starts empty because it is wiped first;
  - the mp3 cache is keyed by label, language, gender, pitch and rate only,
    so a rerun with the same label and another keyword finds its mp3s
    cached and converts the earlier keyword's audio;
  - outside effects are a log of actions;
  - the pure functions `Visit` and `VisitAll` model the loop, and the
    class `Workspace` with its methods is proved against them.
- `Pipeline`: the whole run, the manifest and the hello-world scenario.

With `--keyword "hello world" --lang en-US --count 1`, the filter keeps the
option at index 1 (rate 1), not the sweep's first option. The first test at
tts.js:140 is `0 > 0`, because the threshold `selectNext` starts at 0.
`Pipeline.HelloWorldNames` proves the names
`helloworld.en-US-FEMALE--10-1.mp3` and `helloworld.en-US-FEMALE--10-1.tts.wav`.
Index 0 is visited only when the guard at tts.js:136 fails, that is, when
the count is NaN or at least the sweep's length, and nothing is filtered.

## Model

| member | source | states |
|---|---|---|
| Languages.Split | tts.js:62 | `String.split`: at least one part, and no part contains the separator |
| Languages.JoinSplit | tts.js:62 | joining the parts of a split with the separator gives back the string |
| Languages.SplitJoin | tts.js:62 | splitting a join of separator-free parts gives back the parts |
| Languages.UnlistedMembers | tts.js:105-109 | for any list of known codes, an entry is reported iff it was selected and is not known, and there are no more reports than entries |
| Languages.UnlistedCounts | tts.js:105-109 | for any list of known codes, each entry that is not known is reported exactly as often as it occurs, and a known one never |
| Languages.UnknownMembers | tts.js:105-109 | a code is reported iff it was selected and is not in the 48-code catalog; each code outside the catalog is reported exactly as often as it occurs in the selection, and a catalog code never |
| Languages.ResolveLanguages | tts.js:90-111 | with `all` anywhere in the selection, the languages are the whole 48-entry catalog and nothing is reported; otherwise the selection is kept unchanged, unknown codes included, and exactly the unknown entries are reported in order |
| Options.PitchTexts | tts.js:86 | the pitches render as `-10`, `0`, `10`, so pitch -10 yields `--10` in a name |
| Sweep.BuildSweep | tts.js:117-134 | the five nested loops produce exactly the level-by-level sweep |
| Sweep.PushGenders | tts.js:118-133 | the gender loop appends one language block per gender, in order |
| Sweep.PushLanguages | tts.js:119-132 | the language loop appends one text block per language, in order |
| Sweep.PushTexts | tts.js:120-131 | the text loop appends one rate block per text |
| Sweep.PushRates | tts.js:121-130 | the rate loop appends one option per rate, in order |
| Sweep.SweepAt | tts.js:117-134 | the sweep has 3·2·L·T·3 entries, and entry (((p·2+g)·L+l)·T+t)·3+s is the option (pitches[p], genders[g], languages[l], texts[t], rates[s]) |
| Sweep.KeywordSweepAt | tts.js:113-134 | with the single keyword, the sweep has 18·L entries, and entry ((p·2+g)·L+l)·3+s is (pitches[p], genders[g], languages[l], keyword, rates[s]) |
| Sweep.SweepMembers | tts.js:117-134 | every option of the sweep has a fixed pitch, gender and rate, and a given language and text |
| Subsample.Scan | tts.js:138-145 | the kept indices are strictly increasing and lie in the range still to be scanned |
| Subsample.Subsampled | tts.js:136-146 | the result is never longer than the sweep, and is the sweep itself when the guard fails (NaN, or a count at least the length) |
| Subsample.Subsample | tts.js:136-146 | the loop of the filter computes exactly `Subsampled` |
| Subsample.ScanClosedForm | tts.js:137-145 | from threshold k·N/c, the scan keeps exactly the indices ⌊j·N/c⌋+1 for j = k..c-1 |
| Subsample.ExactCount | tts.js:136-146 | in exact arithmetic, for 1 ≤ count < N exactly `count` options are kept, and the k-th is the option at index ⌊k·N/count⌋+1 |
| Subsample.SubsampleIsSubsequence | tts.js:136-146 | when it filters, the result is an order-preserving selection at increasing indices in [1, N), so index 0 is never kept |
| Subsample.ZeroCount | tts.js:136-146 | count 0 gives an infinite stride, so only the option at index 1 is kept |
| Subsample.NegativeCount | tts.js:136-146 | a negative count makes the threshold fall, so every option but the first is kept |
| FileNames.SharedStem | tts.js:173-174 | the mp3 and wav names carry the same stem `<label>.<lang>-<gender>-<pitch>-<rate>`, and differ only in directory (`out-mp3/`, `out-wav/`) and suffix (`.mp3`, `.tts.wav`) |
| FileNames.Mp3NameRoundTrip | tts.js:173 | decoding an mp3 name gives back the option's language, gender, pitch and rate, for any label and language code |
| FileNames.Mp3NameInjective | tts.js:173 | two options of the sweep share an mp3 name iff they agree on language, gender, pitch and rate (the text is not part of the name) |
| FileNames.WavFollowsMp3 | tts.js:173-174 | options with the same mp3 name have the same wav name |
| FileNames.ExampleNames | tts.js:173-174 | the option (-10, FEMALE, en-US, rate 1) under label `helloworld` has the stem `helloworld.en-US-FEMALE--10-1` |
| CacheLoop.VisitEffect | tts.js:163-201 | one iteration: it synthesizes iff the mp3 is missing and converts iff the wav is missing; afterwards both names exist; it pauses exactly when it called the service; the synthesis carries the option's request and comes first, the pause comes last; the `sox` command converts that mp3 into that wav; exactly one record is appended |
| CacheLoop.VisitAllShape | tts.js:161-202 | after the loop, the mp3 cache and the wav directory hold every option's names; one record per option has been appended in order; the log is only appended to |
| CacheLoop.VisitAllSynthesis | tts.js:175-201 | without duplicates, the service is called for exactly the mp3 names that were not cached, and there are as many pauses as service calls |
| CacheLoop.VisitAllConversion | tts.js:184-188 | without duplicates, conversion runs for exactly the wav names that were not present |
| CacheLoop.WorkCount | tts.js:175-201 | there are as many service calls (and pauses) as distinct uncached mp3 names, and as many conversions as distinct missing wav names |
| CacheLoop.CachedRunIsQuiet | tts.js:175-201 | when every mp3 of the options is cached, the loop calls the service zero times and never pauses |
| CacheLoop.VisitAllCommands | tts.js:184-188 | every conversion the loop logs, beyond those already in the log, converts one of its options' mp3 into its wav with the configured length |
| CacheLoop.ReplayConversions | tts.js:184-188 | a run whose mp3s are all cached performs exactly the conversions of another run over the same options and wav directory |
| CacheLoop.SecondRun | tts.js:151-202 | a second run over the first run's mp3 cache calls the service zero times, never pauses, re-does exactly the first run's conversions (the wav directory was wiped) and produces the same records |
| CacheLoop.RunFiles | tts.js:190-197 | a run records one file per option, in order, with path `<cwd>/<wav name>`, the label, category `split` and `imported_from: Google Cloud TTS` |
| CacheLoop.Workspace.constructor | tts.js:151-158 | a run starts with the cached mp3s, an empty wav directory, no actions and no records |
| CacheLoop.Workspace.ProcessOption | tts.js:162-201 | the loop body changes the workspace exactly as `Visit` does |
| CacheLoop.Workspace.ProcessAll | tts.js:161-202 | the loop changes the workspace exactly as `VisitAll` does over all options |
| Pipeline.RunTrimLength | tts.js:184-188 | every `sox` call of a run converts some visited option's mp3 into its wav and trims to `--out-length`, or to `00:01` when that is missing or empty (tts.js:64) |
| Pipeline.Generate | tts.js:60-218 | a count error is reported iff `Number(--count)` is NaN; the reported codes are those of `ResolveLanguages`; the workspace ends as the loop over the subsampled sweep leaves it; the manifest is `{version: 1, files}` with the run's records, or none with `--skip-upload` |
| Pipeline.PlanSize | tts.js:136-146 | the run visits 18·L options when the guard fails; otherwise `count` of them for a positive count, 1 for count 0, and 18·L - 1 for a negative count |
| Pipeline.PlanMembers | tts.js:113-146 | every visited option has a fixed pitch, gender and rate, one of the resolved languages, and the keyword |
| Pipeline.RunRecords | tts.js:190-218 | the manifest's `files` has one entry per visited option, in order, each pointing at that option's wav under the working directory |
| Pipeline.RunNamesDecode | tts.js:173-182 | after a run, every visited option's mp3 exists, and its name decodes back to the option's language, gender, pitch and rate (the keyword is not part of the name) |
| Pipeline.HelloWorldPlan | tts.js:117-146 | `--keyword "hello world" --lang en-US --count 1` visits exactly one option, (-10, FEMALE, en-US, "hello world", rate 1) |
| Pipeline.HelloWorldNames | tts.js:173-174 | that option's files are `out-mp3/helloworld.en-US-FEMALE--10-1.mp3` and `out-wav/helloworld.en-US-FEMALE--10-1.tts.wav`, and the output length defaults to `00:01` |

## Left out

- The environment checks and API endpoint set-up (tts.js:14-43), the
  `package.json` version and the argument parser (tts.js:45-58): outside
  configuration. The model starts from the parsed arguments of
  `Pipeline.Args`.
- The text-to-speech client (tts.js:70-84) and the audio bytes it returns.
  A synthesis is one `Synthesize` action carrying the request. Audio
  content is not modelled; `SecondRun` shows the same conversion commands
  are issued.
- Failures of the service call, of the mp3 write or of `sox`: in the
  source they throw and end the run. The model has every call succeed.
- The two-second `setTimeout`: modelled as a `Pause(2000)` action, without
  timing.
- `rmDir`, `exists` and `safeUnlinkFile` (tts.js:253-295), including the
  `.nfs` rule: filesystem I/O. Their effect is represented only as "the
  wav set starts empty".
- The temporary directory, writing `input.json` and spawning
  `edge-impulse-uploader` with its exit status (tts.js:212-246): I/O and a
  process. The model stops at the manifest value.
- Console output: the `[ix/N]` progress counter, the invalid-language and
  invalid-count messages, and the done messages. Only the reported codes
  and a count-error flag are returned.
- `Path.join` and `Path.resolve` normalisation: names are plain
  concatenation, and a resolved path is `<cwd>/<relative path>`.
- Subsample.Subsample: `selectNext` accumulates `selectEvery = N / count`
  in IEEE doubles in the source; the model uses exact rationals. The kept
  positions can already differ on an 18-option sweep: with `--count 15`,
  `selectEvery` is 1.2, ten additions give 11.999999999999998, and the
  source keeps index 12 as its 11th option where the exact model keeps
  index 13. The number of options kept is proved only for exact
  arithmetic.
- `Number(--count)` of a non-integer or of `-0`: the count is NaN or an
  integer in the model.
- Subsample.ExactCount: stated for 1 ≤ count < N only, and only for exact
  arithmetic: the ⌊k·N/count⌋+1 positions are not those of the source's
  double accumulation (see the line above). Count 0 and negative counts are
  covered by `ZeroCount` and `NegativeCount`.
