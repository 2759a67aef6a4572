# ccaudio in Dafny

A verified model of the core of ccaudio, a pipeline that builds a Japanese speech
corpus from Common Crawl. The model covers two halves.

The extraction half finds the audio:
- choosing Common Crawl snapshots between two ISO weeks and listing their WARC files;
- keeping the Japanese HTML pages of a WARC file;
- finding audio URLs in an HTML page or an RSS/Atom feed;
- regrouping the extracted JSONL files into parquet files.

The audio half turns each downloaded file into a lhotse cut in a Shar archive:
- the three scrapy item pipelines, which infer the format or extension, transcode, build a MonoCut or MultiCut and write it;
- the preprocessing steps: mono and resampling, language identification with the 0.7 `lang_prob` gate, transcription with word alignments, and source separation.

Each Python module of the core is one Dafny module in a file of the same name:

| Dafny file | Python source |
|---|---|
| `downloader.dfy` | `src/ccaudio/ccaudio_downloader/ccaudio_downloader/pipelines.py` |
| `ccaudio_pipeline.dfy` | `src/ccaudio/pipelines.py` |
| `scrapy_pipeline.dfy` | `src/ccaudio/download/scrapy_pipelines.py` |
| `pipeline_*.dfy` | the modules under `src/ccaudio/preprocess/pipeline/` |
| `preprocess.dfy` | `src/ccaudio/preprocess.py` |
| `whisper_detect_lang.dfy` and `filter_lang_prob.dfy` | the two modules under `src/ccaudio/preprocess/` |
| the other files named after modules | the modules under `src/ccaudio/extract_url/` |

The shared modules are:
- `Lhotse`: recordings, supervisions, cuts, scrapy items and Shar writers;
- `Ingest`: the temp-file, extension and transcode rules and the cut construction that two of the pipelines share;
- `Serialization`: `serialize`;
- `Text`: Python's `str.strip`, `split`, `join`, `lower` and `int`;
- `Wrappers`: `Option` and `Result`.

Python objects whose attributes the code assigns become Dafny classes:
- the lhotse cut (`Lhotse.Cut`);
- the scrapy item (`Lhotse.Item`);
- each pipeline object with its writer and counter.

Their methods state the new state with `modifies`/`old`. Each is proved against a function on values:
- `CutManifest`, what a Shar writer stores;
- `Attempt`, the outcome of one `process_item` call.

Loops in the source are `method`s whose invariants tie them to recursive specification functions, for example:
- `GetMainWarcPaths` ties to `AddSnapshots`;
- `ProcessWarc` ties to `KeptPages`;
- `ExtractAudioUrlPairs` ties to `Pairs`.

Lemmas then prove what the source promises about those functions. Calls into code that is not shown become parameters:
- Whisper, demucs, pydub, soundfile, chardet and urllib;
- BeautifulSoup's tree walk;
- uuid and temp-file names;
- which write raises.

Python floats are modelled as `real`.

## Model

| member | source | states |
|---|---|---|
| FilterLangProb.FilterLangProb | src/ccaudio/preprocess/filter_lang_prob.py:4-6 | AssertionError exactly when `cut.custom` is None; a verdict exactly when "lang_prob" is present and numeric, and then it is `lang_prob >= 0.7` |
| FilterLangProb.FilterBoundary | src/ccaudio/preprocess/filter_lang_prob.py:6 | 0.7 itself is accepted; any lower probability is rejected |
| WhisperDetectLang.Detected | src/ccaudio/preprocess/whisper_detect_lang.py:19-33 | the supervisions become the one detected supervision; `custom` gains "lang_prob" (or is created); nothing else on the cut changes |
| WhisperDetectLang.DetectLang | src/ccaudio/preprocess/whisper_detect_lang.py:6-35 | the same cut object is returned, updated in place to `Detected` of its old value |
| WhisperDetectLang.DetectedShape | src/ccaudio/preprocess/whisper_detect_lang.py:19-28 | exactly one supervision: id "segment_"+cut id, the cut's recording id, start and duration, channel 0, the detected language; mono stays mono |
| WhisperDetectLang.DetectThenFilter | src/ccaudio/preprocess/whisper_detect_lang.py:30-33 | after detection the cut-level filter never fails and accepts iff the probability is at least 0.7 |
| WhisperDetectLang.DetectedIdempotent | src/ccaudio/preprocess/whisper_detect_lang.py:19-33 | detecting twice with the same answer equals detecting once |
| WhisperDetectLang.DetectedWithinCutIff | src/ccaudio/preprocess/whisper_detect_lang.py:19-28 | the new supervision, placed at `cut.start`, lies within the cut iff the cut starts at 0 |
| PipelineConvertAudio.Converted | src/ccaudio/preprocess/pipeline/convert_audio.py:5-17 | as written: a successful result is a MonoCut with exactly one supervision; IndexError otherwise (see Findings) |
| PipelineConvertAudio.ConvertAudio | src/ccaudio/preprocess/pipeline/convert_audio.py:5-17 | returns a fresh cut whose value is `Converted` of the input, or the same error; the input cut is not modified |
| PipelineConvertAudio.ConvertedWithLhotse | src/ccaudio/preprocess/pipeline/convert_audio.py:5-17 | a cut with a supervision always converts to a MonoCut at 16 kHz holding exactly the first supervision, with id, times and custom kept |
| PipelineConvertAudio.ConvertedRejectsCutWithoutSupervisions | src/ccaudio/preprocess/pipeline/convert_audio.py:15 | a cut without supervisions raises IndexError |
| PipelineConvertAudio.ConvertedFirstOnly | src/ccaudio/preprocess/pipeline/convert_audio.py:15 | intended rule: a MonoCut with at most one supervision |
| PipelineConvertAudio.ConvertedFirstOnlyCorrect | src/ccaudio/preprocess/pipeline/convert_audio.py:15 | the intended rule never fails, keeps the first supervision if any, and agrees with the as-written rule whenever that succeeds |
| PipelineFilterLangProb.FilterLangProb | src/ccaudio/preprocess/pipeline/filter_lang_prob.py:4-7 | IndexError iff no supervisions; a verdict iff the first supervision's custom has a numeric "lang_prob", and then it is `>= 0.7` |
| PipelineFilterLangProb.FilterIgnoresCutCustom | src/ccaudio/preprocess/pipeline/filter_lang_prob.py:4-7 | the verdict does not depend on the cut's own `custom` |
| PipelineFilterLangProb.FilterBoundary | src/ccaudio/preprocess/pipeline/filter_lang_prob.py:7 | 0.7 is accepted, anything lower rejected |
| PipelineWhisperDetectLang.Detected | src/ccaudio/preprocess/pipeline/whisper_detect_lang.py:19-25 | IndexError iff there are no supervisions; otherwise exactly one supervision and `cut.custom` untouched |
| PipelineWhisperDetectLang.DetectLang | src/ccaudio/preprocess/pipeline/whisper_detect_lang.py:6-27 | on IndexError the cut is unchanged; otherwise the same cut is returned, updated in place to `Detected` |
| PipelineWhisperDetectLang.DetectedKeepsFirst | src/ccaudio/preprocess/pipeline/whisper_detect_lang.py:19-25 | only the first supervision survives, with only its language and custom changed; the custom keeps its other keys |
| PipelineWhisperDetectLang.DetectThenFilter | src/ccaudio/preprocess/pipeline/whisper_detect_lang.py:19-25 | after detection the supervision-level filter accepts iff the probability is at least 0.7 |
| PipelineWhisperTranscribe.WithText | src/ccaudio/preprocess/pipeline/whisper_transcribe.py:23-24 | same number of supervisions, each with the one text and nothing else changed |
| PipelineWhisperTranscribe.WhisperTranscribe | src/ccaudio/preprocess/pipeline/whisper_transcribe.py:8-26 | IndexError and no change without supervisions; otherwise every supervision gets the stripped joined transcript, no alignment, and the same cut is returned |
| PipelineWhisperTranscribe.TranscriptKeepsInnerSpace | src/ccaudio/preprocess/pipeline/whisper_transcribe.py:21 | segments "w " and "v" (w not starting, v not ending with whitespace) give "w v": whitespace between segments is kept |
| PipelineWhisperTranscribe.JoinSerializedTexts | src/ccaudio/preprocess/pipeline/whisper_transcribe.py:16-21 | serialising each segment and joining the `text` fields gives the concatenation of the segment texts in order, before the strip |
| PipelineWhisperTranscribe.TranscriptTrimmed | src/ccaudio/preprocess/pipeline/whisper_transcribe.py:21 | the transcript neither starts nor ends with whitespace and is a fixed point of strip |
| Serialization.Serialize | src/ccaudio/preprocess/pipeline/whisper_transcribe.py:29-36 | dataclass becomes `asdict`; lists and dicts keep their length and keys; every other value (tuples too) is returned unchanged |
| Serialization.AsDictNoDataclass | src/ccaudio/preprocess/pipeline/whisper_transcribe.py:29-36 | `asdict` leaves no dataclass at any depth |
| Serialization.SerializeReachesSerializedForm | src/ccaudio/preprocess/pipeline/whisper_transcribe.py:29-36 | every result holds no dataclass outside tuples and dict keys, the only places `serialize` does not descend into |
| Serialization.SerializeFixesSerializedForm | src/ccaudio/preprocess/pipeline/whisper_transcribe.py:29-36 | a value with no dataclass outside tuples and dict keys is returned unchanged |
| Serialization.SerializeFixedPoints | src/ccaudio/preprocess/pipeline/whisper_transcribe.py:29-36 | `serialize` leaves a value unchanged exactly when no dataclass sits outside its tuples and dict keys |
| Serialization.SerializeFixesPlainValues | src/ccaudio/preprocess/pipeline/whisper_transcribe.py:29-36 | a value without dataclasses is returned unchanged |
| Serialization.SerializeIdempotent | src/ccaudio/preprocess/pipeline/whisper_transcribe.py:29-36 | serialising twice equals serialising once |
| Serialization.SerializeSkipsTuples | src/ccaudio/preprocess/pipeline/whisper_transcribe.py:29-36 | a dataclass inside a tuple is not converted |
| Serialization.Lookup | src/ccaudio/ccaudio_downloader/ccaudio_downloader/pipelines.py:297-303 | `d[key]` finds a value iff some entry has the key |
| Serialization.SegmentRoundTrip | src/ccaudio/ccaudio_downloader/ccaudio_downloader/pipelines.py:293-303 | serialising a segment and reading "text", "start", "end" back gives the segment |
| Serialization.SerializedSegment | src/ccaudio/ccaudio_downloader/ccaudio_downloader/pipelines.py:313-320 | the serialised segment is a dict whose "text", "start" and "end" are the segment's |
| Preprocess.ConvertAudio | src/ccaudio/preprocess.py:13-23 | a result is a MonoCut: the resampled input when mono, the resampled downmix when multi |
| Preprocess.ConvertAudioWithLhotse | src/ccaudio/preprocess.py:13-23 | never fails: a MonoCut at `sr` with id, times, supervisions and custom kept; a MonoCut is not downmixed |
| Preprocess.ConvertAudioIdempotent | src/ccaudio/preprocess.py:13-23 | converting a converted cut again changes nothing |
| Preprocess.ConvertAudioKeepsWellFormed | src/ccaudio/preprocess.py:13-23 | the cut invariants (window of the recording, valid channels, supervisions within the cut) are preserved |
| Preprocess.SeparatorInput | src/ccaudio/preprocess.py:27-29 | one channel becomes exactly two copies of it (`repeat(2, 1)`); any other shape passes unchanged; no channel is lost or invented |
| Preprocess.Separate | src/ccaudio/preprocess.py:26-40 | only `cut.recording` changes, to the vocals recording under the old recording id; the same cut is returned |
| Downloader.AudioFormatPrecedence | src/ccaudio/ccaudio_downloader/ccaudio_downloader/pipelines.py:71-92 | whenever a Content-Type rule fires its format is the result whatever the URL path is; the rules fire in the order mp3 ("audio/mpeg" or "audio/mp3"), wav ("audio/wav" or "audio/wave"), flac, ogg; and the URL decides only when none fires |
| Downloader.AudioFormatRange | src/ccaudio/ccaudio_downloader/ccaudio_downloader/pipelines.py:66-97 | the format is one of mp3, wav, flac, ogg, m4a, and "m4a" iff no Content-Type rule fires and the URL path ends in .m4a |
| Downloader.AudioFormatIgnoresUrlCase | src/ccaudio/ccaudio_downloader/ccaudio_downloader/pipelines.py:82-92 | "/a/B.WAV" is WAV: the URL test lower-cases |
| Downloader.RecordingIdInjective | src/ccaudio/ccaudio_downloader/ccaudio_downloader/pipelines.py:161 | distinct counters give distinct "audio_%08d" ids |
| Downloader.ItemCustom | src/ccaudio/ccaudio_downloader/ccaudio_downloader/pipelines.py:174-180 | exactly the five provenance keys, each the item field or "" |
| Downloader.DownloadedCut | src/ccaudio/ccaudio_downloader/ccaudio_downloader/pipelines.py:166-196 | Mono on channel 0 iff one channel, else Multi over all; whole recording renamed to the id; no supervisions |
| Downloader.Detected | src/ccaudio/ccaudio_downloader/ccaudio_downloader/pipelines.py:248-277 | one supervision with the detected language; cut custom holds "lang_prob" |
| Downloader.DetectedAsPreprocessVariant | src/ccaudio/ccaudio_downloader/ccaudio_downloader/pipelines.py:248-277 | this copy equals the one in `preprocess/whisper_detect_lang.py` |
| Downloader.FilterLangProb | src/ccaudio/ccaudio_downloader/ccaudio_downloader/pipelines.py:279-281 | AssertionError without custom; a verdict only for a numeric "lang_prob", and then `>= 0.7` |
| Downloader.FilterAfterDetect | src/ccaudio/ccaudio_downloader/ccaudio_downloader/pipelines.py:279-281 | equals the cut-level filter of `preprocess/filter_lang_prob.py`; after detection it accepts iff the probability is at least 0.7 |
| Downloader.AlignmentOf | src/ccaudio/ccaudio_downloader/ccaudio_downloader/pipelines.py:297-303 | one item per segment, in order: raw text, start shifted by the cut start, segment length |
| Downloader.AlignmentOfSnoc | src/ccaudio/ccaudio_downloader/ccaudio_downloader/pipelines.py:297-303 | appending a segment appends its alignment item |
| Downloader.ReadSegments | src/ccaudio/ccaudio_downloader/ccaudio_downloader/pipelines.py:293-303 | the loop builds the concatenation of stripped texts and the alignment of all segments |
| Downloader.Transcribed | src/ccaudio/ccaudio_downloader/ccaudio_downloader/pipelines.py:305-308 | IndexError iff no supervisions; otherwise exactly one supervision, the input's first, with text `StrippedConcat(segs)` and alignment `{"word": AlignmentOf(cut.start, segs)}`, and nothing else on the cut changes |
| Downloader.AlignmentOrdered | src/ccaudio/ccaudio_downloader/ccaudio_downloader/pipelines.py:297-303 | ordered segments inside the cut give alignment items sorted by start, non-overlapping, within the cut |
| Downloader.StrippedConcatIsJoined | src/ccaudio/ccaudio_downloader/ccaudio_downloader/pipelines.py:296 | for trimmed segment texts the per-segment strip is the plain join, and strip leaves it unchanged |
| Downloader.StrippedConcatAgrees | src/ccaudio/ccaudio_downloader/ccaudio_downloader/pipelines.py:296 | for trimmed segment texts both transcript rules agree |
| Downloader.StripTrailingSpace | src/ccaudio/ccaudio_downloader/ccaudio_downloader/pipelines.py:296 | a trimmed word followed by one blank strips back to the word |
| Downloader.TranscriptVariantsDiffer | src/ccaudio/ccaudio_downloader/ccaudio_downloader/pipelines.py:296 | for trimmed words w and v, segments "w " and "v" give w+v here and w+" "+v in the pipeline variant |
| Downloader.TwoWordScenario | src/ccaudio/ccaudio_downloader/ccaudio_downloader/pipelines.py:283-310 | for trimmed words w and v, two segments give the text w+v and word alignments for w at 0.0 and v at 1.2 |
| Downloader.DetectAll | src/ccaudio/ccaudio_downloader/ccaudio_downloader/pipelines.py:236 | every window detected, in order |
| Downloader.Passing | src/ccaudio/ccaudio_downloader/ccaudio_downloader/pipelines.py:236-237 | only windows whose probability is at least 0.7 |
| Downloader.TranscribedEach | src/ccaudio/ccaudio_downloader/ccaudio_downloader/pipelines.py:238 | one transcribed cut per input cut, in order, each with exactly one supervision and otherwise equal to its input |
| Downloader.KeepAcceptedIsPassing | src/ccaudio/ccaudio_downloader/ccaudio_downloader/pipelines.py:236-237 | the gate keeps exactly the detected windows with probability at least 0.7, in order, without raising |
| Downloader.TranscribeAllOk | src/ccaudio/ccaudio_downloader/ccaudio_downloader/pipelines.py:238 | transcribing cuts that all have a supervision never raises |
| Downloader.PreprocessCutIsGatedTranscription | src/ccaudio/ccaudio_downloader/ccaudio_downloader/pipelines.py:222-246 | preprocessing never raises and yields the trimmed pieces of the transcribed windows passing the gate, in window order |
| Downloader.LoadAudio | src/ccaudio/ccaudio_downloader/ccaudio_downloader/pipelines.py:128-158 | the audio is loaded from one of the two temp files; a success leaves no leaked file; only those two can leak |
| Downloader.ItemCuts | src/ccaudio/ccaudio_downloader/ccaudio_downloader/pipelines.py:199-204 | without preprocessing, exactly the downloaded cut named after the counter |
| Downloader.AttemptWrites | src/ccaudio/ccaudio_downloader/ccaudio_downloader/pipelines.py:115-220 | no or empty audio: skipped untouched; without preprocessing, counted with exactly one cut written or not counted with none; with it, a counted item had all its cuts written |
| Downloader.AttemptCleanup | src/ccaudio/ccaudio_downloader/ccaudio_downloader/pipelines.py:135-158 | temp files are removed on every path except a failed write of either temp file; a completed item leaves none |
| Downloader.ConsecutiveIdsStep | src/ccaudio/ccaudio_downloader/ccaudio_downloader/pipelines.py:161-206 | writing the cut named after the counter and then advancing it keeps one cut per count, the i-th named after i |
| Downloader.ConsecutiveIdsFromZero | src/ccaudio/ccaudio_downloader/ccaudio_downloader/pipelines.py:161 | the first written cut is audio_00000000 and the i-th carries i in its eight digits |
| Downloader.ConsecutiveIdsDistinct | src/ccaudio/ccaudio_downloader/ccaudio_downloader/pipelines.py:161 | consecutive recording ids are pairwise distinct |
| Downloader.LhotseSharPipeline.constructor | src/ccaudio/ccaudio_downloader/ccaudio_downloader/pipelines.py:25-38 | no writer, counter 0, no temp files |
| Downloader.LhotseSharPipeline.OpenSpider | src/ccaudio/ccaudio_downloader/ccaudio_downloader/pipelines.py:48-58 | a fresh open writer; counter unchanged; opened at counter 0, the one-cut-per-count naming from audio_00000000 holds |
| Downloader.StartPipeline | src/ccaudio/ccaudio_downloader/ccaudio_downloader/pipelines.py:25-58 | `__init__` then `open_spider` give an open empty writer at counter 0, with the naming invariant established |
| Downloader.LhotseSharPipeline.CloseSpider | src/ccaudio/ccaudio_downloader/ccaudio_downloader/pipelines.py:60-64 | closes the writer if there is one; nothing else changes |
| Downloader.LhotseSharPipeline.WhisperDetectLang | src/ccaudio/ccaudio_downloader/ccaudio_downloader/pipelines.py:248-277 | the same cut, updated in place to `Detected` |
| Downloader.LhotseSharPipeline.WhisperTranscribe | src/ccaudio/ccaudio_downloader/ccaudio_downloader/pipelines.py:283-310 | IndexError and no change without supervisions; otherwise the cut becomes `Transcribed` |
| Downloader.LhotseSharPipeline.LoadFile | src/ccaudio/ccaudio_downloader/ccaudio_downloader/pipelines.py:128-158 | the result is `LoadAudio`'s; the temp files on disk grow by the loaded file or by the leaked ones |
| Downloader.LhotseSharPipeline.WriteCuts | src/ccaudio/ccaudio_downloader/ccaudio_downloader/pipelines.py:199-204 | the writer receives exactly the cuts before the failing write; completed iff none fails |
| Downloader.LhotseSharPipeline.WriteRecording | src/ccaudio/ccaudio_downloader/ccaudio_downloader/pipelines.py:197-206 | cuts are written until a write raises; only a fully written item advances the counter; without preprocessing the one-cut-per-count naming from audio_00000000 is kept |
| Downloader.LhotseSharPipeline.ProcessItem | src/ccaudio/ccaudio_downloader/ccaudio_downloader/pipelines.py:115-220 | returns the item; writer, counter and temp files follow `Attempt`; without preprocessing the one-cut-per-count naming from audio_00000000 is kept |
| CCAudioPipelines.PreprocessCut | src/ccaudio/pipelines.py:133-149 | the preprocessing branch on a live cut equals `Preprocessed` of its value |
| CCAudioPipelines.AttemptWithoutPreprocess | src/ccaudio/pipelines.py:150-154 | returned with exactly the built cut written, or dropped with nothing written; nothing without a writer; missing fields or audio are dropped |
| CCAudioPipelines.PreprocessGate | src/ccaudio/pipelines.py:133-148 | below 0.7 nothing is written; at or above it every transcribed and trimmed cut is; the gate agrees with `filter_lang_prob` |
| CCAudioPipelines.AttemptWithPreprocess | src/ccaudio/pipelines.py:133-154 | a returned item had all its cuts written; a dropped one at most a proper prefix, only when a write raised |
| CCAudioPipelines.CCAudioPipeline.constructor | src/ccaudio/pipelines.py:22-30 | no writer yet |
| CCAudioPipelines.CCAudioPipeline.OpenSpider | src/ccaudio/pipelines.py:39-48 | a fresh open writer |
| CCAudioPipelines.CCAudioPipeline.CloseSpider | src/ccaudio/pipelines.py:50-53 | closes the writer if there is one |
| CCAudioPipelines.CCAudioPipeline.WriteCuts | src/ccaudio/pipelines.py:147-151 | the writer receives the cuts before the failing write; completed iff all were written |
| CCAudioPipelines.CCAudioPipeline.ProcessItem | src/ccaudio/pipelines.py:55-160 | writes follow `Attempt`; a returned item lost `audio_data`; a dropped one (DropItem) is unchanged |
| Ingest.SplitExtShape | src/ccaudio/pipelines.py:69 | root + extension is the path; a non-empty extension is one dotted suffix of the basename |
| Ingest.ExtensionRule | src/ccaudio/pipelines.py:69-79 | the URL extension wins; otherwise .mp3, .wav or .flac from Content-Type, default .mp3 |
| Ingest.TranscodeIsCaseSensitive | src/ccaudio/pipelines.py:81-84 | ".MP3" and ".m4a" are transcoded, ".mp3", ".wav" and ".flac" are not |
| Ingest.TempFileName | src/ccaudio/pipelines.py:59-62 | the URL path's basename, or "<id>.audio" when it is empty; never empty |
| Ingest.Suffix | src/ccaudio/pipelines.py:83 | the suffix ends the name and is empty or starts with '.' |
| Ingest.WithSuffix | src/ccaudio/pipelines.py:83 | the old suffix replaced by the new one, or the new one appended |
| Ingest.LoadFile | src/ccaudio/pipelines.py:58-88 | the step-by-step loading gives `Load`'s recording |
| Ingest.BuildCut | src/ccaudio/pipelines.py:91-129 | ids derive from the item id; Mono on channel 0 iff one channel, else Multi over all; one supervision over the whole recording |
| Ingest.BuildCutWellFormed | src/ccaudio/pipelines.py:91-129 | every built cut satisfies the cut invariants |
| Lhotse.DownmixToMono | src/ccaudio/preprocess/pipeline/convert_audio.py:6-8 | a MonoCut on channel 0 of a one-channel recording; times, supervisions and custom kept |
| Lhotse.ResampleTo | src/ccaudio/preprocess/pipeline/convert_audio.py:12 | the recording is at the new rate; kind, channel, times and supervisions kept; no change at the same rate |
| Lhotse.SetLangProb | src/ccaudio/preprocess/whisper_detect_lang.py:30-33 | "lang_prob" set, every other key kept, or a new one-key dict |
| Lhotse.WrittenPrefix | src/ccaudio/pipelines.py:147-148 | the cuts written before the failing write: a prefix of the right length |
| ScrapyPipelines.ItemCut | src/ccaudio/download/scrapy_pipelines.py:73-117 | cut id `item_id`, "recording_"/"segment_" ids, the item's language; Mono iff one channel; starts at 0 over the whole recording |
| ScrapyPipelines.AttemptWritesAtMostOne | src/ccaudio/download/scrapy_pipelines.py:43-130 | at most one cut written, only to an open writer; returning does not depend on the writer being open |
| ScrapyPipelines.AudioProcessingPipeline.constructor | src/ccaudio/download/scrapy_pipelines.py:16-21 | no writer yet |
| ScrapyPipelines.AudioProcessingPipeline.OpenSpider | src/ccaudio/download/scrapy_pipelines.py:29-36 | a fresh open writer |
| ScrapyPipelines.AudioProcessingPipeline.CloseSpider | src/ccaudio/download/scrapy_pipelines.py:38-41 | closes the writer if there is one |
| ScrapyPipelines.AudioProcessingPipeline.ProcessItem | src/ccaudio/download/scrapy_pipelines.py:43-130 | writes follow `Attempt`; a returned item lost `audio_data` and has status "processed"; a dropped one is unchanged |
| GoodHtml2Audio.SafeUrljoinResult | src/ccaudio/extract_url/goodhtml2audio.py:27-41 | every result is a valid URL: the input itself, or urljoin's result when the input was relative and the base non-empty |
| GoodHtml2Audio.DropQueryIsLeftmostMatch | src/ccaudio/extract_url/goodhtml2audio.py:49 | the query/fragment removal is the leftmost match of `[?#].*$` |
| GoodHtml2Audio.DropQueryPlain | src/ccaudio/extract_url/goodhtml2audio.py:49 | a URL without newline, '?' or '#' is unchanged |
| GoodHtml2Audio.QueryDropped | src/ccaudio/extract_url/goodhtml2audio.py:49 | cleaning `u?q` or `u#q` gives back lower-cased `u` |
| GoodHtml2Audio.QueryIgnored | src/ccaudio/extract_url/goodhtml2audio.py:49 | `u?q` and `u#q` look like audio iff `u` does |
| GoodHtml2Audio.UpperCaseWithQueryAccepted | src/ccaudio/extract_url/goodhtml2audio.py:47-50 | for any u without a newline, `?` or `#` and any query q without a newline, u + ".MP3?" + q is accepted: the test ignores case and the query |
| GoodHtml2Audio.InnerSuffixRejected | src/ccaudio/extract_url/goodhtml2audio.py:47-50 | for any u without a newline, `?` or `#` (such as "a.mp3"), u + ".html" is rejected: only the final suffix counts |
| GoodHtml2Audio.LicenseIsFirstMatch | src/ccaudio/extract_url/goodhtml2audio.py:58-63 | the licence of the first node carrying one, in self-then-ancestors order; "" when none does |
| GoodHtml2Audio.ExtractLicense | src/ccaudio/extract_url/goodhtml2audio.py:58-63 | the loop returns `License` of the tag and its ancestors |
| GoodHtml2Audio.SurroundingText | src/ccaudio/extract_url/goodhtml2audio.py:121-123 | at most `max_len` characters, a prefix of the combined text, all of it when it fits |
| GoodHtml2Audio.TextParts | src/ccaudio/extract_url/goodhtml2audio.py:106-119 | the parts list built step by step equals `SurroundingParts` |
| GoodHtml2Audio.AppendNeighbour | src/ccaudio/extract_url/goodhtml2audio.py:111-114 | a neighbouring text adds its stripped form after the parts so far when it exists and is non-empty, and adds nothing otherwise |
| GoodHtml2Audio.GetSurroundingText | src/ccaudio/extract_url/goodhtml2audio.py:104-123 | equals `SurroundingText` |
| GoodHtml2Audio.SurroundingPartsCases | src/ccaudio/extract_url/goodhtml2audio.py:109-122 | without neighbours the parent text is used; with both, the two stripped texts joined by a space |
| GoodHtml2Audio.PairsSnoc | src/ccaudio/extract_url/goodhtml2audio.py:65-79 | one more call inserts its candidate into the pairs so far |
| GoodHtml2Audio.CollectDistinct | src/ccaudio/extract_url/goodhtml2audio.py:65-79 | the kept URLs are pairwise distinct |
| GoodHtml2Audio.CollectUrls | src/ccaudio/extract_url/goodhtml2audio.py:65-79 | a URL is kept iff some candidate carries it |
| GoodHtml2Audio.CollectFirst | src/ccaudio/extract_url/goodhtml2audio.py:65-79 | each kept pair is the first candidate carrying its URL |
| GoodHtml2Audio.CollectPrefix | src/ccaudio/extract_url/goodhtml2audio.py:65-79 | more candidates only append |
| GoodHtml2Audio.PairsSpec | src/ccaudio/extract_url/goodhtml2audio.py:53-101 | distinct URLs; a URL is returned iff some call resolves to it; it is valid and audio-like with the first such call's description and licence |
| GoodHtml2Audio.PairsPrefix | src/ccaudio/extract_url/goodhtml2audio.py:53-101 | the pairs of a prefix of the calls are a prefix of the pairs |
| GoodHtml2Audio.AddAudioUrl | src/ccaudio/extract_url/goodhtml2audio.py:65-79 | the candidate is appended iff its URL is new; `seen` stays the set of kept URLs |
| GoodHtml2Audio.AddAudioTag | src/ccaudio/extract_url/goodhtml2audio.py:82-91 | one `<audio>` tag adds the calls of its `src` and its `<source>`s |
| GoodHtml2Audio.AddSourceTags | src/ccaudio/extract_url/goodhtml2audio.py:88-91 | the `<source>` loop adds one call per source with a `src`, in order, each with the audio tag's surrounding text as fallback, and the seen set stays the set of recorded URLs |
| GoodHtml2Audio.AddTag | src/ccaudio/extract_url/goodhtml2audio.py:97-99 | one tag adds the calls of its `href` and `src` |
| GoodHtml2Audio.AddAudioTags | src/ccaudio/extract_url/goodhtml2audio.py:82-91 | the `<audio>` loop gives the pairs of all its calls |
| GoodHtml2Audio.AddTags | src/ccaudio/extract_url/goodhtml2audio.py:94-99 | the general-tag loop continues the pairs with its calls |
| GoodHtml2Audio.ExtractAudioUrlPairs | src/ccaudio/extract_url/goodhtml2audio.py:53-101 | the result is `Pairs` of every call in document order |
| Rss2Audio.IsRssFeedIff | src/ccaudio/extract_url/rss2audio.py:13-24 | a feed iff Content-Type contains "xml" or the stripped payload opens with `<?xml`, `<rss` or `<feed` |
| Rss2Audio.ExtractAudioUrlsFromRss | src/ccaudio/extract_url/rss2audio.py:27-61 | the loop returns `Entries` of the items with the channel language |
| Rss2Audio.ReadItem | src/ccaudio/extract_url/rss2audio.py:38-59 | one `<item>` gives the entry `ItemEntry` describes: the enclosure URL, else the media URL, kept only with an audio suffix, and the language "" when absent or empty |
| Rss2Audio.EntriesAppend | src/ccaudio/extract_url/rss2audio.py:36-59 | items contribute independently and in order |
| Rss2Audio.EntriesShape | src/ccaudio/extract_url/rss2audio.py:36-59 | at most one entry per item; each has an audio suffix, the channel language and some item's URL |
| Rss2Audio.EnclosurePreferred | src/ccaudio/extract_url/rss2audio.py:40-46 | a truthy enclosure URL decides; media:content only when there is none |
| Rss2Audio.SuffixExamples | src/ccaudio/extract_url/rss2audio.py:48 | for any u, u + ".mp3" passes while u + ".MP3" and u + ".mp3?x=1" fail: the test is case-sensitive and anchored at the end |
| Url2Html.LangJaBeforeIff | src/ccaudio/extract_url/url2html.py:14 | the scan finds `lang=ja` before any '>' iff such a position exists |
| Url2Html.SearchFromIff | src/ccaudio/extract_url/url2html.py:14-18 | the scan from `i` succeeds iff a match starts at or after `i` |
| Url2Html.IsJapaneseHtmlRawIff | src/ccaudio/extract_url/url2html.py:14-18 | true iff `<html`, then non-'>' characters, then `lang=`, an optional quote and `ja`, ignoring ASCII case |
| Url2Html.MatchesRegionTag | src/ccaudio/extract_url/url2html.py:14 | `lang="ja-JP"` matches |
| Url2Html.MatchesUpperCase | src/ccaudio/extract_url/url2html.py:14 | `<HTML LANG=JA>` matches |
| Url2Html.LangOutsideTagRejected | src/ccaudio/extract_url/url2html.py:14 | a `lang` after the tag's '>' is no match |
| Url2Html.DetectWindow | src/ccaudio/extract_url/url2html.py:25 | a prefix of the payload: exactly its first 2048 bytes, or the whole payload when it is shorter |
| Url2Html.TryDecodeCases | src/ccaudio/extract_url/url2html.py:21-30 | valid UTF-8 decodes as UTF-8; without a guess the fallback is UTF-8; the guess depends only on the first 2048 bytes |
| Url2Html.ProcessWarc | src/ccaudio/extract_url/url2html.py:33-59 | the record loop returns `KeptPages` |
| Url2Html.KeptPagesAppend | src/ccaudio/extract_url/url2html.py:37-59 | the pages kept from two runs of records are those of the first run followed by those of the second |
| Url2Html.KeptPagesComplete | src/ccaudio/extract_url/url2html.py:37-59 | a response record with an HTML content type whose payload decodes to Japanese HTML puts its page in the result, after the pages of earlier records and before those of later ones |
| Url2Html.KeptPagesSpec | src/ccaudio/extract_url/url2html.py:37-59 | at most one page per record; each from an HTML response, its decoded payload, and a Japanese-regex match |
| Cc2Url.DaysBeforeStep | src/ccaudio/extract_url/cc2url.py:23-24 | a year has 365 days, 366 when leap |
| Cc2Url.Week1MondayShape | src/ccaudio/extract_url/cc2url.py:23-24 | week 1 starts on the Monday of the week of 1 January, or the next one from Friday on; the 53-week test in the same terms |
| Cc2Url.Week1MondayStep | src/ccaudio/extract_url/cc2url.py:23-24 | next year's week 1 starts right after this year's last week |
| Cc2Url.Week1MondayMonotone | src/ccaudio/extract_url/cc2url.py:23-24 | a later year's week 1 starts no earlier than the end of an earlier year |
| Cc2Url.IsoMondayOrder | src/ccaudio/extract_url/cc2url.py:46-47 | on valid weeks, Monday order is (year, week) lexicographic order |
| Cc2Url.Week53Examples | src/ccaudio/extract_url/cc2url.py:23-24 | 2020-W53 is accepted, 2021-W53 is not |
| Cc2Url.GetMainWarcPaths | src/ccaudio/extract_url/cc2url.py:18-51 | the loop returns `MainWarcPaths` |
| Cc2Url.AddSnapshotsErr | src/ccaudio/extract_url/cc2url.py:36-51 | an error ends the loop and is the whole result |
| Cc2Url.AddSnapshotSpec | src/ccaudio/extract_url/cc2url.py:38-50 | one snapshot adds its own key with its path and leaves the other entries alone |
| Cc2Url.AddSnapshotsSpec | src/ccaudio/extract_url/cc2url.py:36-51 | the keys are exactly the "YEAR-WW" names of the selected snapshots, each mapped to its `warc.paths.gz` URL |
| Cc2Url.SnapshotKeyDash | src/ccaudio/extract_url/cc2url.py:48 | the key's only '-' follows the year's digits |
| Cc2Url.SnapshotKeyInjective | src/ccaudio/extract_url/cc2url.py:48-50 | distinct (year, week) pairs get distinct keys |
| Cc2Url.StartAfterEndRejected | src/ccaudio/extract_url/cc2url.py:21-29 | a start week after the end week is a ValueError whatever the index |
| Cc2Url.LineUrls | src/ccaudio/extract_url/cc2url.py:59-62 | no more URLs than lines |
| Cc2Url.FetchUrlsFromWarcPath | src/ccaudio/extract_url/cc2url.py:54-66 | the URLs of the listing, or [] when fetching fails |
| Cc2Url.LineUrlsAppend | src/ccaudio/extract_url/cc2url.py:59-62 | the URLs of two runs of lines are those of the first run followed by those of the second, so URLs follow the order of their lines |
| Cc2Url.LineUrlsSpec | src/ccaudio/extract_url/cc2url.py:59-62 | every URL joins a non-empty line and every non-empty line gives its URL |
| Cc2Url.TrailingNewlineIgnored | src/ccaudio/extract_url/cc2url.py:60-62 | a trailing newline adds no URL |
| Json2Parquet.FileGroups | src/ccaudio/extract_url/json2parquet.py:17-20 | ceil(n/100) groups, group g the slice [100g, 100g+100) |
| Json2Parquet.GroupCountIsCeiling | src/ccaudio/extract_url/json2parquet.py:17-20 | the group count is exactly ceil(n/100) |
| Json2Parquet.GroupSizes | src/ccaudio/extract_url/json2parquet.py:13-20 | every group but the last has 100 files, the last 1 to 100 |
| Json2Parquet.GroupsNonEmpty | src/ccaudio/extract_url/json2parquet.py:17-20 | no group is empty |
| Json2Parquet.ConcatFileGroups | src/ccaudio/extract_url/json2parquet.py:17-20 | the groups laid end to end are the input list |
| Json2Parquet.Frames | src/ccaudio/extract_url/json2parquet.py:26-31 | at most one frame per file |
| Json2Parquet.ProcessGroup | src/ccaudio/extract_url/json2parquet.py:23-36 | the loop writes `GroupOutput`: the concatenated readable frames under the group's path, or nothing |
| Json2Parquet.FramesEmptyIff | src/ccaudio/extract_url/json2parquet.py:26-32 | nothing is written iff no file of the group could be read |
| Json2Parquet.FramesSnoc | src/ccaudio/extract_url/json2parquet.py:26-33 | the rows are those of the readable files, in file order |
| Json2Parquet.GroupPathInjective | src/ccaudio/extract_url/json2parquet.py:34 | distinct groups get distinct output paths |
| Json2Parquet.AllOutputs | src/ccaudio/extract_url/json2parquet.py:40-43 | one outcome per group |
| Json2Parquet.AllOutputsSpec | src/ccaudio/extract_url/json2parquet.py:23-43 | group g is written, to its own path, iff a file in [100g, 100g+100) could be read |

## Left out

- I/O:
  - the HTTP requests of cc2url.py, with `requests`, `zlib` and `json.loads` of the index;
  - WARC streaming in url2html.py;
  - `pd.read_json`, `to_parquet` and JSONL output;
  - temp-file writes and deletion beyond the names and the leak bookkeeping;
  - Shar shard rotation;
  - logging and `print`.

  Each appears only as a parameter or an outcome (`listing`, `read`, `Env`, `Decoder`, `failingWrite`).
- Concurrency: the process pool of json2parquet.py is modelled by `AllOutputs` in group order, and `num_workers` and `num_jobs` are left out.
- Floating point: probabilities, durations and offsets are `real`, so rounding is not modelled.
- Aliasing: the cut's `custom` dict and its supervision objects are values here. whisper_detect_lang.py:30-33 and its copy in the downloader pipeline mutate `cut.custom` in place, and any other holder of the same dict or supervision object in Python would see that change. The model builds a new value instead, so that sharing is not captured. Its one visible consequence, in the downloader's window gate, is described below.
- Collaborators: their results are parameters, and nothing about their internals is asserted. They are:
  - Whisper, demucs, pydub and soundfile;
  - lhotse's `Recording.from_file`, `cut_into_windows` and `trim_to_alignments`;
  - chardet;
  - urllib's `urlparse`/`urljoin`;
  - BeautifulSoup's tree walk and the XML parser of rss2audio.py;
  - uuid and temp-file randomness.

  Two lhotse operations are the exception: `Lhotse.DownmixToMono` and `Lhotse.ResampleTo` are assumed library semantics, not derived from any file of this repository. `DownmixToMono` puts the cut on channel 0 with channel ids [0], keeps the supervisions and custom unchanged, and appends a DownmixMono transform. `ResampleTo` sets the recording's sampling rate, appending a Resample transform, and leaves the cut as it is when the rate already matches. PipelineConvertAudio.ConvertedWithLhotse and Preprocess.ConvertAudioWithLhotse hold only under these assumptions.
- Scrapy spiders, items and settings are not part of this model. Nor are src/ccaudio/download/downloader.py, html2goodhtml.py (trafilatura and the quality classifier), the statistics and plotting scripts, tmp.py and load_shar_sample.py.
- src/ccaudio/pipelines.py imports `ccaudio.preprocess.convert_audio` and `ccaudio.preprocess.whisper_transcribe`, modules that are not in the repository:
  - `convert_audio` there is modelled with the rule of src/ccaudio/preprocess/pipeline/convert_audio.py;
  - transcription followed by `trim_to_alignments` is one collaborator.
- Cc2Url.GetMainWarcPaths has these gaps:
  - the snapshot index is given as the list of its `id` strings, so a snapshot without "id" (KeyError) is not modelled;
  - the dict is a `map`, so insertion order is not modelled; a repeated key keeps the same value, so "last wins" is not observable;
  - `int()` is modelled as ASCII digits only, while Python also accepts a sign, surrounding whitespace and underscores.
- Cc2Url.StartAfterEndRejected: the `beg_year < 2013` warning is logging only and is left out.
- Json2Parquet.FileGroups: `sorted(glob.glob(...))` is not modelled. The input list is taken as given, already sorted.
- Case-insensitive matching and `lower()` are ASCII only: `Text.Lower` and `Url2Html.LiteralAt`. In Python's Unicode matching, U+0130, U+0131, U+017F and U+212A also stand for i, i, s and k. None of those letters occurs in `<html`, `lang=`, `ja` or the audio suffixes, so the answers are the same.
- GoodHtml2Audio.LooksLikeAudioUrl: `re.sub(r"[?#].*$", "", url)` is modelled with Python's rules: `.` stops at a newline, and `$` also matches before a final newline. The other newline corners of URLs are not explored.
- Downloader.LhotseSharPipeline.ProcessItem: with preprocessing, an item whose later write raises has its earlier cuts already in the writer and is not counted. The contract states this; it is not treated as an error.
- Downloader.Passing and Downloader.PreprocessCutIsGatedTranscription gate each window on its own language probability. In Python the gate can behave differently:
  - lhotse's `cut_into_windows` makes shallow copies, so every window shares the downloaded cut's one `custom` dict. That dict always exists (pipelines.py:174 and 189).
  - `cutset.map(self.whisper_detect_lang)` runs over all windows before `.filter(self.filter_lang_prob)` (pipelines.py:235-237).
  - Each detection writes `lang_prob` into the shared dict (pipelines.py:272-273). So `filter_lang_prob` reads the last window's probability for every window: either all windows pass or none does, and every written cut carries that one value.
  - The model keeps a separate `custom` per window, so this all-or-nothing gate is not captured.
- Serialization.Serialize: dict keys are modelled as values compared by equality, so Python hashing is not modelled.

## Findings

| source | as written | input that shows it | evidently intended | confidence | as-written member | corrected member |
|---|---|---|---|---|---|---|
| src/ccaudio/preprocess/pipeline/convert_audio.py:15 | `resampled_cut.supervisions = [resampled_cut.supervisions[0]]` raises IndexError on a cut without supervisions | the MonoCut and MultiCut without supervisions built in tests/preprocess/pipeline/test_convert_audio.py:20-26 and 42-48, which expect a MonoCut back | keep at most the first supervision (`supervisions[:1]`), so every cut converts to a MonoCut at 16 kHz | not executed | PipelineConvertAudio.ConvertedRejectsCutWithoutSupervisions | PipelineConvertAudio.ConvertedFirstOnlyCorrect |

The rest of the model keeps the as-written rule only where the two rules provably agree. `CCAudioPipelines.Preprocessed` converts cuts built by `Ingest.BuildCut`, which always carry exactly one supervision (`Ingest.BuildCut` ensures it). On such cuts `PipelineConvertAudio.ConvertedFirstOnlyCorrect` proves the as-written and corrected rules give the same result.
