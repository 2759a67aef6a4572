/**
 * src/ccaudio/ccaudio_downloader/ccaudio_downloader/pipelines.py: `LhotseSharPipeline`,
 * the Scrapy pipeline that stores every downloaded audio file as a cut in a Shar
 * archive, optionally after language identification and transcription.
 */
module Downloader {
  import opened Wrappers
  import opened Text
  import opened Lhotse
  import opened Serialization
  import Preprocess
  import WhisperDetectLang
  import CutLevelFilter = FilterLangProb
  import PipelineWhisperTranscribe

  // ---------------------------------------------------------------------------
  // _get_audio_format

  /** The format implied by the Content-Type, tried in the order mp3, wav, flac, ogg. */
  function FormatFromContentType(contentType: string): Option<string> {
    if Contains(contentType, "audio/mpeg") || Contains(contentType, "audio/mp3") then Some("mp3")
    else if Contains(contentType, "audio/wav") || Contains(contentType, "audio/wave") then Some("wav")
    else if Contains(contentType, "audio/flac") then Some("flac")
    else if Contains(contentType, "audio/ogg") then Some("ogg")
    else None
  }

  /** The format implied by the lower-cased URL path's suffix. */
  function FormatFromPath(path: string): Option<string> {
    var p := Lower(path);
    if EndsWith(p, ".mp3") then Some("mp3")
    else if EndsWith(p, ".wav") then Some("wav")
    else if EndsWith(p, ".flac") then Some("flac")
    else if EndsWith(p, ".ogg") then Some("ogg")
    else if EndsWith(p, ".m4a") then Some("m4a")
    else None
  }

  /** `_get_audio_format(item)`: `path` is the path component of the item's audio URL. */
  function AudioFormat(contentType: string, path: string): string {
    match FormatFromContentType(contentType)
    case Some(f) => f
    case None => FormatFromPath(path).GetOr("mp3")
  }

  /**
   * Content-Type wins over the URL whatever the path is: its rules fire in the order
   * mp3, wav, flac, ogg, and the URL decides only when none fires.
   */
  lemma AudioFormatPrecedence(contentType: string, path: string)
    ensures FormatFromContentType(contentType).Some? ==>
      AudioFormat(contentType, path) == FormatFromContentType(contentType).value
    ensures Contains(contentType, "audio/mpeg") || Contains(contentType, "audio/mp3") ==>
      AudioFormat(contentType, path) == "mp3"
    ensures (Contains(contentType, "audio/wav") || Contains(contentType, "audio/wave"))
            && !Contains(contentType, "audio/mpeg") && !Contains(contentType, "audio/mp3") ==>
      AudioFormat(contentType, path) == "wav"
    ensures Contains(contentType, "audio/flac")
            && !Contains(contentType, "audio/mpeg") && !Contains(contentType, "audio/mp3")
            && !Contains(contentType, "audio/wav") && !Contains(contentType, "audio/wave") ==>
      AudioFormat(contentType, path) == "flac"
    ensures Contains(contentType, "audio/ogg")
            && !Contains(contentType, "audio/mpeg") && !Contains(contentType, "audio/mp3")
            && !Contains(contentType, "audio/wav") && !Contains(contentType, "audio/wave")
            && !Contains(contentType, "audio/flac") ==>
      AudioFormat(contentType, path) == "ogg"
    ensures FormatFromContentType(contentType).None? ==> AudioFormat(contentType, path) == AudioFormat("", path)
  {
    assert !Contains("", "audio/mpeg") && !Contains("", "audio/mp3") && !Contains("", "audio/wav");
    assert !Contains("", "audio/wave") && !Contains("", "audio/flac") && !Contains("", "audio/ogg");
  }

  /** The result is always one of five formats, and "m4a" only ever comes from the URL. */
  lemma AudioFormatRange(contentType: string, path: string)
    ensures AudioFormat(contentType, path) in {"mp3", "wav", "flac", "ogg", "m4a"}
    ensures AudioFormat(contentType, path) == "m4a" <==>
      FormatFromContentType(contentType).None? && FormatFromPath(path) == Some("m4a")
  {
  }

  /** The URL check ignores case: "/a/B.WAV" is a WAV file when the Content-Type says nothing. */
  lemma AudioFormatIgnoresUrlCase()
    ensures AudioFormat("", "/a/B.WAV") == "wav"
  {
    var p := Lower("/a/B.WAV");
    assert p == "/a/b.wav";
    assert !EndsWith(p, ".mp3") by { assert p[|p| - 4..] != ".mp3" by { assert p[|p| - 3] == 'w'; } }
    assert EndsWith(p, ".wav");
    assert !Contains("", "audio/mpeg") && !Contains("", "audio/mp3") && !Contains("", "audio/wav");
    assert !Contains("", "audio/wave") && !Contains("", "audio/flac") && !Contains("", "audio/ogg");
  }

  // ---------------------------------------------------------------------------
  // The cut built from a downloaded item

  /** `f"audio_{self.item_count:08d}"`. */
  function RecordingId(count: nat): string {
    "audio_" + ZeroPad(count, 8)
  }

  /** Different counter values give different recording ids. */
  lemma RecordingIdInjective(m: nat, n: nat)
    requires RecordingId(m) == RecordingId(n)
    ensures m == n
  {
    var a, b := ZeroPad(m, 8), ZeroPad(n, 8);
    assert a == RecordingId(m)[6..];
    assert b == RecordingId(n)[6..];
    ZeroPadInjective(m, n, 8);
  }

  /** `adapter.get(key, "")` on the item's string fields. */
  function ItemField(fields: map<string, string>, key: string): string {
    if key in fields then fields[key] else ""
  }

  /** The provenance map of the downloaded cut: five item fields, "" when missing. */
  function ItemCustom(fields: map<string, string>): (c: Custom)
    ensures c.Keys == {"audio_url", "title", "description", "page_url", "language"}
    ensures forall k :: k in c ==> c[k] == Str(ItemField(fields, k))
  {
    map["audio_url" := Str(ItemField(fields, "audio_url")), "title" := Str(ItemField(fields, "title")),
        "description" := Str(ItemField(fields, "description")), "page_url" := Str(ItemField(fields, "page_url")),
        "language" := Str(ItemField(fields, "language"))]
  }

  /**
   * The MonoCut (one channel, channel 0) or MultiCut (all channels) over the whole
   * decoded recording, renamed to `recordingId`; it has no supervisions.
   */
  function DownloadedCut(recordingId: string, rec: Recording, custom: Custom): (c: CutManifest)
    ensures c.id == recordingId && c.recording == rec.(id := recordingId)
    ensures c.IsMono() <==> |rec.channelIds| == 1
    ensures c.IsMono() ==> c.channel == Single(0)
    ensures !c.IsMono() ==> c.channel == Several(rec.channelIds)
    ensures c.start == 0.0 && c.duration == rec.duration && c.supervisions == [] && c.custom == Some(custom)
  {
    var r := rec.(id := recordingId);
    CutManifest(recordingId, 0.0, r.duration,
                if |r.channelIds| == 1 then Single(0) else Several(r.channelIds), r, [], Some(custom))
  }

  // ---------------------------------------------------------------------------
  // whisper_detect_lang, filter_lang_prob, whisper_transcribe (the class's own copies)

  /** The cut after this class's `whisper_detect_lang` with the detector's answer. */
  function Detected(m: CutManifest, lang: string, langProb: real): (r: CutManifest)
    ensures |r.supervisions| == 1 && r.supervisions[0].language == Some(lang)
    ensures r.custom.Some? && "lang_prob" in r.custom.value && r.custom.value["lang_prob"] == Number(langProb)
  {
    m.(supervisions := [NewSupervision("segment_" + m.id, m.recording.id, m.start, m.duration, Single(0), Some(lang))],
       custom := Some(SetLangProb(m.custom, langProb)))
  }

  /** This class's copy agrees with src/ccaudio/preprocess/whisper_detect_lang.py. */
  lemma DetectedAsPreprocessVariant(m: CutManifest, lang: string, langProb: real)
    ensures Detected(m, lang, langProb) == WhisperDetectLang.Detected(m, lang, langProb)
  {
  }

  /** `filter_lang_prob`: the gate on the cut-level "lang_prob". */
  function FilterLangProb(m: CutManifest): (r: Result<bool, string>)
    ensures r.Ok? ==> m.custom.Some? && "lang_prob" in m.custom.value && m.custom.value["lang_prob"].Number?
    ensures r.Ok? ==> (r.value <==> m.custom.value["lang_prob"].x >= 0.7)
    ensures m.custom.None? ==> r == Err("AssertionError")
  {
    if m.custom.None? then Err("AssertionError")
    else if "lang_prob" !in m.custom.value then Err("KeyError")
    else match m.custom.value["lang_prob"]
      case Number(p) => Ok(p >= LangProbThreshold)
      case Str(_) => Err("TypeError")
  }

  /** This class's gate agrees with src/ccaudio/preprocess/filter_lang_prob.py, and after detection it never fails. */
  lemma FilterAfterDetect(m: CutManifest, lang: string, langProb: real)
    ensures FilterLangProb(m) == CutLevelFilter.FilterLangProb(m)
    ensures FilterLangProb(Detected(m, lang, langProb)) == Ok(langProb >= 0.7)
  {
  }

  /** The transcript of this variant: each segment's text stripped, then concatenated. */
  function StrippedConcat(segs: seq<Segment>): string {
    if segs == [] then "" else StrippedConcat(segs[..|segs| - 1]) + Strip(segs[|segs| - 1].text)
  }

  /** The word alignment item of one segment: its raw text, its start shifted by the cut's start, its length. */
  function ItemOf(cutStart: real, s: Segment): AlignmentItem {
    AlignmentItem(s.text, cutStart + s.start, s.end - s.start)
  }

  /**
   * One alignment item per segment, in order: the raw text, the start shifted by the
   * cut's start, and the segment's length.
   */
  function AlignmentOf(cutStart: real, segs: seq<Segment>): (items: seq<AlignmentItem>)
    ensures |items| == |segs|
    ensures forall i :: 0 <= i < |segs| ==>
      items[i].symbol == segs[i].text && items[i].start == cutStart + segs[i].start
      && items[i].duration == segs[i].end - segs[i].start
  {
    if segs == [] then []
    else
      var s := segs[|segs| - 1];
      AlignmentOf(cutStart, segs[..|segs| - 1]) + [ItemOf(cutStart, s)]
  }

  /** Appending a segment appends its alignment item. */
  lemma AlignmentOfSnoc(cutStart: real, segs: seq<Segment>, s: Segment)
    ensures AlignmentOf(cutStart, segs + [s]) == AlignmentOf(cutStart, segs) + [ItemOf(cutStart, s)]
  {
    assert (segs + [s])[..|segs|] == segs;
  }

  /**
   * The loop of `whisper_transcribe`: each recognised segment is serialised to a
   * dictionary and read back; its stripped text is appended to the transcript and its
   * word alignment item, shifted by the cut's start, to the alignment.
   */
  method ReadSegments(cutStart: real, segments: seq<Segment>) returns (predText: string, items: seq<AlignmentItem>)
    ensures predText == StrippedConcat(segments) && items == AlignmentOf(cutStart, segments)
  {
    predText := "";
    items := [];
    for i := 0 to |segments|
      invariant predText == StrippedConcat(segments[..i])
      invariant items == AlignmentOf(cutStart, segments[..i])
    {
      var seg := Serialize(SegmentValue(segments[i]));
      SegmentRoundTrip(segments[i]);
      var read := SegmentFromDict(seg.entries).value;
      assert read == segments[i];
      ReadSegmentsStep(cutStart, segments, i);
      predText := predText + Strip(read.text);
      items := items + [ItemOf(cutStart, read)];
    }
    assert segments[..|segments|] == segments;
  }

  /** One more segment extends the transcript by its stripped text and the alignment by its item. */
  lemma ReadSegmentsStep(cutStart: real, segments: seq<Segment>, i: nat)
    requires i < |segments|
    ensures StrippedConcat(segments[..i + 1]) == StrippedConcat(segments[..i]) + Strip(segments[i].text)
    ensures AlignmentOf(cutStart, segments[..i + 1]) ==
      AlignmentOf(cutStart, segments[..i]) + [ItemOf(cutStart, segments[i])]
  {
    assert segments[..i + 1] == segments[..i] + [segments[i]];
    assert segments[..i + 1][..i] == segments[..i];
    AlignmentOfSnoc(cutStart, segments[..i], segments[i]);
  }

  /** The cut after this class's `whisper_transcribe`: IndexError without a first supervision. */
  function Transcribed(m: CutManifest, segs: seq<Segment>): (r: Result<CutManifest, string>)
    ensures r.Err? <==> m.supervisions == []
    ensures r.Ok? ==> |r.value.supervisions| == 1 && r.value.(supervisions := m.supervisions) == m
    ensures r.Ok? ==> r.value.supervisions[0] == m.supervisions[0].(text := Some(StrippedConcat(segs)),
                                                                  alignment := Some(map["word" := AlignmentOf(m.start, segs)]))
  {
    if m.supervisions == [] then Err("IndexError")
    else Ok(m.(supervisions := [m.supervisions[0].(text := Some(StrippedConcat(segs)),
                                                   alignment := Some(map["word" := AlignmentOf(m.start, segs)]))]))
  }

  /** Segments in order, each non-empty in time and none overlapping the next. */
  predicate OrderedSegments(segs: seq<Segment>) {
    (forall i :: 0 <= i < |segs| ==> 0.0 <= segs[i].start <= segs[i].end)
    && forall i :: 0 <= i < |segs| - 1 ==> segs[i].end <= segs[i + 1].start
  }

  /**
   * Ordered segments inside the cut give alignment items sorted by start, each ending
   * no later than the next starts, all inside [cut.start, cut.start + cut.duration].
   */
  lemma AlignmentOrdered(cutStart: real, cutDuration: real, segs: seq<Segment>)
    requires OrderedSegments(segs)
    requires forall i :: 0 <= i < |segs| ==> segs[i].end <= cutDuration
    ensures var items := AlignmentOf(cutStart, segs);
      (forall i :: 0 <= i < |items| - 1 ==> items[i].start + items[i].duration <= items[i + 1].start)
      && (forall i :: 0 <= i < |items| ==> cutStart <= items[i].start && items[i].duration >= 0.0
                                           && items[i].start + items[i].duration <= cutStart + cutDuration)
  {
  }

  /** Segment texts that are already trimmed. */
  predicate TrimmedTexts(segs: seq<Segment>) {
    forall i :: 0 <= i < |segs| ==> Strip(segs[i].text) == segs[i].text
  }

  lemma {:induction false} StrippedConcatIsJoined(segs: seq<Segment>)
    requires TrimmedTexts(segs)
    ensures StrippedConcat(segs) == PipelineWhisperTranscribe.JoinedTexts(segs)
    ensures Strip(StrippedConcat(segs)) == StrippedConcat(segs)
  {
    if segs == [] {
      StripFixedIff("");
    } else {
      var init, last := segs[..|segs| - 1], segs[|segs| - 1].text;
      assert TrimmedTexts(init) by {
        forall i | 0 <= i < |init| ensures Strip(init[i].text) == init[i].text {
          assert init[i] == segs[i];
        }
      }
      StrippedConcatIsJoined(init);
      assert Strip(last) == last;
      StripFixedConcat(StrippedConcat(init), last);
    }
  }

  /** When the recogniser returns already-trimmed texts, the two transcript rules agree. */
  lemma StrippedConcatAgrees(segs: seq<Segment>)
    requires TrimmedTexts(segs)
    ensures StrippedConcat(segs) == PipelineWhisperTranscribe.Transcript(segs)
  {
    StrippedConcatIsJoined(segs);
  }

  /** One trailing blank is stripped from a word. */
  lemma StripTrailingSpace(w: string)
    requires w != [] && !IsSpace(w[0]) && !IsSpace(w[|w| - 1])
    ensures Strip(w + " ") == w
  {
    var s := w + " ";
    LStripNone(s, IsSpace);
    assert SkipSpaceBack(s, IsSpace, |s|) == |w|;
    assert s[..|w|] == w;
  }

  /**
   * Whitespace at segment boundaries is where the two variants differ: "w " and "v"
   * give "wv" here and "w v" in the pipeline variant (for instance "helloworld" and
   * "hello world").
   */
  lemma TranscriptVariantsDiffer(w: string, v: string)
    requires w != [] && !IsSpace(w[0]) && !IsSpace(w[|w| - 1])
    requires v != [] && !IsSpace(v[0]) && !IsSpace(v[|v| - 1])
    ensures StrippedConcat([Segment(w + " ", 0.0, 1.0), Segment(v, 1.2, 2.0)]) == w + v
    ensures PipelineWhisperTranscribe.Transcript([Segment(w + " ", 0.0, 1.0), Segment(v, 1.2, 2.0)]) == w + " " + v
  {
    StrippedConcatTwo(Segment(w + " ", 0.0, 1.0), Segment(v, 1.2, 2.0));
    StripTrailingSpace(w);
    StripOfTrimmed(v);
    PipelineWhisperTranscribe.TranscriptKeepsInnerSpace(w, v);
  }

  /** The transcript of two segments: both texts stripped, then concatenated. */
  lemma StrippedConcatTwo(s1: Segment, s2: Segment)
    ensures StrippedConcat([s1, s2]) == Strip(s1.text) + Strip(s2.text)
  {
    assert [s1, s2][..1] == [s1];
    assert [s1][..0] == [];
    assert StrippedConcat([s1]) == Strip(s1.text);
  }

  /**
   * Two recognised words `w` (0.0-1.0) and `v` (1.2-2.0) on a cut starting at 0 give
   * the transcript `w + v` (for instance "helloworld") and two word alignments,
   * `w` at 0.0 and `v` at 1.2.
   */
  lemma TwoWordScenario(m: CutManifest, w: string, v: string)
    requires m.supervisions != [] && m.start == 0.0
    requires w != [] && !IsSpace(w[0]) && !IsSpace(w[|w| - 1])
    requires v != [] && !IsSpace(v[0]) && !IsSpace(v[|v| - 1])
    ensures var r := Transcribed(m, [Segment(w, 0.0, 1.0), Segment(v, 1.2, 2.0)]).value;
      var s := r.supervisions[0];
      s.text == Some(w + v) && s.alignment.Some? && "word" in s.alignment.value
      && |s.alignment.value["word"]| == 2
      && s.alignment.value["word"][0].start == 0.0 && s.alignment.value["word"][1].start == 1.2
      && s.alignment.value["word"][0].symbol == w && s.alignment.value["word"][1].symbol == v
  {
    StrippedConcatTwo(Segment(w, 0.0, 1.0), Segment(v, 1.2, 2.0));
    StripOfTrimmed(w);
    StripOfTrimmed(v);
  }

  // ---------------------------------------------------------------------------
  // preprocess_cut

  /** The audio collaborators `preprocess_cut` relies on (lhotse operations and the Whisper model). */
  datatype Collaborators = Collaborators(
    toMono: CutManifest -> CutManifest,          // cut.to_mono(mono_downmix=True)
    resample: (CutManifest, nat) -> CutManifest, // cut.resample(sr)
    windows: CutManifest -> seq<CutManifest>,    // cut.cut_into_windows(duration=30)
    detect: CutManifest -> (string, real),       // model.detect_language on the cut's audio
    recognise: CutManifest -> seq<Segment>,      // model.transcribe on the cut's audio and language hint
    trim: CutManifest -> seq<CutManifest>)       // trim_to_alignments(type="word", ...) of one cut

  /** `cutset.map(self.whisper_detect_lang)`. */
  function DetectAll(cuts: seq<CutManifest>, detect: CutManifest -> (string, real)): (r: seq<CutManifest>)
    ensures |r| == |cuts|
    ensures forall i :: 0 <= i < |cuts| ==> r[i] == Detected(cuts[i], detect(cuts[i]).0, detect(cuts[i]).1)
  {
    seq(|cuts|, i requires 0 <= i < |cuts| => Detected(cuts[i], detect(cuts[i]).0, detect(cuts[i]).1))
  }

  /** `.filter(self.filter_lang_prob)`: the first failing check raises. */
  function KeepAccepted(cuts: seq<CutManifest>): Result<seq<CutManifest>, string> {
    if cuts == [] then Ok([])
    else match FilterLangProb(cuts[0])
      case Err(e) => Err(e)
      case Ok(keep) =>
        match KeepAccepted(cuts[1..])
        case Err(e) => Err(e)
        case Ok(rest) => Ok(if keep then [cuts[0]] + rest else rest)
  }

  /** `.map(self.whisper_transcribe)`: the first failing cut raises. */
  function TranscribeAll(cuts: seq<CutManifest>, recognise: CutManifest -> seq<Segment>): Result<seq<CutManifest>, string> {
    if cuts == [] then Ok([])
    else match Transcribed(cuts[0], recognise(cuts[0]))
      case Err(e) => Err(e)
      case Ok(c) =>
        match TranscribeAll(cuts[1..], recognise)
        case Err(e) => Err(e)
        case Ok(rest) => Ok([c] + rest)
  }

  /** `.trim_to_alignments(...)`: the pieces of every cut, in order. */
  function TrimAll(cuts: seq<CutManifest>, trim: CutManifest -> seq<CutManifest>): seq<CutManifest> {
    if cuts == [] then [] else trim(cuts[0]) + TrimAll(cuts[1..], trim)
  }

  /** `preprocess_cut(cut)`: mono at 16 kHz, 30-second windows, detect, gate, transcribe, trim. */
  function PreprocessCut(m: CutManifest, co: Collaborators): Result<seq<CutManifest>, string> {
    match Preprocess.ConvertAudio(m, 16000, co.toMono, co.resample)
    case Err(e) => Err(e)
    case Ok(mono) =>
      match KeepAccepted(DetectAll(co.windows(mono), co.detect))
      case Err(e) => Err(e)
      case Ok(kept) =>
        match TranscribeAll(kept, co.recognise)
        case Err(e) => Err(e)
        case Ok(done) => Ok(TrimAll(done, co.trim))
  }

  /** The windows whose detected probability passes the gate, in order. */
  function Passing(windows: seq<CutManifest>, detect: CutManifest -> (string, real)): (r: seq<CutManifest>)
    ensures forall w :: w in r ==> w in windows && detect(w).1 >= 0.7
  {
    if windows == [] then []
    else if detect(windows[0]).1 >= 0.7 then [windows[0]] + Passing(windows[1..], detect)
    else Passing(windows[1..], detect)
  }

  /** Every cut transcribed, for cuts that all have a first supervision. */
  function TranscribedEach(cuts: seq<CutManifest>, recognise: CutManifest -> seq<Segment>): (r: seq<CutManifest>)
    requires forall i :: 0 <= i < |cuts| ==> cuts[i].supervisions != []
    ensures |r| == |cuts|
    ensures forall i :: 0 <= i < |r| ==> |r[i].supervisions| == 1 && r[i].(supervisions := cuts[i].supervisions) == cuts[i]
  {
    if cuts == [] then []
    else [Transcribed(cuts[0], recognise(cuts[0])).value] + TranscribedEach(cuts[1..], recognise)
  }

  /** Detecting a non-empty run: the first cut detected, then the rest. */
  lemma DetectAllCons(cuts: seq<CutManifest>, detect: CutManifest -> (string, real))
    requires cuts != []
    ensures DetectAll(cuts, detect) ==
      [Detected(cuts[0], detect(cuts[0]).0, detect(cuts[0]).1)] + DetectAll(cuts[1..], detect)
  {
    var d, rest := DetectAll(cuts, detect), DetectAll(cuts[1..], detect);
    assert d == [d[0]] + d[1..];
    assert d[1..] == rest;
  }

  /** The gate keeps exactly the detected windows whose probability is at least 0.7. */
  lemma {:induction false} KeepAcceptedIsPassing(windows: seq<CutManifest>, detect: CutManifest -> (string, real))
    ensures KeepAccepted(DetectAll(windows, detect)) == Ok(DetectAll(Passing(windows, detect), detect))
  {
    if windows == [] {
      assert DetectAll(windows, detect) == [];
    } else {
      var w, ws := windows[0], windows[1..];
      var d0 := Detected(w, detect(w).0, detect(w).1);
      DetectAllCons(windows, detect);
      assert ([d0] + DetectAll(ws, detect))[1..] == DetectAll(ws, detect);
      KeepAcceptedIsPassing(ws, detect);
      FilterAfterDetect(w, detect(w).0, detect(w).1);
      if detect(w).1 >= 0.7 {
        var ps := Passing(windows, detect);
        assert ps == [w] + Passing(ws, detect);
        DetectAllCons(ps, detect);
        assert ps[1..] == Passing(ws, detect);
      } else {
        assert Passing(windows, detect) == Passing(ws, detect);
      }
    }
  }

  /** Transcribing cuts that all have a first supervision never raises. */
  lemma {:induction false} TranscribeAllOk(cuts: seq<CutManifest>, recognise: CutManifest -> seq<Segment>)
    requires forall i :: 0 <= i < |cuts| ==> cuts[i].supervisions != []
    ensures TranscribeAll(cuts, recognise) == Ok(TranscribedEach(cuts, recognise))
  {
    if cuts != [] {
      TranscribeAllOk(cuts[1..], recognise);
    }
  }

  /**
   * With lhotse's downmix and resample, preprocessing never raises, and what it yields
   * is exactly the trimmed pieces of the transcribed windows whose language probability
   * is at least 0.7, in window order.
   */
  lemma PreprocessCutIsGatedTranscription(m: CutManifest, co: Collaborators)
    requires co.toMono == DownmixToMono && co.resample == ResampleTo
    ensures var mono := Preprocess.ConvertAudio(m, 16000, DownmixToMono, ResampleTo).value;
      var passing := DetectAll(Passing(co.windows(mono), co.detect), co.detect);
      (forall i :: 0 <= i < |passing| ==> passing[i].supervisions != [])
      && PreprocessCut(m, co) == Ok(TrimAll(TranscribedEach(passing, co.recognise), co.trim))
  {
    Preprocess.ConvertAudioWithLhotse(m, 16000);
    var mono := Preprocess.ConvertAudio(m, 16000, DownmixToMono, ResampleTo).value;
    KeepAcceptedIsPassing(co.windows(mono), co.detect);
    var passing := DetectAll(Passing(co.windows(mono), co.detect), co.detect);
    TranscribeAllOk(passing, co.recognise);
  }

  // ---------------------------------------------------------------------------
  // process_item

  /**
   * The outcomes of the calls `process_item` makes that this model does not contain:
   * the random part of the two temp-file names, whether writing either temp file
   * raises, soundfile/lhotse decoding of a file (None when it raises), pydub conversion
   * to WAV (None when it raises), and which `writer.write` call raises, if any.
   */
  datatype Env = Env(
    tmpStem: string,
    wavStem: string,
    tmpWriteFails: bool,
    wavWriteFails: bool,
    decode: (string, seq<byte>) -> Option<Recording>,
    convert: (seq<byte>, string) -> Option<seq<byte>>,
    failingWrite: Option<nat>)

  /** What one call of `process_item` does: cuts handed to the writer, whether it completed (counted), temp files left on disk. */
  datatype Outcome = Outcome(writes: seq<CutManifest>, completed: bool, leaked: set<string>)

  /** The format of an item, from its Content-Type and its URL's path. */
  function ItemFormat(fields: map<string, string>, path: string -> string): string {
    AudioFormat(ItemField(fields, "content_type"), path(ItemField(fields, "audio_url")))
  }

  function TmpName(env: Env, format: string): string {
    env.tmpStem + "." + format
  }

  function WavName(env: Env): string {
    env.wavStem + ".wav"
  }

  /**
   * The audio as `process_item` loads it: the decoded recording (None when loading
   * fails), the temp file that holds it, and the temp files left on disk when it fails.
   */
  datatype Loaded = Loaded(recording: Option<Recording>, tmpPath: string, leaked: set<string>)
  /**
   * Writing the bytes to a temp file and decoding it; when decoding raises, converting
   * the bytes to WAV with pydub, writing that to a second temp file and decoding it.
   * A failed write of either temp file leaves it behind.
   */
  function LoadAudio(data: seq<byte>, format: string, env: Env): (l: Loaded)
    ensures l.tmpPath in {TmpName(env, format), WavName(env)}
    ensures l.recording.Some? ==> l.leaked == {}
    ensures l.leaked <= {TmpName(env, format), WavName(env)}
  {
    var tmp := TmpName(env, format);
    if env.tmpWriteFails then Loaded(None, tmp, {tmp})
    else
      var native := env.decode(tmp, data);
      if native.Some? then Loaded(native, tmp, {})
      else
        var wav := env.convert(data, format);
        if wav.None? then Loaded(None, tmp, {})
        else if env.wavWriteFails then Loaded(None, WavName(env), {WavName(env)})
        else Loaded(env.decode(WavName(env), wav.value), WavName(env), {})
  }

  /**
   * The cuts `process_item` writes for a loaded recording: the downloaded cut itself,
   * or what `preprocess_cut` makes of it.
   */
  function ItemCuts(count: nat, preprocess: bool, rec: Recording, fields: map<string, string>, co: Collaborators): (r: Result<seq<CutManifest>, string>)
    ensures !preprocess ==> r == Ok([DownloadedCut(RecordingId(count), rec, ItemCustom(fields))])
  {
    var cut := DownloadedCut(RecordingId(count), rec, ItemCustom(fields));
    if preprocess then PreprocessCut(cut, co) else Ok([cut])
  }


  /** `process_item(item)` from the state (`count`, whether a writer is open, `preprocess`). */
  function Attempt(count: nat, writerOpen: bool, preprocess: bool, fields: map<string, string>,
                   audio: Option<seq<byte>>, path: string -> string, env: Env, co: Collaborators): Outcome
  {
    if audio.None? || audio.value == [] then Outcome([], false, {})
    else
      var loaded := LoadAudio(audio.value, ItemFormat(fields, path), env);
      if loaded.recording.None? then Outcome([], false, loaded.leaked)
      else if !writerOpen then Outcome([], false, {})
      else
        var cuts := ItemCuts(count, preprocess, loaded.recording.value, fields, co);
        if cuts.Err? then Outcome([], false, {})
        else
          var completed := !(env.failingWrite.Some? && env.failingWrite.value < |cuts.value|);
          Outcome(WrittenPrefix(cuts.value, env.failingWrite), completed, {})
  }

  /**
   * An item without audio is skipped untouched. Without preprocessing, an item is
   * either counted with exactly one cut written, named after the current counter, or
   * not counted with nothing written; with it, a counted item has all its cuts written.
   */
  lemma AttemptWrites(count: nat, writerOpen: bool, preprocess: bool, fields: map<string, string>,
                      audio: Option<seq<byte>>, path: string -> string, env: Env, co: Collaborators)
    ensures var o := Attempt(count, writerOpen, preprocess, fields, audio, path, env, co);
      && (audio.None? || audio == Some([]) ==> o == Outcome([], false, {}))
      && (o.completed ==> writerOpen && audio.Some? && audio.value != [])
      && (!preprocess ==> (o.completed <==> |o.writes| == 1) && |o.writes| <= 1)
      && (!preprocess && o.completed ==>
            o.writes[0].id == RecordingId(count) && o.writes[0].recording.id == RecordingId(count)
            && o.writes[0].custom == Some(ItemCustom(fields)))
      && (preprocess && o.completed ==> var rec := if env.decode(TmpName(env, ItemFormat(fields, path)), audio.value).Some?
                                                  then env.decode(TmpName(env, ItemFormat(fields, path)), audio.value)
                                                  else env.decode(WavName(env), env.convert(audio.value, ItemFormat(fields, path)).value);
                                        PreprocessCut(DownloadedCut(RecordingId(count), rec.value, ItemCustom(fields)), co) == Ok(o.writes))
  {
    var o := Attempt(count, writerOpen, preprocess, fields, audio, path, env, co);
    if audio.Some? && audio.value != [] {
      var format := ItemFormat(fields, path);
      var loaded := LoadAudio(audio.value, format, env);
      if loaded.recording.Some? && writerOpen {
        var cuts := ItemCuts(count, preprocess, loaded.recording.value, fields, co);
        if cuts.Ok? {
          var completed := !(env.failingWrite.Some? && env.failingWrite.value < |cuts.value|);
          assert o == Outcome(WrittenPrefix(cuts.value, env.failingWrite), completed, {});
          if preprocess && completed {
            assert o.writes == cuts.value;
            assert loaded.recording == if env.decode(TmpName(env, format), audio.value).Some?
                                       then env.decode(TmpName(env, format), audio.value)
                                       else env.decode(WavName(env), env.convert(audio.value, format).value);
          }
        } else {
          assert o == Outcome([], false, {});
        }
      } else {
        assert !o.completed && o.writes == [];
      }
    } else {
      assert o == Outcome([], false, {});
    }
  }

  /**
   * Temp files are removed on every path except two: when writing the first temp file
   * raises (it was created but `tmp_path` is not yet bound), and when writing the WAV
   * temp file raises (`tmp_path` still names the deleted first file). A completed item
   * never leaves a file behind.
   */
  lemma AttemptCleanup(count: nat, writerOpen: bool, preprocess: bool, fields: map<string, string>,
                       audio: Option<seq<byte>>, path: string -> string, env: Env, co: Collaborators)
    ensures var o := Attempt(count, writerOpen, preprocess, fields, audio, path, env, co);
      var hasAudio := audio.Some? && audio.value != [];
      && o.leaked <= {TmpName(env, ItemFormat(fields, path)), WavName(env)}
      && (o.completed ==> o.leaked == {})
      && (o.leaked != {} <==>
            hasAudio && (env.tmpWriteFails
                         || (env.decode(TmpName(env, ItemFormat(fields, path)), audio.value).None?
                             && env.convert(audio.value, ItemFormat(fields, path)).Some? && env.wavWriteFails)))
  {
  }

  /**
   * One written cut per counted item, the i-th named after counter value i: the ids
   * are audio_00000000, audio_00000001, ... up to just below `count`.
   */
  predicate ConsecutiveIds(written: seq<CutManifest>, count: nat) {
    |written| == count
    && forall i :: 0 <= i < |written| ==> written[i].id == RecordingId(i)
  }

  /** Ids named `name(i)` for i = 0, 1, ..., `count` - 1. */
  predicate NamedConsecutively(written: seq<CutManifest>, count: nat, name: nat -> string) {
    |written| == count
    && forall i :: 0 <= i < |written| ==> written[i].id == name(i)
  }

  lemma NamedConsecutivelyStep(written: seq<CutManifest>, count: nat, c: CutManifest, name: nat -> string)
    requires NamedConsecutively(written, count, name) && c.id == name(count)
    ensures NamedConsecutively(written + [c], count + 1, name)
  {
    var w := written + [c];
    forall i | 0 <= i < |w| ensures w[i].id == name(i) {
      if i < |written| {
        assert w[i] == written[i];
      } else {
        assert w[i] == c;
      }
    }
  }

  /** Writing the cut named after the counter and then advancing the counter keeps the ids consecutive. */
  lemma ConsecutiveIdsStep(written: seq<CutManifest>, count: nat, c: CutManifest)
    requires ConsecutiveIds(written, count) && c.id == RecordingId(count)
    ensures ConsecutiveIds(written + [c], count + 1)
  {
    assert NamedConsecutively(written, count, RecordingId);
    NamedConsecutivelyStep(written, count, c, RecordingId);
    assert NamedConsecutively(written + [c], count + 1, RecordingId);
  }


  /** Consecutive ids are distinct. */
  lemma ConsecutiveIdsDistinct(written: seq<CutManifest>, count: nat)
    requires ConsecutiveIds(written, count)
    ensures forall i, j :: 0 <= i < j < |written| ==> written[i].id != written[j].id
  {
    forall i, j | 0 <= i < j < |written| ensures written[i].id != written[j].id {
      if written[i].id == written[j].id {
        RecordingIdInjective(i, j);
      }
    }
  }

  /** The first cut written is named audio_00000000 and the i-th audio_ followed by i in eight digits. */
  lemma ConsecutiveIdsFromZero(written: seq<CutManifest>, count: nat)
    requires ConsecutiveIds(written, count)
    ensures written != [] ==> written[0].id == "audio_00000000"
    ensures forall i :: 0 <= i < |written| ==> DigitsValue(written[i].id[6..]) == i
  {
    RecordingIdZero();
    forall i | 0 <= i < |written| ensures DigitsValue(written[i].id[6..]) == i {
      assert written[i].id[6..] == ZeroPad(i, 8);
      ZeroPadValue(i, 8);
    }
  }

  /** `f"audio_{0:08d}"` is "audio_00000000". */
  lemma RecordingIdZero()
    ensures RecordingId(0) == "audio_00000000"
  {
    assert Decimal(0) == "0";
    assert Zeros(7) == "0000000";
    assert ZeroPad(0, 8) == "00000000";
  }

  /**
   * A scrapy pipeline object: the `preprocess` setting, the Shar writer (None until
   * `open_spider`), the item counter, and the temp files it has left on disk.
   */
  class LhotseSharPipeline {
    const preprocess: bool
    var writer: Option<SharWriter>
    var itemCount: nat
    var tempFiles: set<string>

    constructor (preprocess: bool)
      ensures this.preprocess == preprocess && writer.None? && itemCount == 0 && tempFiles == {}
    {
      this.preprocess := preprocess;
      writer := None;
      itemCount := 0;
      tempFiles := {};
    }

    /** One written cut per counted item, named audio_00000000, audio_00000001, ... in order. */
    predicate IdsConsecutive()
      reads this
    {
      writer.Some? ==> ConsecutiveIds(writer.value.written, itemCount)
    }

    /** `open_spider`: a fresh, open Shar writer. */
    method OpenSpider()
      modifies this
      ensures writer == Some(SharWriter([], false)) && itemCount == old(itemCount) && tempFiles == old(tempFiles)
      ensures old(itemCount) == 0 ==> IdsConsecutive()
    {
      writer := Some(SharWriter([], false));
    }

    /** `close_spider`: closes the writer when there is one. */
    method CloseSpider()
      modifies this
      ensures writer == if old(writer).Some? then Some(old(writer).value.(closed := true)) else None
      ensures itemCount == old(itemCount) && tempFiles == old(tempFiles)
    {
      if writer.Some? {
        writer := Some(writer.value.(closed := true));
      }
    }

    /** `whisper_detect_lang(cut)`: replaces the supervisions and records "lang_prob" on the cut. */
    method WhisperDetectLang(cut: Cut, lang: string, langProb: real) returns (r: Cut)
      modifies cut
      ensures r == cut && cut.Manifest() == Detected(old(cut.Manifest()), lang, langProb)
    {
      cut.supervisions := [NewSupervision("segment_" + cut.id, cut.RecordingId(), cut.start, cut.duration, Single(0), Some(lang))];
      if cut.custom.Some? {
        cut.custom := Some(cut.custom.value["lang_prob" := Number(langProb)]);
      } else {
        cut.custom := Some(map["lang_prob" := Number(langProb)]);
      }
      r := cut;
    }

    /**
     * `whisper_transcribe(cut)`: IndexError without a first supervision (the language
     * hint); otherwise one pass over the recognised segments builds the transcript and
     * the word alignment, which go on the first supervision, the only one kept.
     */
    method WhisperTranscribe(cut: Cut, recognise: CutManifest -> seq<Segment>) returns (r: Result<Cut, string>)
      modifies cut
      ensures old(cut.supervisions) == [] ==> r == Err("IndexError") && unchanged(cut)
      ensures old(cut.supervisions) != [] ==>
        r == Ok(cut) && cut.Manifest() == Transcribed(old(cut.Manifest()), recognise(old(cut.Manifest()))).value
    {
      if |cut.supervisions| == 0 {
        return Err("IndexError");
      }
      var m := cut.Manifest();
      var predText, items := ReadSegments(m.start, recognise(m));
      var s := cut.supervisions[0];
      s := s.(text := Some(predText), alignment := Some(map["word" := items]));
      cut.supervisions := [s];
      return Ok(cut);
    }

    /**
     * The loading steps of `process_item`, tracking the temp files on disk: a loaded
     * recording's file is still there (removed by the caller's `finally`); on failure
     * only the files a failed write left behind remain.
     */
    method LoadFile(data: seq<byte>, format: string, env: Env) returns (recording: Option<Recording>, tmpPath: string)
      requires TmpName(env, format) !in tempFiles && WavName(env) !in tempFiles
      modifies this
      ensures recording == LoadAudio(data, format, env).recording && tmpPath == LoadAudio(data, format, env).tmpPath
      ensures recording.Some? ==> tempFiles == old(tempFiles) + {tmpPath} && tmpPath !in old(tempFiles)
      ensures recording.None? ==> tempFiles == old(tempFiles) + LoadAudio(data, format, env).leaked
      ensures writer == old(writer) && itemCount == old(itemCount)
    {
      tmpPath := TmpName(env, format);
      tempFiles := tempFiles + {tmpPath};
      if env.tmpWriteFails {
        return None, tmpPath;
      }
      recording := env.decode(tmpPath, data);
      if recording.None? {
        var wav := env.convert(data, format);
        tempFiles := tempFiles - {tmpPath};
        if wav.None? {
          return;
        }
        tmpPath := WavName(env);
        tempFiles := tempFiles + {tmpPath};
        if env.wavWriteFails {
          return;
        }
        recording := env.decode(tmpPath, wav.value);
        if recording.None? {
          tempFiles := tempFiles - {tmpPath};
        }
      }
    }

    /**
     * The `writer.write(c)` calls of `process_item`, in order, until the one numbered
     * `failingWrite` raises: the writer receives exactly the cuts before it.
     */
    method WriteCuts(cuts: seq<CutManifest>, failingWrite: Option<nat>) returns (completed: bool)
      requires writer.Some?
      modifies this
      ensures completed <==> !(failingWrite.Some? && failingWrite.value < |cuts|)
      ensures writer == Some(old(writer).value.(written := old(writer).value.written + WrittenPrefix(cuts, failingWrite)))
      ensures itemCount == old(itemCount) && tempFiles == old(tempFiles)
    {
      ghost var w0 := writer.value;
      assert w0.written + cuts[..0] == w0.written;
      for i := 0 to |cuts|
        invariant writer == Some(w0.(written := w0.written + cuts[..i]))
        invariant itemCount == old(itemCount) && tempFiles == old(tempFiles)
        invariant failingWrite.Some? ==> i <= failingWrite.value
      {
        if failingWrite == Some(i) {
          return false;
        }
        assert w0.written + cuts[..i + 1] == w0.written + cuts[..i] + [cuts[i]];
        writer := Some(writer.value.(written := writer.value.written + [cuts[i]]));
      }
      assert cuts[..|cuts|] == cuts;
      return true;
    }

    /**
     * The part of `process_item` after a recording was loaded into an open writer:
     * its cuts are written until a write raises, and only a fully written item advances
     * the counter.
     */
    method WriteRecording(rec: Recording, fields: map<string, string>, co: Collaborators, failingWrite: Option<nat>)
      requires writer.Some?
      modifies this
      ensures var cuts := ItemCuts(old(itemCount), preprocess, rec, fields, co);
        var completed := cuts.Ok? && !(failingWrite.Some? && failingWrite.value < |cuts.value|);
        && writer == Some(old(writer).value.(written := old(writer).value.written + (if cuts.Ok? then WrittenPrefix(cuts.value, failingWrite) else [])))
        && itemCount == old(itemCount) + (if completed then 1 else 0)
      ensures tempFiles == old(tempFiles)
      ensures !preprocess && old(IdsConsecutive()) ==> IdsConsecutive()
    {
      var cuts := ItemCuts(itemCount, preprocess, rec, fields, co);
      ghost var before := writer.value;
      assert before.written + [] == before.written;
      if cuts.Err? {
        return;
      }
      var completed := WriteCuts(cuts.value, failingWrite);
      if completed {
        itemCount := itemCount + 1;
        if !preprocess && old(IdsConsecutive()) {
          ConsecutiveIdsStep(before.written, old(itemCount), cuts.value[0]);
        }
      }
    }

    /**
     * `process_item(item)`: always returns the item itself. The writer receives the
     * cuts of `Attempt`, the counter advances by one exactly when the item completed,
     * and the temp files left behind are the outcome's. Without preprocessing the
     * written recording ids stay consecutive.
     */
    method ProcessItem(item: Item, path: string -> string, env: Env, co: Collaborators) returns (r: Item)
      requires TmpName(env, ItemFormat(item.fields, path)) !in tempFiles && WavName(env) !in tempFiles
      modifies this
      ensures r == item
      ensures var o := Attempt(old(itemCount), old(writer).Some?, preprocess, item.fields, item.audioData, path, env, co);
        && (o.writes == [] ==> writer == old(writer))
        && (o.writes != [] ==> old(writer).Some? && writer == Some(old(writer).value.(written := old(writer).value.written + o.writes)))
        && itemCount == old(itemCount) + (if o.completed then 1 else 0)
        && tempFiles == old(tempFiles) + o.leaked
      ensures !preprocess && old(IdsConsecutive()) ==> IdsConsecutive()
    {
      r := item;
      ghost var o := Attempt(itemCount, writer.Some?, preprocess, item.fields, item.audioData, path, env, co);
      if item.audioData.Some? && item.audioData.value != [] {
        var format := ItemFormat(item.fields, path);
        ghost var loaded := LoadAudio(item.audioData.value, format, env);
        var recording, tmpPath := LoadFile(item.audioData.value, format, env);
        if recording.Some? {
          if writer.Some? {
            ghost var cuts := ItemCuts(itemCount, preprocess, recording.value, item.fields, co);
            assert o.leaked == {};
            assert o.writes == if cuts.Ok? then WrittenPrefix(cuts.value, env.failingWrite) else [];
            assert o.completed == (cuts.Ok? && !(env.failingWrite.Some? && env.failingWrite.value < |cuts.value|));
            assert writer.value.written + [] == writer.value.written;
            WriteRecording(recording.value, item.fields, co, env.failingWrite);
          } else {
            assert o == Outcome([], false, {});
          }
          tempFiles := tempFiles - {tmpPath};
        } else {
          assert o == Outcome([], false, loaded.leaked);
        }
      } else {
        assert o == Outcome([], false, {});
      }
    }
  }

  /** The pipeline as scrapy starts it, `__init__` then `open_spider`: its cuts will be named from audio_00000000 up. */
  method StartPipeline(preprocess: bool) returns (p: LhotseSharPipeline)
    ensures fresh(p) && p.preprocess == preprocess && p.writer == Some(SharWriter([], false))
    ensures p.itemCount == 0 && p.tempFiles == {}
    ensures p.IdsConsecutive()
  {
    p := new LhotseSharPipeline(preprocess);
    p.OpenSpider();
  }
}
