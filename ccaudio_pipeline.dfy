/**
 * src/ccaudio/pipelines.py: `CCAudioPipeline`, the scrapy item pipeline that turns a
 * downloaded audio item into a cut named by a fresh uuid, optionally normalises it
 * and gates it on the detected language probability, and hands the result to a
 * Shar writer. Every failure becomes `DropItem`.
 */
module CCAudioPipelines {
  import opened Wrappers
  import opened Text
  import opened Lhotse
  import opened Ingest
  import PipelineConvertAudio
  import WhisperDetectLang
  import FilterLangProb

  /** The item fields `process_item` indexes directly: a missing one raises KeyError. */
  const RequiredFields: set<string> := {"audio_url", "language", "title", "description", "page_url"}

  /**
   * The calls `process_item` makes that this model does not contain: the uuid, the
   * ingest collaborators, lhotse's downmix and resample, Whisper's language detection
   * on the converted cut, `whisper_transcribe` followed by `trim_to_alignments` (None
   * when either raises), and which `writer.write` call raises, if any.
   */
  datatype Collaborators = Collaborators(
    uuid: string,
    dec: Decoder,
    toMono: CutManifest -> CutManifest,
    resample: (CutManifest, nat) -> CutManifest,
    detect: CutManifest -> (string, real),
    transcribeAndTrim: CutManifest -> Option<seq<CutManifest>>,
    failingWrite: Option<nat>)

  /** What one call of `process_item` does: the cuts handed to the writer, and whether the item is returned or dropped. */
  datatype Outcome = Outcome(writes: seq<CutManifest>, verdict: Verdict)

  /** The cut built for an item whose recording was loaded. */
  function ItemCut(fields: map<string, string>, rec: Recording, id: string): CutManifest
    requires RequiredFields <= fields.Keys
  {
    BuildCut(id, rec, fields["language"],
             Provenance(fields["audio_url"], fields["title"], fields["description"], fields["page_url"]))
  }

  /**
   * The preprocessing branch on a built cut: `convert_audio`, then language detection
   * with the probability stored on the cut. Below 0.7 nothing is to be written (Ok of
   * no cuts); otherwise the transcribed and trimmed cuts are. Err when a step raises.
   */
  function Preprocessed(m: CutManifest, co: Collaborators): Result<seq<CutManifest>, string> {
    match PipelineConvertAudio.Converted(m, co.toMono, co.resample)
    case Err(e) => Err(e)
    case Ok(converted) =>
      var answer := co.detect(converted);
      var detected := WhisperDetectLang.Detected(converted, answer.0, answer.1);
      if detected.custom.value["lang_prob"].x < LangProbThreshold then Ok([])
      else match co.transcribeAndTrim(detected)
        case None => Err("transcription failed")
        case Some(cuts) => Ok(cuts)
  }

  /**
   * The preprocessing branch of `process_item` on a live cut: the converted cut is a
   * new object, on which detection writes "lang_prob"; the input cut is not modified.
   */
  method PreprocessCut(cut: Cut, co: Collaborators) returns (r: Result<seq<CutManifest>, string>)
    ensures r == Preprocessed(cut.Manifest(), co)
  {
    var converted := PipelineConvertAudio.ConvertAudio(cut, co.toMono, co.resample);
    if converted.Err? {
      return Err(converted.error);
    }
    var answer := co.detect(converted.value.Manifest());
    var detected := WhisperDetectLang.DetectLang(converted.value, answer.0, answer.1);
    if detected.custom.value["lang_prob"].x < LangProbThreshold {
      return Ok([]);
    }
    var transcribed := co.transcribeAndTrim(detected.Manifest());
    if transcribed.None? {
      return Err("transcription failed");
    }
    return Ok(transcribed.value);
  }

  /** `process_item(item)` from the state (`preprocess`, whether a writer is open). */
  function Attempt(preprocess: bool, writerOpen: bool, fields: map<string, string>,
                   audio: Option<seq<byte>>, co: Collaborators): Outcome
  {
    if !(RequiredFields <= fields.Keys) || audio.None? then Outcome([], Dropped)
    else match Load(fields["audio_url"], ContentType(fields), audio.value, co.uuid, co.dec)
      case None => Outcome([], Dropped)
      case Some(rec) =>
        var cut := ItemCut(fields, rec, co.uuid);
        if !writerOpen then Outcome([], Dropped)
        else
          var cuts := if preprocess then Preprocessed(cut, co) else Ok([cut]);
          match cuts
          case Err(_) => Outcome([], Dropped)
          case Ok(cs) =>
            var written := WrittenPrefix(cs, co.failingWrite);
            Outcome(written, if written == cs then Returned else Dropped)
  }

  /**
   * Without preprocessing an item is either returned with exactly one cut written,
   * the one built from its recording, or dropped with nothing written. Either way
   * nothing is written without an open writer, and an item without its required
   * fields or its audio is dropped untouched.
   */
  lemma AttemptWithoutPreprocess(writerOpen: bool, fields: map<string, string>, audio: Option<seq<byte>>, co: Collaborators)
    ensures var o := Attempt(false, writerOpen, fields, audio, co);
      && |o.writes| <= 1
      && (o.verdict == Returned <==> |o.writes| == 1)
      && (o.writes != [] ==> writerOpen && RequiredFields <= fields.Keys && audio.Some?)
      && (o.verdict == Returned ==>
            var rec := Load(fields["audio_url"], ContentType(fields), audio.value, co.uuid, co.dec);
            rec.Some? && o.writes == [ItemCut(fields, rec.value, co.uuid)])
      && (!(RequiredFields <= fields.Keys) || audio.None? ==> o == Outcome([], Dropped))
  {
    if RequiredFields <= fields.Keys && audio.Some? {
      var rec := Load(fields["audio_url"], ContentType(fields), audio.value, co.uuid, co.dec);
      if rec.Some? && writerOpen {
        var cs := [ItemCut(fields, rec.value, co.uuid)];
        assert WrittenPrefix(cs, co.failingWrite) == cs <==> !(co.failingWrite == Some(0));
      }
    }
  }

  /**
   * With lhotse's downmix and resample, the built cut always converts, and the gate
   * is the 0.7 threshold on the detected probability: below it the item is returned
   * with nothing written; at or above it, every transcribed and trimmed cut is written.
   * The gate agrees with `filter_lang_prob` on the detected cut.
   */
  lemma PreprocessGate(fields: map<string, string>, rec: Recording, co: Collaborators)
    requires RequiredFields <= fields.Keys
    requires co.toMono == DownmixToMono && co.resample == ResampleTo
    ensures var cut := ItemCut(fields, rec, co.uuid);
      var converted := PipelineConvertAudio.Converted(cut, co.toMono, co.resample);
      converted.Ok? && converted.value.IsMono() && converted.value.recording.samplingRate == PipelineConvertAudio.SampleRate
      && var p := co.detect(converted.value).1;
         var detected := WhisperDetectLang.Detected(converted.value, co.detect(converted.value).0, p);
         && FilterLangProb.FilterLangProb(detected) == Ok(p >= LangProbThreshold)
         && (p < LangProbThreshold ==> Preprocessed(cut, co) == Ok([]))
         && (p >= LangProbThreshold ==>
               Preprocessed(cut, co) == (match co.transcribeAndTrim(detected)
                                          case None => Err("transcription failed")
                                          case Some(cuts) => Ok(cuts)))
  {
    var cut := ItemCut(fields, rec, co.uuid);
    PipelineConvertAudio.ConvertedWithLhotse(cut);
    var converted := PipelineConvertAudio.Converted(cut, co.toMono, co.resample).value;
    WhisperDetectLang.DetectThenFilter(converted, co.detect(converted).0, co.detect(converted).1);
  }

  /**
   * With preprocessing a returned item had all its cuts written; a dropped one has at
   * most a proper prefix of them written, and only when a write raised.
   */
  lemma AttemptWithPreprocess(writerOpen: bool, fields: map<string, string>, audio: Option<seq<byte>>, co: Collaborators)
    ensures var o := Attempt(true, writerOpen, fields, audio, co);
      && (o.writes != [] ==> writerOpen && RequiredFields <= fields.Keys && audio.Some?)
      && (o.verdict == Returned ==>
            var rec := Load(fields["audio_url"], ContentType(fields), audio.value, co.uuid, co.dec);
            rec.Some? && Preprocessed(ItemCut(fields, rec.value, co.uuid), co) == Ok(o.writes))
      && (o.verdict == Dropped && o.writes != [] ==> co.failingWrite.Some? && |o.writes| == co.failingWrite.value)
  {
  }

  /**
   * A scrapy pipeline object: the `preprocess` setting and the Shar writer (None
   * until `open_spider`).
   */
  class CCAudioPipeline {
    const preprocess: bool
    var writer: Option<SharWriter>

    constructor (preprocess: bool)
      ensures this.preprocess == preprocess && writer.None?
    {
      this.preprocess := preprocess;
      writer := None;
    }

    /** `open_spider`: a fresh, open Shar writer. */
    method OpenSpider()
      modifies this
      ensures writer == Some(SharWriter([], false))
    {
      writer := Some(SharWriter([], false));
    }

    /** `close_spider`: closes the writer when there is one. */
    method CloseSpider()
      modifies this
      ensures writer == if old(writer).Some? then Some(old(writer).value.(closed := true)) else None
    {
      if writer.Some? {
        writer := Some(writer.value.(closed := true));
      }
    }

    /** The `self.writer.write(c)` calls, in order, until the one numbered `failingWrite` raises. */
    method WriteCuts(cuts: seq<CutManifest>, failingWrite: Option<nat>) returns (completed: bool)
      requires writer.Some?
      modifies this
      ensures completed <==> WrittenPrefix(cuts, failingWrite) == cuts
      ensures writer == Some(old(writer).value.(written := old(writer).value.written + WrittenPrefix(cuts, failingWrite)))
    {
      ghost var w0 := writer.value;
      assert w0.written + cuts[..0] == w0.written;
      for i := 0 to |cuts|
        invariant writer == Some(w0.(written := w0.written + cuts[..i]))
        invariant failingWrite.Some? ==> i <= failingWrite.value
      {
        if failingWrite == Some(i) {
          return false;
        }
        assert w0.written + cuts[..i + 1] == w0.written + cuts[..i] + [cuts[i]];
        writer := Some(writer.value.(written := writer.value.written + [cuts[i]]));
      }
      assert cuts[..|cuts|] == cuts;
      return true;
    }

    /**
     * `process_item(item)`: a returned item has lost `audio_data`; a dropped one
     * (`DropItem`) is left as it was. The writer receives the cuts of `Attempt`.
     */
    method ProcessItem(item: Item, co: Collaborators) returns (r: Result<Item, string>)
      modifies this, item
      ensures var o := Attempt(preprocess, old(writer).Some?, old(item.fields), old(item.audioData), co);
        && (o.writes == [] ==> writer == old(writer))
        && (o.writes != [] ==> old(writer).Some? && writer == Some(old(writer).value.(written := old(writer).value.written + o.writes)))
        && (r.Ok? <==> o.verdict == Returned)
      ensures r.Ok? ==> r.value == item && item.audioData.None?
      ensures r.Err? ==> r.error == "DropItem" && item.audioData == old(item.audioData)
      ensures item.fields == old(item.fields)
    {
      if !(RequiredFields <= item.fields.Keys) || item.audioData.None? {
        return Err("DropItem");
      }
      var fields := item.fields;
      var rec := LoadFile(fields["audio_url"], ContentType(fields), item.audioData.value, co.uuid, co.dec);
      if rec.None? {
        return Err("DropItem");
      }
      var m := ItemCut(fields, rec.value, co.uuid);
      if writer.None? {
        return Err("DropItem");
      }
      assert writer.value.written + [] == writer.value.written;
      var cuts: Result<seq<CutManifest>, string>;
      if preprocess {
        var cut := new Cut(m);
        cuts := PreprocessCut(cut, co);
      } else {
        cuts := Ok([m]);
      }
      if cuts.Err? {
        return Err("DropItem");
      }
      var completed := WriteCuts(cuts.value, co.failingWrite);
      if !completed {
        return Err("DropItem");
      }
      item.audioData := None;
      return Ok(item);
    }
  }
}
