/**
 * src/ccaudio/preprocess/whisper_detect_lang.py: language identification on a cut.
 * The detected language replaces all supervisions with one new supervision and the
 * probability goes into the cut's own `custom` map. The detector's answer
 * (`model.detect_language` on the cut's audio) is the `lang` / `langProb` input.
 */
module WhisperDetectLang {
  import opened Wrappers
  import opened Lhotse
  import Ingest
  import FilterLangProb

  /** The one supervision detection leaves on the cut. */
  function DetectedSupervision(m: CutManifest, lang: string): Supervision {
    NewSupervision("segment_" + m.id, m.recording.id, m.start, m.duration, Single(0), Some(lang))
  }

  /** The cut after detection. */
  function Detected(m: CutManifest, lang: string, langProb: real): (r: CutManifest)
    ensures r.supervisions == [DetectedSupervision(m, lang)]
    ensures r.custom == Some(SetLangProb(m.custom, langProb))
    ensures r.(supervisions := m.supervisions, custom := m.custom) == m
  {
    m.(supervisions := [DetectedSupervision(m, lang)], custom := Some(SetLangProb(m.custom, langProb)))
  }

  /**
   * `whisper_detect_lang(cut, model)`: `cut.supervisions` is replaced and `cut.custom`
   * gains "lang_prob" (or is created); the same cut object is returned.
   */
  method DetectLang(cut: Cut, lang: string, langProb: real) returns (r: Cut)
    modifies cut
    ensures r == cut
    ensures cut.Manifest() == Detected(old(cut.Manifest()), lang, langProb)
  {
    cut.supervisions := [NewSupervision("segment_" + cut.id, cut.RecordingId(), cut.start, cut.duration, Single(0), Some(lang))];
    if cut.custom.Some? {
      cut.custom := Some(cut.custom.value["lang_prob" := Number(langProb)]);
    } else {
      cut.custom := Some(map["lang_prob" := Number(langProb)]);
    }
    r := cut;
  }

  /**
   * Earlier supervisions are discarded: afterwards there is exactly one, whatever
   * there was before, with the cut's id-derived name, the cut's start and duration,
   * channel 0 and the detected language; the cut stays mono or multi as it was.
   */
  lemma DetectedShape(m: CutManifest, lang: string, langProb: real)
    ensures var r := Detected(m, lang, langProb);
      |r.supervisions| == 1 && r.IsMono() == m.IsMono()
      && r.supervisions[0].id == "segment_" + m.id && r.supervisions[0].recordingId == m.recording.id
      && r.supervisions[0].start == m.start && r.supervisions[0].duration == m.duration
      && r.supervisions[0].channel == Single(0) && r.supervisions[0].language == Some(lang)
      && r.supervisions[0].text.None?
  {
  }

  /** Detection followed by the cut-level filter accepts exactly when the probability is at least 0.7. */
  lemma DetectThenFilter(m: CutManifest, lang: string, langProb: real)
    ensures FilterLangProb.FilterLangProb(Detected(m, lang, langProb)) == Ok(langProb >= 0.7)
  {
    var c := Detected(m, lang, langProb).custom.value;
    assert c["lang_prob"] == Number(langProb);
  }

  /** Running detection twice with the same answer is the same as running it once. */
  lemma DetectedIdempotent(m: CutManifest, lang: string, langProb: real)
    ensures Detected(Detected(m, lang, langProb), lang, langProb) == Detected(m, lang, langProb)
  {
    var once := Detected(m, lang, langProb);
    assert SetLangProb(once.custom, langProb) == SetLangProb(m.custom, langProb);
  }

  /**
   * The new supervision starts at `cut.start`, while supervisions are timed relative
   * to the cut: it lies within the cut exactly when the cut starts at 0.
   */
  lemma DetectedWithinCutIff(m: CutManifest, lang: string, langProb: real)
    requires 0.0 <= m.start
    ensures Ingest.WithinCut(Detected(m, lang, langProb).supervisions[0], m.duration) <==> m.start == 0.0
  {
  }
}
