/**
 * src/ccaudio/preprocess/pipeline/whisper_detect_lang.py: language identification
 * that updates the first supervision in place and stores "lang_prob" in that
 * supervision's `custom`, leaving `cut.custom` alone.
 */
module PipelineWhisperDetectLang {
  import opened Wrappers
  import opened Lhotse
  import PipelineFilterLangProb

  /** The cut after detection, as written: IndexError when there is no first supervision. */
  function Detected(m: CutManifest, lang: string, langProb: real): (r: Result<CutManifest, string>)
    ensures r.Err? <==> m.supervisions == []
    ensures r.Ok? ==> |r.value.supervisions| == 1 && r.value.custom == m.custom
  {
    if m.supervisions == [] then Err("IndexError")
    else
      var s := m.supervisions[0];
      Ok(m.(supervisions := [s.(language := Some(lang), custom := Some(SetLangProb(s.custom, langProb)))]))
  }

  /**
   * `whisper_detect_lang(cut, model)`: `s = cut.supervisions[0]`, `s.language` and
   * `s.custom` are updated, then `cut.supervisions = [s]`; the same cut is returned.
   */
  method DetectLang(cut: Cut, lang: string, langProb: real) returns (r: Result<Cut, string>)
    modifies cut
    ensures r.Err? <==> Detected(old(cut.Manifest()), lang, langProb).Err?
    ensures r.Err? ==> r.error == "IndexError" && unchanged(cut)
    ensures r.Ok? ==> r.value == cut && cut.Manifest() == Detected(old(cut.Manifest()), lang, langProb).value
  {
    if |cut.supervisions| == 0 {
      return Err("IndexError");
    }
    var s := cut.supervisions[0];
    s := s.(language := Some(lang));
    if s.custom.Some? {
      s := s.(custom := Some(s.custom.value["lang_prob" := Number(langProb)]));
    } else {
      s := s.(custom := Some(map["lang_prob" := Number(langProb)]));
    }
    cut.supervisions := [s];
    return Ok(cut);
  }

  /**
   * Only the first supervision survives; of it only the language and the custom map
   * change (id, recording, start, duration, channel, text, alignment are kept), the
   * custom map keeps its other keys, and the cut's own custom map is untouched.
   */
  lemma DetectedKeepsFirst(m: CutManifest, lang: string, langProb: real)
    requires m.supervisions != []
    ensures var r := Detected(m, lang, langProb).value;
      var s, s' := m.supervisions[0], r.supervisions[0];
      s'.(language := s.language, custom := s.custom) == s
      && s'.language == Some(lang)
      && s'.custom.Some? && s'.custom.value["lang_prob"] == Number(langProb)
      && (s.custom.Some? ==> forall k :: k in s.custom.value && k != "lang_prob" ==> k in s'.custom.value && s'.custom.value[k] == s.custom.value[k])
      && r.(supervisions := m.supervisions) == m
  {
  }

  /** Detection followed by the supervision-level filter accepts exactly when the probability is at least 0.7. */
  lemma DetectThenFilter(m: CutManifest, lang: string, langProb: real)
    requires m.supervisions != []
    ensures PipelineFilterLangProb.FilterLangProb(Detected(m, lang, langProb).value) == Ok(langProb >= 0.7)
  {
    var c := Detected(m, lang, langProb).value.supervisions[0].custom.value;
    assert c["lang_prob"] == Number(langProb);
  }
}
