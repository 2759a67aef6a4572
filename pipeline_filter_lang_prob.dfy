/**
 * src/ccaudio/preprocess/pipeline/filter_lang_prob.py: the 0.7 gate on the
 * "lang_prob" of the first supervision. It reads the cut and changes nothing.
 */
module PipelineFilterLangProb {
  import opened Wrappers
  import opened Lhotse

  /**
   * `filter_lang_prob(cut)`: IndexError without supervisions, AssertionError when the
   * first supervision has no `custom`, KeyError / TypeError for a missing or
   * non-numeric "lang_prob", otherwise `lang_prob >= 0.7`. The cut's own `custom` is
   * never read.
   */
  function FilterLangProb(m: CutManifest): (r: Result<bool, string>)
    ensures r == Err("IndexError") <==> m.supervisions == []
    ensures r.Ok? <==> m.supervisions != [] && m.supervisions[0].custom.Some?
                       && "lang_prob" in m.supervisions[0].custom.value
                       && m.supervisions[0].custom.value["lang_prob"].Number?
    ensures r.Ok? ==> (r.value <==> m.supervisions[0].custom.value["lang_prob"].x >= LangProbThreshold)
  {
    if m.supervisions == [] then Err("IndexError")
    else
      var s := m.supervisions[0];
      if s.custom.None? then Err("AssertionError")
      else if "lang_prob" !in s.custom.value then Err("KeyError")
      else match s.custom.value["lang_prob"]
        case Number(p) => Ok(p >= LangProbThreshold)
        case Str(_) => Err("TypeError")
  }

  /** The verdict does not depend on the cut's own `custom` map. */
  lemma FilterIgnoresCutCustom(m: CutManifest, custom: Option<Custom>)
    ensures FilterLangProb(m.(custom := custom)) == FilterLangProb(m)
  {
  }

  /** At the boundary: 0.7 itself is accepted, anything below it is rejected. */
  lemma FilterBoundary(m: CutManifest, p: real)
    requires m.supervisions != [] && m.supervisions[0].custom.Some?
    requires "lang_prob" in m.supervisions[0].custom.value
    requires m.supervisions[0].custom.value["lang_prob"] == Number(p)
    ensures p == 0.7 ==> FilterLangProb(m) == Ok(true)
    ensures p < 0.7 ==> FilterLangProb(m) == Ok(false)
  {
  }
}
