/**
 * src/ccaudio/preprocess/filter_lang_prob.py: the 0.7 gate on the cut-level
 * "lang_prob". It reads the cut and changes nothing.
 */
module FilterLangProb {
  import opened Wrappers
  import opened Lhotse

  /**
   * `filter_lang_prob(cut)`: AssertionError without `custom`, KeyError without
   * "lang_prob", TypeError when it is not a number, otherwise `lang_prob >= 0.7`.
   */
  function FilterLangProb(m: CutManifest): (r: Result<bool, string>)
    ensures r == Err("AssertionError") <==> m.custom.None?
    ensures r.Ok? <==> m.custom.Some? && "lang_prob" in m.custom.value && m.custom.value["lang_prob"].Number?
    ensures r.Ok? ==> (r.value <==> m.custom.value["lang_prob"].x >= LangProbThreshold)
  {
    if m.custom.None? then Err("AssertionError")
    else if "lang_prob" !in m.custom.value then Err("KeyError")
    else match m.custom.value["lang_prob"]
      case Number(p) => Ok(p >= LangProbThreshold)
      case Str(_) => Err("TypeError")
  }

  /** At the boundary: 0.7 itself is accepted, anything below it is rejected. */
  lemma FilterBoundary(m: CutManifest, p: real)
    requires m.custom.Some? && "lang_prob" in m.custom.value && m.custom.value["lang_prob"] == Number(p)
    ensures p == 0.7 ==> FilterLangProb(m) == Ok(true)
    ensures p < 0.7 ==> FilterLangProb(m) == Ok(false)
  {
  }
}
