/**
 * src/ccaudio/preprocess/pipeline/convert_audio.py: `convert_audio(cut)` brings a cut
 * to mono at 16 kHz and keeps only its first supervision.
 */
module PipelineConvertAudio {
  import opened Wrappers
  import opened Lhotse
  import Preprocess

  const SampleRate: nat := 16000

  /**
   * What `convert_audio(cut)` returns, as written: the downmix/resample rule of
   * `Preprocess.ConvertAudio` at 16 kHz, then `supervisions = [supervisions[0]]`,
   * which raises IndexError on a cut without supervisions.
   */
  function Converted(m: CutManifest, toMono: CutManifest -> CutManifest,
                     resample: (CutManifest, nat) -> CutManifest): (r: Result<CutManifest, string>)
    ensures r.Ok? ==> r.value.IsMono() && |r.value.supervisions| == 1
  {
    match Preprocess.ConvertAudio(m, SampleRate, toMono, resample)
    case Err(e) => Err(e)
    case Ok(c) =>
      if |c.supervisions| == 0 then Err("IndexError")
      else Ok(c.(supervisions := [c.supervisions[0]]))
  }

  /**
   * `convert_audio(cut)`: the downmixed and resampled cut is a new object, whose
   * supervision list is then cut down in place to its first element. The input cut
   * is not modified.
   */
  method ConvertAudio(cut: Cut, toMono: CutManifest -> CutManifest,
                      resample: (CutManifest, nat) -> CutManifest) returns (r: Result<Cut, string>)
    ensures r.Ok? <==> Converted(cut.Manifest(), toMono, resample).Ok?
    ensures r.Ok? ==> fresh(r.value) && r.value.Manifest() == Converted(cut.Manifest(), toMono, resample).value
    ensures r.Err? ==> r.error == Converted(cut.Manifest(), toMono, resample).error
  {
    var m := cut.Manifest();
    var mono := if m.IsMono() then m else toMono(m);
    var resampled := new Cut(resample(mono, SampleRate));
    if !resampled.Manifest().IsMono() {
      return Err("AssertionError");
    }
    if |resampled.supervisions| == 0 {
      return Err("IndexError");
    }
    resampled.supervisions := [resampled.supervisions[0]];
    return Ok(resampled);
  }

  /**
   * With lhotse's downmix and resample, a cut with at least one supervision always
   * converts: a MonoCut at 16 kHz whose supervisions are exactly the input's first one,
   * with id, times and custom data kept.
   */
  lemma ConvertedWithLhotse(m: CutManifest)
    requires |m.supervisions| >= 1
    ensures var r := Converted(m, DownmixToMono, ResampleTo);
      r.Ok? && r.value.IsMono() && r.value.recording.samplingRate == SampleRate
      && r.value.supervisions == [m.supervisions[0]]
      && r.value.id == m.id && r.value.start == m.start && r.value.duration == m.duration
      && r.value.custom == m.custom
  {
    Preprocess.ConvertAudioWithLhotse(m, SampleRate);
  }

  /**
   * The as-written rule fails on a cut without supervisions, such as the MonoCut and
   * MultiCut that tests/preprocess/pipeline/test_convert_audio.py builds, although
   * those tests expect a MonoCut back.
   */
  lemma ConvertedRejectsCutWithoutSupervisions(m: CutManifest)
    requires m.supervisions == []
    ensures Converted(m, DownmixToMono, ResampleTo) == Err("IndexError")
  {
    Preprocess.ConvertAudioWithLhotse(m, SampleRate);
  }

  /** The intended rule: keep at most the first supervision (`supervisions[:1]`). */
  function ConvertedFirstOnly(m: CutManifest, toMono: CutManifest -> CutManifest,
                              resample: (CutManifest, nat) -> CutManifest): (r: Result<CutManifest, string>)
    ensures r.Ok? ==> r.value.IsMono() && |r.value.supervisions| <= 1
  {
    match Preprocess.ConvertAudio(m, SampleRate, toMono, resample)
    case Err(e) => Err(e)
    case Ok(c) => Ok(c.(supervisions := c.supervisions[..if |c.supervisions| == 0 then 0 else 1]))
  }

  /**
   * The intended rule always yields a MonoCut at 16 kHz whose supervisions are the
   * first of the input's, if any; on cuts with a supervision it agrees with the
   * as-written rule.
   */
  lemma ConvertedFirstOnlyCorrect(m: CutManifest)
    ensures var r := ConvertedFirstOnly(m, DownmixToMono, ResampleTo);
      r.Ok? && r.value.IsMono() && r.value.recording.samplingRate == SampleRate
      && r.value.supervisions == m.supervisions[..if |m.supervisions| == 0 then 0 else 1]
    ensures |m.supervisions| >= 1 ==>
      ConvertedFirstOnly(m, DownmixToMono, ResampleTo) == Converted(m, DownmixToMono, ResampleTo)
  {
    Preprocess.ConvertAudioWithLhotse(m, SampleRate);
    if |m.supervisions| >= 1 {
      var c := Preprocess.ConvertAudio(m, SampleRate, DownmixToMono, ResampleTo).value;
      assert c.supervisions[..1] == [c.supervisions[0]];
    }
  }
}
