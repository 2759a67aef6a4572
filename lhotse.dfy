/**
 * The lhotse entities the pipelines build and update: recordings, supervisions,
 * alignment items and cuts (MonoCut / MultiCut), plus the scrapy item they are
 * built from and the state of a Shar writer. Only the metadata is modelled; the
 * sample data behind a recording stays with the audio libraries.
 */
module Lhotse {
  import opened Wrappers
  import opened Text

  /** Values of a `custom` dictionary: provenance strings and the language probability. */
  datatype Value = Str(s: string) | Number(x: real)

  type Custom = map<string, Value>

  /**
   * Channel selection. A MonoCut selects one channel index; a MultiCut (and a
   * supervision built from `recording.channel_ids`) selects a list of indices.
   */
  datatype Channels = Single(index: nat) | Several(indices: seq<nat>)

  /** The transforms lhotse records on a recording when it is downmixed or resampled. */
  datatype Transform = DownmixMono | Resample(rate: nat)

  datatype Recording = Recording(
    id: string,
    samplingRate: nat,
    channelIds: seq<nat>,
    duration: real,
    transforms: seq<Transform>)

  datatype AlignmentItem = AlignmentItem(symbol: string, start: real, duration: real)

  datatype Supervision = Supervision(
    id: string,
    recordingId: string,
    start: real,
    duration: real,
    channel: Channels,
    language: Option<string>,
    text: Option<string>,
    custom: Option<Custom>,
    alignment: Option<map<string, seq<AlignmentItem>>>)

  /** A supervision as `SupervisionSegment(...)` creates it: no text, custom or alignment yet. */
  function NewSupervision(id: string, recordingId: string, start: real, duration: real,
                          channel: Channels, language: Option<string>): Supervision
  {
    Supervision(id, recordingId, start, duration, channel, language, None, None, None)
  }

  /** The value of a cut: what a Shar writer serialises for it. */
  datatype CutManifest = CutManifest(
    id: string,
    start: real,
    duration: real,
    channel: Channels,
    recording: Recording,
    supervisions: seq<Supervision>,
    custom: Option<Custom>)
  {
    /** `isinstance(cut, MonoCut)`. */
    predicate IsMono() {
      channel.Single?
    }
  }

  /**
   * The metadata effect of lhotse's `cut.to_mono(mono_downmix=True)`: a MonoCut on
   * channel 0 whose recording is the downmix of all channels. Times and supervisions
   * are kept.
   */
  function DownmixToMono(m: CutManifest): (r: CutManifest)
    ensures r.IsMono() && r.channel == Single(0) && r.recording.channelIds == [0]
    ensures r.id == m.id && r.start == m.start && r.duration == m.duration
    ensures r.supervisions == m.supervisions && r.custom == m.custom
    ensures r.recording.id == m.recording.id && r.recording.samplingRate == m.recording.samplingRate
    ensures r.recording.duration == m.recording.duration
  {
    var rec := m.recording.(channelIds := [0], transforms := m.recording.transforms + [DownmixMono]);
    m.(channel := Single(0), recording := rec)
  }

  /**
   * The metadata effect of lhotse's `cut.resample(sr)`: the recording is resampled to
   * `sr` (left as it is when it already has that rate); the cut keeps its kind,
   * channel, times and supervisions.
   */
  function ResampleTo(m: CutManifest, sr: nat): (r: CutManifest)
    ensures r.recording.samplingRate == sr
    ensures r.id == m.id && r.start == m.start && r.duration == m.duration && r.channel == m.channel
    ensures r.supervisions == m.supervisions && r.custom == m.custom
    ensures r.recording.id == m.recording.id && r.recording.channelIds == m.recording.channelIds
    ensures r.recording.duration == m.recording.duration
    ensures m.recording.samplingRate == sr ==> r == m
  {
    if m.recording.samplingRate == sr then m
    else m.(recording := m.recording.(samplingRate := sr, transforms := m.recording.transforms + [Resample(sr)]))
  }

  /** The language-probability threshold of every `filter_lang_prob` variant. */
  const LangProbThreshold: real := 0.7

  /**
   * `custom["lang_prob"] = p` on an existing dictionary, or `{"lang_prob": p}` when
   * there is none: the key is set, every other key keeps its value, no key is lost.
   */
  function SetLangProb(custom: Option<Custom>, p: real): (r: Custom)
    ensures "lang_prob" in r && r["lang_prob"] == Number(p)
    ensures custom.Some? ==> r.Keys == custom.value.Keys + {"lang_prob"}
    ensures custom.Some? ==> forall k :: k in custom.value && k != "lang_prob" ==> r[k] == custom.value[k]
    ensures custom.None? ==> r.Keys == {"lang_prob"}
  {
    match custom
    case Some(c) => c["lang_prob" := Number(p)]
    case None => map["lang_prob" := Number(p)]
  }

  /** A live lhotse cut object whose attributes the preprocessing steps assign in place. */
  class Cut {
    var id: string
    var start: real
    var duration: real
    var channel: Channels
    var recording: Recording
    var supervisions: seq<Supervision>
    var custom: Option<Custom>

    constructor (m: CutManifest)
      ensures Manifest() == m
    {
      id := m.id;
      start := m.start;
      duration := m.duration;
      channel := m.channel;
      recording := m.recording;
      supervisions := m.supervisions;
      custom := m.custom;
    }

    function Manifest(): CutManifest
      reads this
    {
      CutManifest(id, start, duration, channel, recording, supervisions, custom)
    }

    /** `cut.recording_id`. */
    function RecordingId(): string
      reads this
    {
      recording.id
    }
  }

  /**
   * A scrapy item: its string-valued fields, and the raw `audio_data` bytes
   * (None when the field is absent). Pipelines delete and add fields in place.
   */
  class Item {
    var fields: map<string, string>
    var audioData: Option<seq<byte>>

    constructor (fields: map<string, string>, audioData: Option<seq<byte>>)
      ensures this.fields == fields && this.audioData == audioData
    {
      this.fields := fields;
      this.audioData := audioData;
    }

    /** `item.get(key, default)` on a string field. */
    function Get(key: string, default: string): string
      reads this
    {
      if key in fields then fields[key] else default
    }
  }

  /** The cuts a Shar writer has been handed, in call order, and whether it was closed. */
  datatype SharWriter = SharWriter(written: seq<CutManifest>, closed: bool)

  /** The cuts written before the write numbered `failingWrite` raises (all of them when none does). */
  function WrittenPrefix(cuts: seq<CutManifest>, failingWrite: Option<nat>): (w: seq<CutManifest>)
    ensures w <= cuts
    ensures |w| == if failingWrite.Some? && failingWrite.value < |cuts| then failingWrite.value else |cuts|
  {
    if failingWrite.Some? && failingWrite.value < |cuts| then cuts[..failingWrite.value] else cuts
  }

  /** Outcome of `process_item` for the pipelines that raise `DropItem`. */
  datatype Verdict = Returned | Dropped
}
