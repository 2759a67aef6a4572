/**
 * src/ccaudio/preprocess/pipeline/whisper_transcribe.py: `whisper_transcribe` puts
 * one transcript, the recognised segment texts joined and then stripped as a whole,
 * on every supervision of the cut. The recogniser (`model.transcribe` on the cut's
 * audio) is the `recognise` input, applied to the language hint.
 */
module PipelineWhisperTranscribe {
  import opened Wrappers
  import opened Text
  import opened Lhotse
  import opened Serialization

  /** The segment texts, concatenated as they are (`"".join(...)`). */
  function JoinedTexts(segs: seq<Segment>): string {
    if segs == [] then "" else JoinedTexts(segs[..|segs| - 1]) + segs[|segs| - 1].text
  }

  /** The transcript: the joined texts, stripped once as a whole. */
  function Transcript(segs: seq<Segment>): string {
    Strip(JoinedTexts(segs))
  }

  /** Every supervision with its text set to `text`, nothing else changed. */
  function WithText(sups: seq<Supervision>, text: string): (r: seq<Supervision>)
    ensures |r| == |sups|
    ensures forall i :: 0 <= i < |sups| ==> r[i].text == Some(text) && r[i].(text := sups[i].text) == sups[i]
  {
    seq(|sups|, i requires 0 <= i < |sups| => sups[i].(text := Some(text)))
  }

  /** The cut after transcription with the recogniser's segments `segs`. */
  function Transcribed(m: CutManifest, segs: seq<Segment>): CutManifest {
    m.(supervisions := WithText(m.supervisions, Transcript(segs)))
  }

  /**
   * The segments serialised one by one (`[serialize(s) for s in segments]`), then
   * their "text" fields concatenated: the segment texts joined as they are.
   */
  method JoinSerializedTexts(segments: seq<Segment>) returns (joined: string)
    ensures joined == JoinedTexts(segments)
  {
    var serialized: seq<PyValue> := [];
    for i := 0 to |segments|
      invariant |serialized| == i
      invariant forall k :: 0 <= k < i ==> serialized[k] == Serialize(SegmentValue(segments[k]))
    {
      serialized := serialized + [Serialize(SegmentValue(segments[i]))];
    }
    joined := "";
    for i := 0 to |serialized|
      invariant joined == JoinedTexts(segments[..i])
    {
      SerializedSegment(segments[i]);
      var text := Lookup(serialized[i].entries, PyStr("text")).value;
      joined := joined + text.s;
      assert segments[..i + 1][..i] == segments[..i];
    }
    assert segments[..|segments|] == segments;
  }

  /**
   * `whisper_transcribe(cut, model)`: IndexError without a first supervision (the
   * language hint); otherwise the segments are serialised one by one, their "text"
   * fields joined and stripped, and the result assigned to every supervision's text.
   * No alignment is attached and the same cut is returned.
   */
  method WhisperTranscribe(cut: Cut, recognise: Option<string> -> seq<Segment>) returns (r: Result<Cut, string>)
    modifies cut
    ensures old(cut.supervisions) == [] ==> r == Err("IndexError") && unchanged(cut)
    ensures old(cut.supervisions) != [] ==>
      r == Ok(cut) && cut.Manifest() == Transcribed(old(cut.Manifest()), recognise(old(cut.supervisions[0].language)))
  {
    if |cut.supervisions| == 0 {
      return Err("IndexError");
    }
    var segments := recognise(cut.supervisions[0].language);
    var joined := JoinSerializedTexts(segments);
    var predText := Strip(joined);
    var sups := cut.supervisions;
    for i := 0 to |sups|
      invariant |cut.supervisions| == |sups|
      invariant forall k :: 0 <= k < i ==> cut.supervisions[k] == sups[k].(text := Some(predText))
      invariant forall k :: i <= k < |sups| ==> cut.supervisions[k] == sups[k]
      invariant cut.Manifest() == old(cut.Manifest()).(supervisions := cut.supervisions)
    {
      cut.supervisions := cut.supervisions[i := cut.supervisions[i].(text := Some(predText))];
    }
    assert cut.supervisions == WithText(old(cut.supervisions), predText);
    return Ok(cut);
  }

  /**
   * Whitespace between segments is kept; only the ends of the whole transcript are
   * stripped: segments "w " and "v" give "w v" (for instance "hello " and "world"
   * give "hello world").
   */
  lemma TranscriptKeepsInnerSpace(w: string, v: string)
    requires w != [] && !IsSpace(w[0])
    requires v != [] && !IsSpace(v[|v| - 1])
    ensures Transcript([Segment(w + " ", 0.0, 1.0), Segment(v, 1.2, 2.0)]) == w + " " + v
  {
    var s1, s2 := Segment(w + " ", 0.0, 1.0), Segment(v, 1.2, 2.0);
    assert [s1, s2][..1] == [s1];
    assert [s1][..0] == [];
    assert JoinedTexts([s1]) == [] + s1.text == s1.text;
    assert JoinedTexts([s1, s2]) == (w + " ") + v;
    var t := w + " " + v;
    assert t[0] == w[0] && t[|t| - 1] == v[|v| - 1];
    StripOfTrimmed(t);
  }

  /** The transcript is trimmed: it neither starts nor ends with whitespace, and stripping it again changes nothing. */
  lemma TranscriptTrimmed(segs: seq<Segment>)
    ensures var t := Transcript(segs);
      Strip(t) == t && (t != [] ==> !IsSpace(t[0]) && !IsSpace(t[|t| - 1]))
  {
    StripIdempotent(JoinedTexts(segs));
    StripIsTrimmedSlice(JoinedTexts(segs));
  }
}
