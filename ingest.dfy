/**
 * The ingest decisions shared by `CCAudioPipeline.process_item` (src/ccaudio/pipelines.py)
 * and `AudioProcessingPipeline.process_item` (src/ccaudio/download/scrapy_pipelines.py):
 * the temp-file name, the extension, whether to transcode to WAV, and the
 * MonoCut / MultiCut built from the decoded recording.
 */
module Ingest {
  import opened Wrappers
  import opened Text
  import opened Lhotse

  /** `os.path.basename(p)` (POSIX): everything after the last '/'. */
  function Basename(p: string): string {
    p[RFind(p, '/') + 1..]
  }

  /** Some character of `p[lo..hi]` is not a dot. */
  predicate HasNonDot(p: string, lo: int, hi: int)
    requires 0 <= lo && hi <= |p|
  {
    exists k :: lo <= k < hi && p[k] != '.'
  }

  /**
   * `os.path.splitext(p)` (POSIX): the extension starts at the last '.' of the last
   * path component, provided that component has a non-dot character before it.
   */
  function SplitExt(p: string): (string, string) {
    var sep := RFind(p, '/');
    var dot := RFind(p, '.');
    if dot > sep && HasNonDot(p, sep + 1, dot) then (p[..dot], p[dot..]) else (p, "")
  }

  /** splitext is a split: root and extension concatenate back to the path, and an extension is one dotted suffix of the basename. */
  lemma SplitExtShape(p: string)
    ensures SplitExt(p).0 + SplitExt(p).1 == p
    ensures var ext := SplitExt(p).1;
      ext == "" || (ext[0] == '.' && '.' !in ext[1..] && '/' !in ext)
    ensures SplitExt(p).1 != "" ==> EndsWith(Basename(p), SplitExt(p).1) && |SplitExt(p).1| < |Basename(p)|
  {
    var sep := RFind(p, '/');
    var dot := RFind(p, '.');
    if dot > sep && HasNonDot(p, sep + 1, dot) {
      assert SplitExt(p) == (p[..dot], p[dot..]);
      assert Basename(p) == p[sep + 1..];
      var k :| sep + 1 <= k < dot && p[k] != '.';
      DotSplitShape(p, sep, dot);
    } else {
      assert SplitExt(p) == (p, "");
    }
  }

  /**
   * Splitting at the last '.', which lies after the last '/' and is not the first
   * character after it: the extension is one dotted suffix of the last component.
   */
  lemma DotSplitShape(p: string, sep: int, dot: int)
    requires -1 <= sep && sep + 1 < dot < |p| && p[dot] == '.'
    requires forall k :: dot < k < |p| ==> p[k] != '.'
    requires forall k :: sep < k < |p| ==> p[k] != '/'
    ensures p[..dot] + p[dot..] == p
    ensures var ext := p[dot..]; ext[0] == '.' && '.' !in ext[1..] && '/' !in ext
    ensures EndsWith(p[sep + 1..], p[dot..]) && |p[dot..]| < |p[sep + 1..]|
  {
    var ext, base := p[dot..], p[sep + 1..];
    assert ext[1..] == p[dot + 1..];
    forall i | 1 <= i < |ext| ensures ext[i] != '.' {
      assert ext[i] == p[dot + i];
    }
    forall i | 0 <= i < |ext| ensures ext[i] != '/' {
      assert ext[i] == p[dot + i];
    }
    assert base[|base| - |ext|..] == ext;
  }

  /** The extension `process_item` settles on: the URL path's, else one implied by Content-Type. */
  function Extension(urlPath: string, contentType: string): string {
    var ext := SplitExt(urlPath).1;
    if ext != "" then ext
    else if Contains(contentType, "audio/mpeg") then ".mp3"
    else if Contains(contentType, "audio/wav") then ".wav"
    else if Contains(contentType, "audio/flac") then ".flac"
    else ".mp3"
  }

  /** Whether the downloaded file is re-encoded to WAV before decoding (case-sensitive). */
  predicate NeedsTranscode(ext: string) {
    ext != ".wav" && ext != ".flac" && ext != ".mp3"
  }

  /**
   * The URL wins: Content-Type is consulted only when the path has no extension, and
   * then it yields one of .mp3, .wav, .flac, so a Content-Type-derived extension never
   * triggers a transcode.
   */
  lemma ExtensionRule(urlPath: string, contentType: string)
    ensures SplitExt(urlPath).1 != "" ==> Extension(urlPath, contentType) == SplitExt(urlPath).1
    ensures SplitExt(urlPath).1 == "" ==>
      Extension(urlPath, contentType) in {".mp3", ".wav", ".flac"}
      && !NeedsTranscode(Extension(urlPath, contentType))
      && (Contains(contentType, "audio/mpeg") ==> Extension(urlPath, contentType) == ".mp3")
    ensures Extension(urlPath, contentType) != "" && Extension(urlPath, contentType)[0] == '.'
  {
    SplitExtShape(urlPath);
  }

  /** Transcoding is decided on the exact spelling: ".MP3" and ".m4a" are both converted, ".mp3" is not. */
  lemma TranscodeIsCaseSensitive()
    ensures NeedsTranscode(".MP3") && NeedsTranscode(".m4a") && NeedsTranscode(".")
    ensures !NeedsTranscode(".mp3") && !NeedsTranscode(".wav") && !NeedsTranscode(".flac")
  {
  }

  /** The name of the temp file: the URL path's basename, or "<id>.audio" when that is empty. */
  function TempFileName(urlPath: string, id: string): (name: string)
    ensures name != ""
    ensures '/' !in Basename(urlPath) && EndsWith(urlPath, Basename(urlPath))
    ensures Basename(urlPath) != "" ==> name == Basename(urlPath)
    ensures Basename(urlPath) == "" ==> name == id + ".audio"
  {
    var b := Basename(urlPath);
    if b == "" then id + ".audio" else b
  }

  /** `PurePath(name).suffix`: from the last '.', unless that dot starts or ends the name. */
  function Suffix(name: string): (s: string)
    ensures EndsWith(name, s) && (s == "" || s[0] == '.')
  {
    var i := RFind(name, '.');
    if 0 < i < |name| - 1 then name[i..] else ""
  }

  /** `PurePath(name).with_suffix(suffix)`: the old suffix replaced, or the new one appended. */
  function WithSuffix(name: string, suffix: string): (r: string)
    ensures EndsWith(r, suffix)
    ensures Suffix(name) == "" ==> r == name + suffix
    ensures r == name[..|name| - |Suffix(name)|] + suffix
  {
    var current := Suffix(name);
    name[..|name| - |current|] + suffix
  }

  /**
   * The outcomes of the calls the ingest steps make that this model does not contain:
   * the path of the parsed URL, whether writing the temp file raises, pydub's
   * conversion of the file to WAV (None when it raises), and `Recording.from_file`
   * followed by `move_to_memory` (None when it raises).
   */
  datatype Decoder = Decoder(
    urlPath: string -> string,
    tmpWriteFails: bool,
    transcode: (seq<byte>, string) -> Option<seq<byte>>,
    decode: (string, seq<byte>) -> Option<Recording>)

  /** `item.get("content_type", "")`. */
  function ContentType(fields: map<string, string>): string {
    if "content_type" in fields then fields["content_type"] else ""
  }

  /**
   * The recording the ingest steps load from the item's bytes: the temp file is named
   * after the URL, files whose extension is not .wav/.flac/.mp3 are re-encoded to a
   * ".wav" file next to it, and the result is decoded. None when any step raises.
   */
  function Load(url: string, contentType: string, data: seq<byte>, id: string, dec: Decoder): Option<Recording> {
    var path := dec.urlPath(url);
    var name := TempFileName(path, id);
    if dec.tmpWriteFails then None
    else
      var ext := Extension(path, contentType);
      if !NeedsTranscode(ext) then dec.decode(name, data)
      else
        match dec.transcode(data, ext[1..])
        case None => None
        case Some(wav) => dec.decode(WithSuffix(name, ".wav"), wav)
  }

  /**
   * The ingest steps as both `process_item`s run them, rebinding the extension and the
   * temp path as they go.
   */
  method LoadFile(url: string, contentType: string, data: seq<byte>, id: string, dec: Decoder)
    returns (recording: Option<Recording>)
    ensures recording == Load(url, contentType, data, id, dec)
  {
    var path := dec.urlPath(url);
    var filename := Basename(path);
    if filename == "" {
      filename := id + ".audio";
    }
    var tmpPath := filename;
    if dec.tmpWriteFails {
      return None;
    }
    var extension := SplitExt(path).1;
    if extension == "" {
      if Contains(contentType, "audio/mpeg") {
        extension := ".mp3";
      } else if Contains(contentType, "audio/wav") {
        extension := ".wav";
      } else if Contains(contentType, "audio/flac") {
        extension := ".flac";
      } else {
        extension := ".mp3";
      }
    }
    var bytes := data;
    if extension != ".wav" && extension != ".flac" && extension != ".mp3" {
      ExtensionRule(path, contentType);
      var audio := dec.transcode(data, extension[1..]);
      if audio.None? {
        return None;
      }
      tmpPath := WithSuffix(tmpPath, ".wav");
      bytes := audio.value;
    }
    recording := dec.decode(tmpPath, bytes);
  }

  /** The provenance stored in `cut.custom` by both pipelines. */
  function Provenance(audioUrl: string, title: string, description: string, pageUrl: string): Custom {
    map["audio_url" := Str(audioUrl), "title" := Str(title),
        "description" := Str(description), "page_url" := Str(pageUrl)]
  }

  /** A recording as `Recording.from_file` produces it: channels 0..n-1, positive duration. */
  predicate ValidRecording(r: Recording) {
    |r.channelIds| >= 1 && r.duration > 0.0
    && forall i :: 0 <= i < |r.channelIds| ==> r.channelIds[i] == i
  }

  /** A supervision lies inside the cut's own timeline [0, duration]. */
  predicate WithinCut(s: Supervision, cutDuration: real) {
    0.0 <= s.start && s.start + s.duration <= cutDuration
  }

  /**
   * The cut invariants: the cut is a window of its recording, selects channels the
   * recording has, and every supervision lies within the cut.
   */
  predicate WellFormed(c: CutManifest) {
    && 0.0 <= c.start && c.duration > 0.0 && c.start + c.duration <= c.recording.duration
    && (match c.channel
        case Single(i) => i in c.recording.channelIds
        case Several(ids) => |ids| >= 1 && forall k :: 0 <= k < |ids| ==> ids[k] in c.recording.channelIds)
    && forall k :: 0 <= k < |c.supervisions| ==> WithinCut(c.supervisions[k], c.duration)
  }

  /**
   * The cut `process_item` builds from the decoded recording: recording id
   * "recording_<id>", a single supervision "segment_<id>" over the whole recording
   * with the item's language, and a MonoCut on channel 0 exactly when the recording
   * has one channel, else a MultiCut over all of its channels.
   */
  function BuildCut(id: string, decoded: Recording, language: string, provenance: Custom): (c: CutManifest)
    ensures c.id == id && c.recording == decoded.(id := "recording_" + id)
    ensures c.IsMono() <==> |decoded.channelIds| == 1
    ensures c.IsMono() ==> c.channel == Single(0)
    ensures !c.IsMono() ==> c.channel == Several(decoded.channelIds)
    ensures c.start == 0.0 && c.duration == decoded.duration && c.custom == Some(provenance)
    ensures |c.supervisions| == 1
    ensures var s := c.supervisions[0];
      s.id == "segment_" + id && s.recordingId == "recording_" + id && s.language == Some(language)
      && s.start == 0.0 && s.duration == c.duration
  {
    var rec := decoded.(id := "recording_" + id);
    var sup := NewSupervision("segment_" + id, rec.id, 0.0, rec.duration, Several(rec.channelIds), Some(language));
    var channel := if |rec.channelIds| == 1 then Single(0) else Several(rec.channelIds);
    CutManifest(id, 0.0, rec.duration, channel, rec, [sup], Some(provenance))
  }

  /** Every cut built from a recording that `from_file` can produce satisfies the cut invariants. */
  lemma BuildCutWellFormed(id: string, decoded: Recording, language: string, provenance: Custom)
    requires ValidRecording(decoded)
    ensures WellFormed(BuildCut(id, decoded, language, provenance))
  {
    var c := BuildCut(id, decoded, language, provenance);
    assert decoded.channelIds[0] == 0;
    assert c.supervisions[0].start == 0.0;
  }
}
