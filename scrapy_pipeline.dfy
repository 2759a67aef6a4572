/**
 * src/ccaudio/download/scrapy_pipelines.py: `AudioProcessingPipeline`, the scrapy item
 * pipeline that turns a downloaded audio item into a cut named by the item's own id
 * and writes it, unprocessed, to a Shar writer when one is open. A processed item
 * loses its audio bytes and is marked "processed"; every failure becomes `DropItem`.
 */
module ScrapyPipelines {
  import opened Wrappers
  import opened Text
  import opened Lhotse
  import opened Ingest

  /** The item fields `process_item` indexes directly: a missing one raises KeyError. */
  const RequiredFields: set<string> := {"audio_url", "item_id", "language", "title", "description", "page_url"}

  /** The cut built for an item whose recording was loaded: every id derives from `item_id`. */
  function ItemCut(fields: map<string, string>, rec: Recording): (c: CutManifest)
    requires RequiredFields <= fields.Keys
    ensures c.id == fields["item_id"] && c.recording.id == "recording_" + fields["item_id"]
    ensures |c.supervisions| == 1 && c.supervisions[0].id == "segment_" + fields["item_id"]
    ensures c.supervisions[0].recordingId == c.recording.id && c.supervisions[0].language == Some(fields["language"])
    ensures c.IsMono() <==> |rec.channelIds| == 1
    ensures c.start == 0.0 && c.duration == rec.duration
  {
    BuildCut(fields["item_id"], rec, fields["language"],
             Provenance(fields["audio_url"], fields["title"], fields["description"], fields["page_url"]))
  }

  /** What one call of `process_item` does: the cuts handed to the writer, and whether the item is returned or dropped. */
  datatype Outcome = Outcome(writes: seq<CutManifest>, verdict: Verdict)

  /**
   * `process_item(item)` from whether a writer is open: the loaded item's cut is
   * written when there is a writer; `writeFails` says whether that write raises.
   */
  function Attempt(writerOpen: bool, fields: map<string, string>, audio: Option<seq<byte>>,
                   dec: Decoder, writeFails: bool): Outcome
  {
    if !(RequiredFields <= fields.Keys) || audio.None? then Outcome([], Dropped)
    else match Load(fields["audio_url"], ContentType(fields), audio.value, fields["item_id"], dec)
      case None => Outcome([], Dropped)
      case Some(rec) =>
        if !writerOpen then Outcome([], Returned)
        else if writeFails then Outcome([], Dropped)
        else Outcome([ItemCut(fields, rec)], Returned)
  }

  /**
   * At most one cut is written per item, and only to an open writer: it is the cut
   * named after `item_id`. Whether the item is returned does not depend on the
   * writer being open, only on loading succeeding and the write (if any) not raising.
   */
  lemma AttemptWritesAtMostOne(writerOpen: bool, fields: map<string, string>, audio: Option<seq<byte>>,
                               dec: Decoder, writeFails: bool)
    ensures var o := Attempt(writerOpen, fields, audio, dec, writeFails);
      && |o.writes| <= 1
      && (o.writes != [] ==> writerOpen && o.verdict == Returned)
      && (o.writes != [] ==>
            && RequiredFields <= fields.Keys && audio.Some?
            && var rec := Load(fields["audio_url"], ContentType(fields), audio.value, fields["item_id"], dec);
               rec.Some? && o.writes == [ItemCut(fields, rec.value)] && o.writes[0].id == fields["item_id"])
      && (o.verdict == Returned <==>
            RequiredFields <= fields.Keys && audio.Some?
            && Load(fields["audio_url"], ContentType(fields), audio.value, fields["item_id"], dec).Some?
            && !(writerOpen && writeFails))
      && (writerOpen && o.verdict == Returned ==> |o.writes| == 1)
  {
  }

  /** A scrapy pipeline object and its Shar writer (None until `open_spider`). */
  class AudioProcessingPipeline {
    var writer: Option<SharWriter>

    constructor ()
      ensures writer.None?
    {
      writer := None;
    }

    /** `open_spider`: a fresh, open Shar writer. */
    method OpenSpider()
      modifies this
      ensures writer == Some(SharWriter([], false))
    {
      writer := Some(SharWriter([], false));
    }

    /** `close_spider`: closes the writer when there is one. */
    method CloseSpider()
      modifies this
      ensures writer == if old(writer).Some? then Some(old(writer).value.(closed := true)) else None
    {
      if writer.Some? {
        writer := Some(writer.value.(closed := true));
      }
    }

    /**
     * `process_item(item)`: a returned item has lost `audio_data` and gained
     * `status = "processed"`; a dropped one (`DropItem`) is left as it was. The writer
     * receives the cuts of `Attempt`.
     */
    method ProcessItem(item: Item, dec: Decoder, writeFails: bool) returns (r: Result<Item, string>)
      modifies this, item
      ensures var o := Attempt(old(writer).Some?, old(item.fields), old(item.audioData), dec, writeFails);
        && (o.writes == [] ==> writer == old(writer))
        && (o.writes != [] ==> old(writer).Some? && writer == Some(old(writer).value.(written := old(writer).value.written + o.writes)))
        && (r.Ok? <==> o.verdict == Returned)
      ensures r.Ok? ==> r.value == item && item.audioData.None? && item.fields == old(item.fields)["status" := "processed"]
      ensures r.Err? ==> r.error == "DropItem" && item.audioData == old(item.audioData) && item.fields == old(item.fields)
    {
      if !(RequiredFields <= item.fields.Keys) || item.audioData.None? {
        return Err("DropItem");
      }
      var fields := item.fields;
      var rec := LoadFile(fields["audio_url"], ContentType(fields), item.audioData.value, fields["item_id"], dec);
      if rec.None? {
        return Err("DropItem");
      }
      var cut := ItemCut(fields, rec.value);
      if writer.Some? {
        if writeFails {
          return Err("DropItem");
        }
        writer := Some(writer.value.(written := writer.value.written + [cut]));
      }
      item.audioData := None;
      item.fields := item.fields["status" := "processed"];
      return Ok(item);
    }
  }
}
