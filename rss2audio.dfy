/**
 * src/ccaudio/extract_url/rss2audio.py: recognising an RSS or Atom feed in a WARC
 * response and pulling one audio entry per `<item>` out of it. The XML parse is not
 * modelled: a feed arrives as the elements `extract_audio_urls_from_rss` looks up.
 */
module Rss2Audio {
  import opened Wrappers
  import opened Text

  /** The byte strings `b"<?xml"`, `b"<rss"` and `b"<feed"`. */
  const XmlDeclBytes: seq<byte> := [0x3C, 0x3F, 0x78, 0x6D, 0x6C]
  const RssBytes: seq<byte> := [0x3C, 0x72, 0x73, 0x73]
  const FeedBytes: seq<byte> := [0x3C, 0x66, 0x65, 0x65, 0x64]

  /**
   * `is_rss_feed(http_headers, payload)`: the Content-Type header (None when absent)
   * mentions "rss+xml", "atom+xml" or "xml", or the stripped payload opens with
   * `<?xml`, `<rss` or `<feed`.
   */
  predicate IsRssFeed(contentType: Option<string>, payload: seq<byte>) {
    var ctype := if contentType.Some? then contentType.value else "";
    || Contains(ctype, "rss+xml") || Contains(ctype, "atom+xml") || Contains(ctype, "xml")
    || StartsWith(StripBytes(payload), XmlDeclBytes)
    || StartsWith(StripBytes(payload), RssBytes)
    || StartsWith(StripBytes(payload), FeedBytes)
  }

  /** Whatever contains `a + b` contains `b`. */
  lemma ContainsTail(s: string, a: string, b: string)
    requires Contains(s, a + b)
    ensures Contains(s, b)
  {
    ContainsIff(s, a + b);
    ContainsIff(s, b);
    var i :| OccursAt(s, a + b, i);
    assert s[i + |a|..i + |a| + |b|] == (a + b)[|a|..];
    assert OccursAt(s, b, i + |a|);
  }

  /**
   * The "rss+xml" and "atom+xml" tests are subsumed by the "xml" test: a feed is a
   * Content-Type mentioning "xml", or else a payload opening with one of the three
   * markers.
   */
  lemma IsRssFeedIff(contentType: Option<string>, payload: seq<byte>)
    ensures var ctype := if contentType.Some? then contentType.value else "";
      IsRssFeed(contentType, payload) <==>
        || Contains(ctype, "xml")
        || StartsWith(StripBytes(payload), XmlDeclBytes)
        || StartsWith(StripBytes(payload), RssBytes)
        || StartsWith(StripBytes(payload), FeedBytes)
  {
    var ctype := if contentType.Some? then contentType.value else "";
    if Contains(ctype, "rss+xml") {
      assert "rss+xml" == "rss+" + "xml";
      ContainsTail(ctype, "rss+", "xml");
    }
    if Contains(ctype, "atom+xml") {
      assert "atom+xml" == "atom+" + "xml";
      ContainsTail(ctype, "atom+", "xml");
    }
  }

  // ---------------------------------------------------------------------------
  // Entries

  /** An XML element as the extraction reads it: its attributes and its text. */
  datatype Element = Element(attrs: map<string, string>, text: string)

  /** An `<item>`: its first `enclosure`, `media:content`, `title` and `description` children, if any. */
  datatype RssItem = RssItem(
    enclosure: Option<Element>,
    media: Option<Element>,
    title: Option<Element>,
    description: Option<Element>)

  /**
   * A parsed feed: the text of the `<language>` element inside `<channel>` (None
   * without a channel or without that element), and the `<item>`s in document order.
   */
  datatype Feed = Feed(languageText: Option<string>, items: seq<RssItem>)

  datatype Entry = Entry(audioUrl: string, title: string, description: string, language: string)

  /** The channel language, stripped, "" when absent. */
  function FeedLanguage(feed: Feed): string {
    if feed.languageText.Some? then Strip(feed.languageText.value) else ""
  }

  /** `element.get("url")` tested for truthiness: present and non-empty. */
  function UrlAttr(e: Option<Element>): Option<string> {
    if e.Some? && "url" in e.value.attrs && e.value.attrs["url"] != "" then Some(e.value.attrs["url"]) else None
  }

  /** The URL candidate of an item: the enclosure's, else the media:content's. */
  function ItemUrl(item: RssItem): Option<string> {
    if UrlAttr(item.enclosure).Some? then UrlAttr(item.enclosure) else UrlAttr(item.media)
  }

  const RssExtensions: seq<string> := [".mp3", ".m4a", ".aac", ".wav", ".ogg", ".flac"]

  /**
   * `re.search(r"\.(mp3|m4a|aac|wav|ogg|flac)$", url)`: case-sensitive, and `$` also
   * matches just before a final newline.
   */
  predicate HasRssAudioSuffix(url: string) {
    exists k :: 0 <= k < |RssExtensions| && (EndsWith(url, RssExtensions[k]) || EndsWith(url, RssExtensions[k] + "\n"))
  }

  /** The text of an optional element, stripped, or "". */
  function TextOr(e: Option<Element>): string {
    if e.Some? then Strip(e.value.text) else ""
  }

  /** The entry one item contributes, if any. */
  function ItemEntry(item: RssItem, language: string): Option<Entry> {
    var url := ItemUrl(item);
    if url.Some? && HasRssAudioSuffix(url.value)
    then Some(Entry(url.value, TextOr(item.title), TextOr(item.description), language))
    else None
  }

  /** The entries of a run of items, in document order. */
  function Entries(items: seq<RssItem>, language: string): seq<Entry> {
    if items == [] then []
    else
      var last := ItemEntry(items[|items| - 1], language);
      Entries(items[..|items| - 1], language) + (if last.Some? then [last.value] else [])
  }

  /** One more item adds its entry, if any, after those of the items before it. */
  lemma EntriesStep(items: seq<RssItem>, n: nat, language: string)
    requires n < |items|
    ensures Entries(items[..n + 1], language) ==
      Entries(items[..n], language) + (if ItemEntry(items[n], language).Some? then [ItemEntry(items[n], language).value] else [])
  {
    assert items[..n + 1][..n] == items[..n];
  }

  /**
   * The body of the `<item>` loop of `extract_audio_urls_from_rss`: the enclosure's
   * URL, else the media:content's, kept when it ends in an audio suffix, with the
   * stripped title and description and the channel language ("" when absent or empty).
   */
  method ReadItem(item: RssItem, language: Option<string>) returns (entry: Option<Entry>)
    ensures entry == ItemEntry(item, if language.Some? && language.value != "" then language.value else "")
  {
    var url: Option<string> := None;
    if item.enclosure.Some? && "url" in item.enclosure.value.attrs && item.enclosure.value.attrs["url"] != "" {
      url := Some(item.enclosure.value.attrs["url"]);
    } else if item.media.Some? && "url" in item.media.value.attrs && item.media.value.attrs["url"] != "" {
      url := Some(item.media.value.attrs["url"]);
    }
    assert url == ItemUrl(item);
    if url.Some? && HasRssAudioSuffix(url.value) {
      var title := if item.title.Some? then Strip(item.title.value.text) else "";
      var description := if item.description.Some? then Strip(item.description.value.text) else "";
      entry := Some(Entry(url.value, title, description, if language.Some? && language.value != "" then language.value else ""));
    } else {
      entry := None;
    }
  }

  /** `extract_audio_urls_from_rss(xml_content)`, one `<item>` at a time. */
  method ExtractAudioUrlsFromRss(feed: Feed) returns (entries: seq<Entry>)
    ensures entries == Entries(feed.items, FeedLanguage(feed))
  {
    var language := if feed.languageText.Some? then Some(Strip(feed.languageText.value)) else None;
    assert (if language.Some? && language.value != "" then language.value else "") == FeedLanguage(feed);
    entries := [];
    for n := 0 to |feed.items|
      invariant entries == Entries(feed.items[..n], FeedLanguage(feed))
    {
      var entry := ReadItem(feed.items[n], language);
      EntriesStep(feed.items, n, FeedLanguage(feed));
      if entry.Some? {
        entries := entries + [entry.value];
      }
    }
    assert feed.items[..|feed.items|] == feed.items;
  }

  /** Items contribute independently and in order: the entries of `a + b` are those of `a`, then those of `b`. */
  lemma {:induction false} EntriesAppend(a: seq<RssItem>, b: seq<RssItem>, language: string)
    ensures Entries(a + b, language) == Entries(a, language) + Entries(b, language)
    decreases |b|
  {
    if b == [] {
      assert a + b == a;
    } else {
      var init := b[..|b| - 1];
      EntriesAppend(a, init, language);
      assert (a + b)[..|a + b| - 1] == a + init;
      assert (a + b)[|a + b| - 1] == b[|b| - 1];
    }
  }

  /**
   * At most one entry per item; every entry carries an audio-suffixed URL of some
   * item and the channel language shared by all entries.
   */
  lemma {:induction false} EntriesShape(items: seq<RssItem>, language: string)
    ensures |Entries(items, language)| <= |items|
    ensures forall e :: e in Entries(items, language) ==>
      && HasRssAudioSuffix(e.audioUrl) && e.language == language
      && exists n :: 0 <= n < |items| && ItemUrl(items[n]) == Some(e.audioUrl)
  {
    if items != [] {
      var init := items[..|items| - 1];
      EntriesShape(init, language);
      forall e | e in Entries(items, language)
        ensures exists n :: 0 <= n < |items| && ItemUrl(items[n]) == Some(e.audioUrl)
      {
        if e in Entries(init, language) {
          var n :| 0 <= n < |init| && ItemUrl(init[n]) == Some(e.audioUrl);
          assert items[n] == init[n];
        }
      }
    }
  }

  /**
   * The enclosure wins: an item whose enclosure URL is truthy contributes that URL or
   * nothing, whatever its media:content says; media:content is consulted only when
   * the enclosure gives no URL.
   */
  lemma EnclosurePreferred(item: RssItem, language: string)
    ensures UrlAttr(item.enclosure).Some? ==>
      ItemEntry(item, language).Some? ==> ItemEntry(item, language).value.audioUrl == UrlAttr(item.enclosure).value
    ensures UrlAttr(item.enclosure).Some? && !HasRssAudioSuffix(UrlAttr(item.enclosure).value) ==>
      ItemEntry(item, language).None?
    ensures UrlAttr(item.enclosure).None? ==>
      (ItemEntry(item, language).Some? <==> UrlAttr(item.media).Some? && HasRssAudioSuffix(UrlAttr(item.media).value))
  {
  }

  /** A character that differs `i` places from the end rules out the suffix. */
  lemma NotEndsWithAt(s: string, x: string, i: nat)
    requires 0 < i <= |x| && i <= |s| && s[|s| - i] != x[|x| - i]
    ensures !EndsWith(s, x)
  {
    if |x| <= |s| {
      assert s[|s| - |x|..][|x| - i] == s[|s| - i];
    }
  }

  /** The suffix test is case-sensitive and rejects a query string: `u.mp3` passes, `u.MP3` and `u.mp3?x=1` do not. */
  lemma SuffixExamples(u: string)
    ensures HasRssAudioSuffix(u + ".mp3")
    ensures !HasRssAudioSuffix(u + ".MP3")
    ensures !HasRssAudioSuffix(u + ".mp3?x=1")
  {
    var a, b, c := u + ".mp3", u + ".MP3", u + ".mp3?x=1";
    assert a[|a| - 4..] == RssExtensions[0];
    assert b[|b| - 1] == '3' && b[|b| - 2] == 'P';
    assert c[|c| - 1] == '1';
    forall k | 0 <= k < |RssExtensions|
      ensures !EndsWith(b, RssExtensions[k]) && !EndsWith(b, RssExtensions[k] + "\n")
      ensures !EndsWith(c, RssExtensions[k]) && !EndsWith(c, RssExtensions[k] + "\n")
    {
      var x := RssExtensions[k];
      var xn := x + "\n";
      assert xn[|xn| - 1] == '\n';
      NotEndsWithAt(b, xn, 1);
      NotEndsWithAt(c, xn, 1);
      NotEndsWithAt(c, x, 1);
      if k == 0 {
        NotEndsWithAt(b, x, 2);
      } else {
        NotEndsWithAt(b, x, 1);
      }
    }
  }

}
