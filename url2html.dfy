/**
 * src/ccaudio/extract_url/url2html.py: keeping the Japanese HTML responses of a WARC
 * file. The `lang="ja"` regular expression is modelled as a scan with an independent
 * existential definition beside it; byte decoding and encoding detection are
 * parameters; the record loop of `process_warc` filters and collects.
 */
module Url2Html {
  import opened Wrappers
  import opened Text

  // ---------------------------------------------------------------------------
  // The `lang="ja"` pattern: `<html[^>]*lang=["']?ja["']?`, case-insensitively

  /** `s` holds the lower-case ASCII literal `lit` at `i`, ignoring ASCII case. */
  predicate LiteralAt(s: string, i: int, lit: string) {
    0 <= i && i + |lit| <= |s| && forall k :: 0 <= k < |lit| ==> LowerChar(s[i + k]) == lit[k]
  }

  predicate IsQuote(c: char) {
    c == '"' || c == '\''
  }

  /** `lang=["']?ja` starts at `p`; the trailing optional quote never affects a match. */
  predicate LangJaAt(s: string, p: int) {
    && LiteralAt(s, p, "lang=")
    && (LiteralAt(s, p + 5, "ja") || (p + 5 < |s| && IsQuote(s[p + 5]) && LiteralAt(s, p + 6, "ja")))
  }

  /** No '>' in `s[from..to]`: what `[^>]*` can span. */
  predicate NoCloseBetween(s: string, from: int, to: int)
    requires 0 <= from <= to <= |s|
  {
    forall k :: from <= k < to ==> s[k] != '>'
  }

  /** The pattern matches with `<html` at `i` and `lang=` at `p`. */
  predicate JaMatch(s: string, i: int, p: int) {
    && LiteralAt(s, i, "<html") && i + 5 <= p <= |s|
    && NoCloseBetween(s, i + 5, p) && LangJaAt(s, p)
  }

  /** From `p` on, `lang=ja` follows before any '>'. */
  function LangJaBefore(s: string, p: nat): bool
    decreases |s| - p
  {
    if p >= |s| then false
    else if LangJaAt(s, p) then true
    else if s[p] == '>' then false
    else LangJaBefore(s, p + 1)
  }

  /** Some `<html` at or after `i` is followed, inside its tag, by `lang=ja`. */
  function SearchFrom(s: string, i: nat): bool
    decreases |s| - i
  {
    if i >= |s| then false
    else if LiteralAt(s, i, "<html") && LangJaBefore(s, i + 5) then true
    else SearchFrom(s, i + 1)
  }

  /** `is_japanese_html_raw(html_str)`: `LANG_JA_REGEX.search(html_str)` finds a match. */
  function IsJapaneseHtmlRaw(s: string): bool {
    SearchFrom(s, 0)
  }

  lemma {:induction false} LangJaBeforeIff(s: string, p: nat)
    requires p <= |s|
    ensures LangJaBefore(s, p) <==> exists q :: p <= q <= |s| && NoCloseBetween(s, p, q) && LangJaAt(s, q)
    decreases |s| - p
  {
    if p == |s| {
      forall q | p <= q <= |s| && NoCloseBetween(s, p, q) ensures !LangJaAt(s, q) {
        assert !LiteralAt(s, q, "lang=");
      }
      assert !LangJaBefore(s, p);
    } else if LangJaAt(s, p) {
      assert NoCloseBetween(s, p, p);
      assert LangJaBefore(s, p);
    } else if s[p] == '>' {
      forall q | p <= q <= |s| && NoCloseBetween(s, p, q) ensures !LangJaAt(s, q) {
        assert q == p;
      }
      assert !LangJaBefore(s, p);
    } else {
      assert LangJaBefore(s, p) == LangJaBefore(s, p + 1);
      LangJaBeforeIff(s, p + 1);
      if exists q :: p + 1 <= q <= |s| && NoCloseBetween(s, p + 1, q) && LangJaAt(s, q) {
        var q :| p + 1 <= q <= |s| && NoCloseBetween(s, p + 1, q) && LangJaAt(s, q);
        assert NoCloseBetween(s, p, q);
      }
      if exists q :: p <= q <= |s| && NoCloseBetween(s, p, q) && LangJaAt(s, q) {
        var q :| p <= q <= |s| && NoCloseBetween(s, p, q) && LangJaAt(s, q);
        assert q != p;
        assert NoCloseBetween(s, p + 1, q);
      }
    }
  }

  lemma {:induction false} SearchFromIff(s: string, i: nat)
    requires i <= |s|
    ensures SearchFrom(s, i) <==> exists j, q :: i <= j && JaMatch(s, j, q)
    decreases |s| - i
  {
    if i < |s| {
      SearchFromIff(s, i + 1);
      if LiteralAt(s, i, "<html") {
        LangJaBeforeIff(s, i + 5);
        if LangJaBefore(s, i + 5) {
          var q :| i + 5 <= q <= |s| && NoCloseBetween(s, i + 5, q) && LangJaAt(s, q);
          assert JaMatch(s, i, q);
        }
      }
      if exists j, q :: i <= j && JaMatch(s, j, q) {
        var j, q :| i <= j && JaMatch(s, j, q);
        if j == i {
          LangJaBeforeIff(s, i + 5);
        } else {
          assert i + 1 <= j;
        }
      }
    } else {
      forall j, q | i <= j ensures !JaMatch(s, j, q) {
      }
    }
  }

  /**
   * The scan agrees with the pattern: a match is `<html`, then characters other than
   * '>', then `lang=`, an optional quote and `ja`, all without regard to ASCII case.
   * So `lang` must sit inside the opening `html` tag.
   */
  lemma IsJapaneseHtmlRawIff(s: string)
    ensures IsJapaneseHtmlRaw(s) <==> exists i, p :: JaMatch(s, i, p)
  {
    SearchFromIff(s, 0);
  }

  /** `lang="ja-JP"` matches: the rest of the value is not looked at. */
  lemma MatchesRegionTag()
    ensures IsJapaneseHtmlRaw("<html lang=\"ja-JP\">")
  {
    var s := "<html lang=\"ja-JP\">";
    assert LiteralAt(s, 0, "<html");
    assert LiteralAt(s, 6, "lang=");
    assert IsQuote(s[11]) && LiteralAt(s, 12, "ja");
    assert JaMatch(s, 0, 6);
    IsJapaneseHtmlRawIff(s);
  }

  /** Upper case matches too. */
  lemma MatchesUpperCase()
    ensures IsJapaneseHtmlRaw("<HTML LANG=JA>")
  {
    var s := "<HTML LANG=JA>";
    assert LiteralAt(s, 0, "<html");
    assert LiteralAt(s, 6, "lang=");
    assert LiteralAt(s, 11, "ja");
    assert JaMatch(s, 0, 6);
    IsJapaneseHtmlRawIff(s);
  }

  /** `lang` after the end of the opening tag does not count. */
  lemma LangOutsideTagRejected(s: string, i: nat, p: nat)
    requires i + 5 <= p <= |s| && LangJaAt(s, p)
    requires exists k :: i + 5 <= k < p && s[k] == '>'
    ensures !JaMatch(s, i, p)
  {
  }

  // ---------------------------------------------------------------------------
  // Decoding

  /**
   * `bytes.decode(encoding)` (None when it raises, including for an unknown
   * encoding) and chardet's guess (None when it has none).
   */
  datatype Codecs = Codecs(decode: (seq<byte>, string) -> Option<string>, detect: seq<byte> -> Option<string>)

  /** The bytes chardet is shown: the first 2048. */
  function DetectWindow(raw: seq<byte>): (w: seq<byte>)
    ensures |w| <= 2048 && w <= raw
    ensures |w| == 2048 || w == raw
  {
    if |raw| <= 2048 then raw else raw[..2048]
  }

  /** The fallback encoding: chardet's guess, or "utf-8" when it is missing or empty. */
  function FallbackEncoding(raw: seq<byte>, codecs: Codecs): string {
    var guess := codecs.detect(DetectWindow(raw));
    if guess.Some? && guess.value != "" then guess.value else "utf-8"
  }

  /** `try_decode(raw_html)`: UTF-8 first, then the detected encoding; None if that fails too. */
  function TryDecode(raw: seq<byte>, codecs: Codecs): Option<string> {
    var utf8 := codecs.decode(raw, "utf-8");
    if utf8.Some? then utf8 else codecs.decode(raw, FallbackEncoding(raw, codecs))
  }

  /**
   * Valid UTF-8 is decoded as UTF-8; without a usable guess the second attempt is
   * UTF-8 again and fails the same way; the guess depends only on the first 2048 bytes.
   */
  lemma TryDecodeCases(raw: seq<byte>, raw': seq<byte>, codecs: Codecs)
    ensures codecs.decode(raw, "utf-8").Some? ==> TryDecode(raw, codecs) == codecs.decode(raw, "utf-8")
    ensures var guess := codecs.detect(DetectWindow(raw));
      (guess.None? || guess == Some("")) ==> TryDecode(raw, codecs) == codecs.decode(raw, "utf-8")
    ensures |raw| >= 2048 && |raw'| >= 2048 && raw[..2048] == raw'[..2048]
            ==> FallbackEncoding(raw, codecs) == FallbackEncoding(raw', codecs)
  {
    if |raw| >= 2048 && |raw'| >= 2048 && raw[..2048] == raw'[..2048] {
      assert DetectWindow(raw) == raw[..2048] && DetectWindow(raw') == raw'[..2048];
    }
  }

  // ---------------------------------------------------------------------------
  // The record loop of `process_warc`

  /** A WARC record as `process_warc` reads it. */
  datatype WarcRecord = WarcRecord(
    recType: string,
    contentType: Option<string>,
    targetUri: Option<string>,
    payload: seq<byte>)

  datatype Page = Page(url: Option<string>, html: string)

  /** The page a record contributes: a "response" with an HTML content type that decodes and matches. */
  function Kept(r: WarcRecord, codecs: Codecs): Option<Page> {
    if r.recType != "response" then None
    else if r.contentType.None? || r.contentType.value == "" || !Contains(r.contentType.value, "html") then None
    else match TryDecode(r.payload, codecs)
      case None => None
      case Some(html) => if IsJapaneseHtmlRaw(html) then Some(Page(r.targetUri, html)) else None
  }

  function KeptPages(records: seq<WarcRecord>, codecs: Codecs): seq<Page> {
    if records == [] then []
    else
      var last := Kept(records[|records| - 1], codecs);
      KeptPages(records[..|records| - 1], codecs) + (if last.Some? then [last.value] else [])
  }

  /** The filtering loop of `process_warc(input_path, output_path)`; streaming and writing are left out. */
  method ProcessWarc(records: seq<WarcRecord>, codecs: Codecs) returns (results: seq<Page>)
    ensures results == KeptPages(records, codecs)
  {
    results := [];
    for n := 0 to |records|
      invariant results == KeptPages(records[..n], codecs)
    {
      var record := records[n];
      assert records[..n + 1][..n] == records[..n];
      if record.recType != "response" {
        continue;
      }
      var contentType := record.contentType;
      if contentType.None? || contentType.value == "" || !Contains(contentType.value, "html") {
        continue;
      }
      var url := record.targetUri;
      var html := TryDecode(record.payload, codecs);
      if html.None? {
        continue;
      }
      if !IsJapaneseHtmlRaw(html.value) {
        continue;
      }
      results := results + [Page(url, html.value)];
    }
    assert records[..|records|] == records;
  }

  /** Record `r` yields page `pg`: a response with an HTML content type whose payload decodes to `pg.html`. */
  predicate Yields(r: WarcRecord, pg: Page, codecs: Codecs) {
    && r.recType == "response"
    && r.contentType.Some? && Contains(r.contentType.value, "html")
    && TryDecode(r.payload, codecs) == Some(pg.html) && r.targetUri == pg.url
  }

  /**
   * Every kept page comes from a response record with an HTML content type, is its
   * decoded payload, and holds `<html` followed inside the tag by `lang=ja`.
   * Records are kept independently, in order, at most one page each.
   */
  lemma {:induction false} KeptPagesSpec(records: seq<WarcRecord>, codecs: Codecs)
    ensures |KeptPages(records, codecs)| <= |records|
    ensures forall pg :: pg in KeptPages(records, codecs) ==>
      && (exists i, p :: JaMatch(pg.html, i, p))
      && exists n :: 0 <= n < |records| && Yields(records[n], pg, codecs)
  {
    if records != [] {
      var init := records[..|records| - 1];
      KeptPagesSpec(init, codecs);
      forall pg | pg in KeptPages(records, codecs)
        ensures exists i, p :: JaMatch(pg.html, i, p)
        ensures exists n :: 0 <= n < |records| && Yields(records[n], pg, codecs)
      {
        IsJapaneseHtmlRawIff(pg.html);
        if pg in KeptPages(init, codecs) {
          var n :| 0 <= n < |init| && Yields(init[n], pg, codecs);
          assert records[n] == init[n];
        } else {
          assert Yields(records[|records| - 1], pg, codecs);
        }
      }
    }
  }

  /** The loop's result over two runs of records is the results of each, in order. */
  lemma {:induction false} KeptPagesAppend(a: seq<WarcRecord>, b: seq<WarcRecord>, codecs: Codecs)
    decreases |b|
    ensures KeptPages(a + b, codecs) == KeptPages(a, codecs) + KeptPages(b, codecs)
  {
    if b == [] {
      assert a + b == a;
    } else {
      var init := b[..|b| - 1];
      KeptPagesAppend(a, init, codecs);
      assert (a + b)[..|a + b| - 1] == a + init;
      assert (a + b)[|a + b| - 1] == b[|b| - 1];
    }
  }

  /**
   * Conversely, a response record with an HTML content type whose payload decodes to
   * Japanese HTML contributes its page, between the pages of the records before it and
   * those of the records after it.
   */
  lemma KeptPagesComplete(records: seq<WarcRecord>, n: nat, pg: Page, codecs: Codecs)
    requires n < |records| && Yields(records[n], pg, codecs) && IsJapaneseHtmlRaw(pg.html)
    ensures KeptPages(records, codecs) == KeptPages(records[..n], codecs) + [pg] + KeptPages(records[n + 1..], codecs)
    ensures pg in KeptPages(records, codecs)
  {
    var r := records[n];
    assert Kept(r, codecs) == Some(pg);
    assert KeptPages([r], codecs) == [pg] by {
      assert [r][..0] == [];
    }
    assert records == records[..n] + [r] + records[n + 1..];
    KeptPagesAppend(records[..n] + [r], records[n + 1..], codecs);
    KeptPagesAppend(records[..n], [r], codecs);
    var before, after := KeptPages(records[..n], codecs), KeptPages(records[n + 1..], codecs);
    assert KeptPages(records, codecs)[|before|] == pg;
  }
}
