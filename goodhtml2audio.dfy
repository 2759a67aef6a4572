/**
 * src/ccaudio/extract_url/goodhtml2audio.py: finding audio URLs in an HTML page.
 * URL validity and joining, the audio-suffix test, the licence and surrounding-text
 * lookups, and the de-duplicating collection of (audio URL, description, licence)
 * triples in discovery order. BeautifulSoup's tree walk is not modelled: the tags it
 * finds arrive as values, each with the attributes and texts the code reads.
 */
module GoodHtml2Audio {
  import opened Wrappers
  import opened Text

  // ---------------------------------------------------------------------------
  // URLs

  /** The components of `urlparse(url)` that `is_valid_url` inspects. */
  datatype ParsedUrl = ParsedUrl(scheme: string, netloc: string, path: string)

  /** urllib's `urlparse` (None when it raises) and `urljoin` (None when it raises). */
  datatype UrlLib = UrlLib(parse: string -> Option<ParsedUrl>, join: (string, string) -> Option<string>)

  /** `is_valid_url(url)`: False when parsing raises or scheme, netloc and path are all empty. */
  predicate IsValidUrl(url: string, lib: UrlLib) {
    match lib.parse(url)
    case None => false
    case Some(p) => p.scheme != "" || p.netloc != "" || p.path != ""
  }

  predicate IsAbsolute(url: string) {
    StartsWith(url, "http://") || StartsWith(url, "https://")
  }

  /**
   * `safe_urljoin(base_url, url)`: an absolute http(s) URL is kept as it is, a
   * relative one is joined to a non-empty base, and a result that is not a valid URL
   * (or a join that raises) gives None.
   */
  function SafeUrljoin(base: string, url: string, lib: UrlLib): Option<string> {
    if IsAbsolute(url) then (if IsValidUrl(url, lib) then Some(url) else None)
    else if base != "" then
      match lib.join(base, url)
      case None => None
      case Some(joined) => if IsValidUrl(joined, lib) then Some(joined) else None
    else if IsValidUrl(url, lib) then Some(url) else None
  }

  /**
   * Every URL `safe_urljoin` returns is valid; it is the input itself unless the
   * input was relative and the base non-empty, in which case it is urljoin's result.
   */
  lemma SafeUrljoinResult(base: string, url: string, lib: UrlLib)
    ensures var r := SafeUrljoin(base, url, lib);
      && (r.Some? ==> IsValidUrl(r.value, lib))
      && (IsAbsolute(url) || base == "" ==> (r.Some? <==> IsValidUrl(url, lib)) && (r.Some? ==> r.value == url))
      && (!IsAbsolute(url) && base != "" ==> (r.Some? ==> lib.join(base, url) == r))
  {
  }

  // ---------------------------------------------------------------------------
  // The audio-suffix test

  const AudioExtensions: seq<string> := [".mp3", ".wav", ".ogg", ".flac", ".m4a", ".aac"]

  /** Where a non-multiline `$` matches: the end, or just before a final newline. */
  function LineEnd(s: string): (e: nat)
    ensures e <= |s| && (e == |s| || (e == |s| - 1 && s[e] == '\n'))
  {
    if |s| > 0 && s[|s| - 1] == '\n' then |s| - 1 else |s|
  }

  predicate IsMark(c: char) {
    c == '?' || c == '#'
  }

  /** The first index in [lo, hi) holding '?' or '#', or `hi` when there is none. */
  function FirstMark(s: string, lo: nat, hi: nat): (i: nat)
    requires lo <= hi <= |s|
    ensures lo <= i <= hi
    ensures i < hi ==> IsMark(s[i])
    ensures forall k :: lo <= k < i ==> !IsMark(s[k])
    decreases hi - lo
  {
    if lo == hi then hi else if IsMark(s[lo]) then lo else FirstMark(s, lo + 1, hi)
  }

  /**
   * `re.sub(r"[?#].*$", "", s)`: `.` does not cross a newline, so the match starts at
   * the first '?' or '#' after the last newline before the end, and runs to the end
   * (keeping a final newline).
   */
  function DropQuery(s: string): string {
    var e := LineEnd(s);
    var i := FirstMark(s, RFind(s[..e], '\n') + 1, e);
    if i < e then s[..i] + s[e..] else s
  }

  /**
   * `DropQuery` removes the leftmost match of the pattern: a mark followed by
   * non-newline characters up to where `$` matches. Marks further left have a
   * newline after them, and with no match the string is unchanged.
   */
  lemma DropQueryIsLeftmostMatch(s: string)
    ensures var e := LineEnd(s);
      || (DropQuery(s) == s && forall k :: 0 <= k < e && IsMark(s[k]) ==> '\n' in s[k + 1..e])
      || exists i :: 0 <= i < e && IsMark(s[i]) && '\n' !in s[i + 1..e] && DropQuery(s) == s[..i] + s[e..]
                     && forall k :: 0 <= k < i && IsMark(s[k]) ==> '\n' in s[k + 1..e]
  {
    var e := LineEnd(s);
    var l := RFind(s[..e], '\n');
    var i := FirstMark(s, l + 1, e);
    forall k | 0 <= k < e && IsMark(s[k]) && k < i ensures '\n' in s[k + 1..e] {
      assert k <= l;
      assert s[..e][l] == '\n';
      assert s[k + 1..e][l - k - 1] == '\n';
    }
    if i < e {
      forall j | i < j < e ensures s[j] != '\n' {
        assert s[..e][j] == s[j];
      }
      assert '\n' !in s[i + 1..e];
    }
  }

  /** One of the six audio suffixes ends `s`. */
  predicate HasAudioExtension(s: string) {
    exists k :: 0 <= k < |AudioExtensions| && EndsWith(s, AudioExtensions[k])
  }

  /** `looks_like_audio_url(url)`: lower-cased, query and fragment dropped, one of the six suffixes. */
  predicate LooksLikeAudioUrl(url: string) {
    HasAudioExtension(DropQuery(Lower(url)))
  }

  /** A URL without newline, '?' or '#' is its own cleaned form. */
  lemma DropQueryPlain(u: string)
    requires forall k :: 0 <= k < |u| ==> u[k] != '\n' && !IsMark(u[k])
    ensures DropQuery(u) == u
  {
  }

  /** On a single line, cleaning cuts at the first mark. */
  lemma DropQueryFirstMark(s: string, i: nat)
    requires forall k :: 0 <= k < |s| ==> s[k] != '\n'
    requires i < |s| && IsMark(s[i])
    requires forall k :: 0 <= k < i ==> !IsMark(s[k])
    ensures DropQuery(s) == s[..i]
  {
    var e := LineEnd(s);
    assert e == |s|;
    assert s[..e] == s;
    var l := RFind(s, '\n');
    assert l == -1;
    var j := FirstMark(s, 0, e);
    assert j == i;
  }

  /** A query or fragment is dropped: for a plain URL `u`, cleaning `u?q` or `u#q` gives back `u`. */
  lemma QueryDropped(u: string, mark: char, q: string)
    requires forall k :: 0 <= k < |u| ==> u[k] != '\n' && !IsMark(u[k])
    requires IsMark(mark) && '\n' !in q
    ensures DropQuery(Lower(u + [mark] + q)) == Lower(u)
  {
    var t := u + [mark] + q;
    var s := Lower(t);
    forall k | 0 <= k < |s| ensures s[k] != '\n' {
      if k > |u| {
        assert t[k] == q[k - |u| - 1];
        assert q[k - |u| - 1] in q;
      } else if k < |u| {
        assert t[k] == u[k];
      }
    }
    forall k | 0 <= k < |u| ensures !IsMark(s[k]) {
      assert t[k] == u[k];
    }
    assert t[|u|] == mark;
    DropQueryFirstMark(s, |u|);
    assert s[..|u|] == Lower(u);
  }

  /** So `u?q` and `u#q` are audio-like exactly when `u` is. */
  lemma QueryIgnored(u: string, mark: char, q: string)
    requires forall k :: 0 <= k < |u| ==> u[k] != '\n' && !IsMark(u[k])
    requires IsMark(mark) && '\n' !in q
    ensures LooksLikeAudioUrl(u + [mark] + q) <==> LooksLikeAudioUrl(u)
  {
    QueryDropped(u, mark, q);
    assert forall k :: 0 <= k < |Lower(u)| ==> Lower(u)[k] != '\n' && !IsMark(Lower(u)[k]);
    DropQueryPlain(Lower(u));
  }

  /** Upper-case suffixes followed by a query string are accepted: `u.MP3?q` for every plain `u`. */
  lemma UpperCaseWithQueryAccepted(u: string, q: string)
    requires forall k :: 0 <= k < |u| ==> u[k] != '\n' && !IsMark(u[k])
    requires '\n' !in q
    ensures LooksLikeAudioUrl(u + ".MP3" + "?" + q)
  {
    var p := u + ".MP3";
    PlainWithSuffix(u, ".MP3");
    QueryDropped(p, '?', q);
    assert p + ['?'] + q == u + ".MP3" + "?" + q;
    LowerMp3(u);
  }

  /** A plain URL followed by a plain suffix is plain. */
  lemma PlainWithSuffix(u: string, x: string)
    requires forall k :: 0 <= k < |u| ==> u[k] != '\n' && !IsMark(u[k])
    requires forall k :: 0 <= k < |x| ==> x[k] != '\n' && !IsMark(x[k])
    ensures forall k :: 0 <= k < |u + x| ==> (u + x)[k] != '\n' && !IsMark((u + x)[k])
  {
    forall k | 0 <= k < |u + x| ensures (u + x)[k] != '\n' && !IsMark((u + x)[k]) {
      if k < |u| {
        assert (u + x)[k] == u[k];
      } else {
        assert (u + x)[k] == x[k - |u|];
      }
    }
  }

  /** Lower-casing `u.MP3` ends in ".mp3". */
  lemma LowerMp3(u: string)
    ensures EndsWith(Lower(u + ".MP3"), AudioExtensions[0])
  {
    var p := u + ".MP3";
    var lp := Lower(p);
    forall k | 0 <= k < 4 ensures lp[|u| + k] == ".mp3"[k] {
      assert p[|u| + k] == ".MP3"[k];
    }
    assert lp[|u|..] == ".mp3";
  }

  /** An audio suffix in the middle of the path does not count: `u.mp3.html` and every other `u.html` is rejected. */
  lemma InnerSuffixRejected(u: string)
    requires forall k :: 0 <= k < |u| ==> u[k] != '\n' && !IsMark(u[k])
    ensures !LooksLikeAudioUrl(u + ".html")
  {
    var t := u + ".html";
    var s := Lower(t);
    forall k | 0 <= k < |s| ensures s[k] != '\n' && !IsMark(s[k]) {
      if k < |u| {
        assert t[k] == u[k];
      } else {
        assert t[k] == ".html"[k - |u|];
      }
    }
    DropQueryPlain(s);
    assert s[|s| - 1] == 'l';
    forall k | 0 <= k < |AudioExtensions| ensures !EndsWith(s, AudioExtensions[k]) {
      var x := AudioExtensions[k];
      assert x[|x| - 1] != 'l';
    }
  }

  // ---------------------------------------------------------------------------
  // Tags, licence and surrounding text

  /**
   * A tag as the extraction reads it: its attributes, the attributes of its ancestors
   * (nearest first), the nearest text before and after it in the document (None when
   * there is none), and its parent's stripped text (None without a parent).
   */
  datatype Tag = Tag(
    attrs: map<string, string>,
    ancestors: seq<map<string, string>>,
    prevText: Option<string>,
    nextText: Option<string>,
    parentText: Option<string>)

  const LicenseAttrs: seq<string> := ["license", "data-license", "data-licence"]

  predicate HasLicense(attrs: map<string, string>) {
    exists a :: 0 <= a < |LicenseAttrs| && LicenseAttrs[a] in attrs
  }

  /** The first licence attribute of a node, in the order license, data-license, data-licence. */
  function LicenseOf(attrs: map<string, string>): string
    requires HasLicense(attrs)
  {
    if LicenseAttrs[0] in attrs then attrs[LicenseAttrs[0]]
    else if LicenseAttrs[1] in attrs then attrs[LicenseAttrs[1]]
    else attrs[LicenseAttrs[2]]
  }

  /** The licence found along a chain of nodes: the first node that has one decides. */
  function License(chain: seq<map<string, string>>): string {
    if chain == [] then ""
    else if HasLicense(chain[0]) then LicenseOf(chain[0])
    else License(chain[1..])
  }

  /**
   * `License` is the value of the first node (in self-then-ancestors order) carrying
   * a licence attribute, and "" when no node does.
   */
  lemma {:induction false} LicenseIsFirstMatch(chain: seq<map<string, string>>)
    ensures (forall i :: 0 <= i < |chain| ==> !HasLicense(chain[i])) ==> License(chain) == ""
    ensures forall j :: 0 <= j < |chain| && HasLicense(chain[j]) && (forall i :: 0 <= i < j ==> !HasLicense(chain[i]))
                        ==> License(chain) == LicenseOf(chain[j])
  {
    if chain != [] {
      LicenseIsFirstMatch(chain[1..]);
      forall j | 0 <= j < |chain| && HasLicense(chain[j]) && (forall i :: 0 <= i < j ==> !HasLicense(chain[i]))
        ensures License(chain) == LicenseOf(chain[j])
      {
        if j > 0 {
          assert chain[1..][j - 1] == chain[j];
          forall i | 0 <= i < j - 1 ensures !HasLicense(chain[1..][i]) {
            assert chain[1..][i] == chain[i + 1];
          }
        }
      }
      if forall i :: 0 <= i < |chain| ==> !HasLicense(chain[i]) {
        forall i | 0 <= i < |chain| - 1 ensures !HasLicense(chain[1..][i]) {
          assert chain[1..][i] == chain[i + 1];
        }
      }
    }
  }

  /** `extract_license(tag)`: the tag, then its ancestors; per node the three attributes in order. */
  method ExtractLicense(tag: Tag) returns (r: string)
    ensures r == License([tag.attrs] + tag.ancestors)
  {
    var chain := [tag.attrs] + tag.ancestors;
    for n := 0 to |chain|
      invariant License(chain) == License(chain[n..])
    {
      var node := chain[n];
      for a := 0 to |LicenseAttrs|
        invariant forall b :: 0 <= b < a ==> LicenseAttrs[b] !in node
      {
        if LicenseAttrs[a] in node {
          return node[LicenseAttrs[a]];
        }
      }
      assert chain[n..][1..] == chain[n + 1..];
    }
    return "";
  }

  /** The text pieces `get_surrounding_text` joins: the stripped neighbours, else the parent's text. */
  function SurroundingParts(tag: Tag): seq<string> {
    var parts := NeighbourPart(tag.prevText) + NeighbourPart(tag.nextText);
    if parts == [] && tag.parentText.Some? then [tag.parentText.value] else parts
  }

  /** A neighbouring text contributes its stripped form when it exists and is non-empty. */
  function NeighbourPart(text: Option<string>): seq<string> {
    if text.Some? && text.value != "" then [Strip(text.value)] else []
  }

  /** The joined pieces, stripped. */
  function Combined(tag: Tag): string {
    Strip(Join(SurroundingParts(tag), ' '))
  }

  /** `get_surrounding_text(tag, max_len)`: the combined text cut to at most `maxLen` characters. */
  function SurroundingText(tag: Tag, maxLen: nat): (r: string)
    ensures |r| <= maxLen && r <= Combined(tag)
    ensures |r| == maxLen || r == Combined(tag)
  {
    var combined := Combined(tag);
    if combined == "" then "" else combined[..if maxLen < |combined| then maxLen else |combined|]
  }

  /** The `text_parts` list of `get_surrounding_text`, built step by step. */
  method TextParts(tag: Tag) returns (textParts: seq<string>)
    ensures textParts == SurroundingParts(tag)
  {
    textParts := [];
    textParts := AppendNeighbour(textParts, tag.prevText);
    textParts := AppendNeighbour(textParts, tag.nextText);
    if textParts == [] && tag.parentText.Some? {
      textParts := textParts + [tag.parentText.value];
    }
  }

  /** `if text: text_parts.append(text.strip())`. */
  method AppendNeighbour(parts: seq<string>, text: Option<string>) returns (parts': seq<string>)
    ensures parts' == parts + NeighbourPart(text)
  {
    parts' := parts;
    if text.Some? && text.value != "" {
      parts' := parts' + [Strip(text.value)];
    }
  }

  /** `get_surrounding_text(tag, max_len)`: join, strip, truncate. */
  method GetSurroundingText(tag: Tag, maxLen: nat) returns (r: string)
    ensures r == SurroundingText(tag, maxLen)
  {
    var textParts := TextParts(tag);
    var combined := Strip(Join(textParts, ' '));
    if combined == "" {
      r := "";
    } else {
      r := combined[..if maxLen < |combined| then maxLen else |combined|];
    }
  }

  /**
   * Without neighbouring text the parent's text is the whole combined text; with
   * both neighbours it is the two stripped texts joined by a space.
   */
  lemma SurroundingPartsCases(tag: Tag)
    ensures (tag.prevText.None? || tag.prevText == Some("")) && (tag.nextText.None? || tag.nextText == Some(""))
            ==> Combined(tag) == if tag.parentText.Some? then Strip(tag.parentText.value) else ""
    ensures tag.prevText.Some? && tag.prevText.value != "" && tag.nextText.Some? && tag.nextText.value != ""
            ==> Combined(tag) == Strip(Strip(tag.prevText.value) + " " + Strip(tag.nextText.value))
  {
    var parts := SurroundingParts(tag);
    if parts == [] {
      assert Strip("") == "";
    } else if |parts| == 2 {
      assert Join(parts, ' ') == parts[0] + [' '] + Join(parts[1..], ' ');
    }
  }

  // ---------------------------------------------------------------------------
  // Collecting the pairs

  /** An `<audio>` tag and the `<source>` tags inside it. */
  datatype AudioTag = AudioTag(tag: Tag, sources: seq<Tag>)

  /** One call `add_audio_url(tag, url, fallback_desc)`. */
  datatype AddCall = AddCall(tag: Tag, url: string, fallback: string)

  datatype Pair = Pair(audioUrl: string, description: string, license: string)

  /** The maximum length `get_surrounding_text` is called with. */
  const MaxLen: nat := 100

  /** The call for a truthy `src` attribute, as `tag.get("src")` tests it. */
  function SrcCall(t: Tag, fallback: string): seq<AddCall> {
    if "src" in t.attrs && t.attrs["src"] != "" then [AddCall(t, t.attrs["src"], fallback)] else []
  }

  /** The calls made for the `<source>` tags of one `<audio>` tag. */
  function SourceCalls(sources: seq<Tag>, fallback: string): seq<AddCall> {
    if sources == [] then []
    else SourceCalls(sources[..|sources| - 1], fallback) + SrcCall(sources[|sources| - 1], fallback)
  }

  /** The calls made for one `<audio>` tag: its own `src`, then each `<source>` with the audio tag's text as fallback. */
  function AudioTagCalls(a: AudioTag): seq<AddCall> {
    SrcCall(a.tag, "") + SourceCalls(a.sources, SurroundingText(a.tag, MaxLen))
  }

  function AudioCalls(audios: seq<AudioTag>): seq<AddCall> {
    if audios == [] then []
    else AudioCalls(audios[..|audios| - 1]) + AudioTagCalls(audios[|audios| - 1])
  }

  /** The calls made for one general tag: `href`, then `src`, whenever present (even empty). */
  function AttrCalls(t: Tag): seq<AddCall> {
    (if "href" in t.attrs then [AddCall(t, t.attrs["href"], "")] else [])
    + (if "src" in t.attrs then [AddCall(t, t.attrs["src"], "")] else [])
  }

  function TagCalls(tags: seq<Tag>): seq<AddCall> {
    if tags == [] then []
    else TagCalls(tags[..|tags| - 1]) + AttrCalls(tags[|tags| - 1])
  }

  /** Every `add_audio_url` call of `extract_audio_url_pairs`, in the order it makes them. */
  function Calls(audios: seq<AudioTag>, tags: seq<Tag>): seq<AddCall> {
    AudioCalls(audios) + TagCalls(tags)
  }

  /** The URL a call would add, before de-duplication: a non-empty, audio-like result of `safe_urljoin`. */
  function Resolved(c: AddCall, base: string, lib: UrlLib): Option<string> {
    var u := SafeUrljoin(base, c.url, lib);
    if u.Some? && u.value != "" && LooksLikeAudioUrl(u.value) then u else None
  }

  /** The description of a new pair: the title attribute, else the surrounding text, else the fallback. */
  function Description(t: Tag, fallback: string): string {
    var title := if "title" in t.attrs then t.attrs["title"] else "";
    if title != "" then title
    else var around := SurroundingText(t, MaxLen);
      if around != "" then around else fallback
  }

  /** The pair a call appends when its URL has not been seen yet. */
  function Candidate(c: AddCall, base: string, lib: UrlLib): Option<Pair> {
    match Resolved(c, base, lib)
    case None => None
    case Some(u) => Some(Pair(u, Description(c.tag, c.fallback), License([c.tag.attrs] + c.tag.ancestors)))
  }

  function Urls(pairs: seq<Pair>): set<string> {
    set p | p in pairs :: p.audioUrl
  }

  lemma UrlsContains(pairs: seq<Pair>, i: nat)
    requires i < |pairs|
    ensures pairs[i].audioUrl in Urls(pairs)
  {
    assert pairs[i] in pairs;
  }

  /** The `seen_urls` test: a candidate is appended only when its URL is new. */
  function Insert(pairs: seq<Pair>, cand: Option<Pair>): seq<Pair> {
    if cand.Some? && cand.value.audioUrl !in Urls(pairs) then pairs + [cand.value] else pairs
  }

  /** The pairs kept from a sequence of candidates, in order. */
  function Collect(cands: seq<Option<Pair>>): seq<Pair> {
    if cands == [] then [] else Insert(Collect(cands[..|cands| - 1]), cands[|cands| - 1])
  }

  function Candidates(calls: seq<AddCall>, base: string, lib: UrlLib): (r: seq<Option<Pair>>)
    ensures |r| == |calls| && forall k :: 0 <= k < |calls| ==> r[k] == Candidate(calls[k], base, lib)
  {
    seq(|calls|, k requires 0 <= k < |calls| => Candidate(calls[k], base, lib))
  }

  /** The pairs after a sequence of `add_audio_url` calls. */
  function Pairs(calls: seq<AddCall>, base: string, lib: UrlLib): seq<Pair> {
    Collect(Candidates(calls, base, lib))
  }

  lemma PairsSnoc(calls: seq<AddCall>, c: AddCall, base: string, lib: UrlLib)
    ensures Pairs(calls + [c], base, lib) == Insert(Pairs(calls, base, lib), Candidate(c, base, lib))
  {
    var cs := Candidates(calls + [c], base, lib);
    assert cs[..|calls|] == Candidates(calls, base, lib);
  }

  predicate DistinctUrls(ps: seq<Pair>) {
    forall i, j :: 0 <= i < j < |ps| ==> ps[i].audioUrl != ps[j].audioUrl
  }

  /** The kept URLs are pairwise distinct. */
  lemma {:induction false} CollectDistinct(cands: seq<Option<Pair>>)
    ensures DistinctUrls(Collect(cands))
  {
    if cands != [] {
      var prev := Collect(cands[..|cands| - 1]);
      CollectDistinct(cands[..|cands| - 1]);
      var ps := Collect(cands);
      if ps != prev {
        var last := cands[|cands| - 1].value;
        assert ps == prev + [last] && last.audioUrl !in Urls(prev);
        forall i, j | 0 <= i < j < |ps| ensures ps[i].audioUrl != ps[j].audioUrl {
          assert ps[i] == prev[i];
          if j < |prev| {
            assert ps[j] == prev[j];
          } else {
            UrlsContains(prev, i);
          }
        }
      }
    }
  }

  lemma UrlsSnoc(pairs: seq<Pair>, p: Pair)
    ensures Urls(pairs + [p]) == Urls(pairs) + {p.audioUrl}
  {
    forall u | u in Urls(pairs) ensures u in Urls(pairs + [p]) {
      var q :| q in pairs && q.audioUrl == u;
      assert q in pairs + [p];
    }
    assert p in pairs + [p];
  }

  /** Some candidate carries the URL `u`. */
  predicate Carries(cands: seq<Option<Pair>>, u: string) {
    exists k :: 0 <= k < |cands| && cands[k].Some? && cands[k].value.audioUrl == u
  }

  /** A URL is kept exactly when some candidate carries it. */
  lemma {:induction false} CollectUrls(cands: seq<Option<Pair>>)
    ensures forall u :: u in Urls(Collect(cands)) <==> Carries(cands, u)
  {
    if cands != [] {
      var init := cands[..|cands| - 1];
      CollectUrls(init);
      var prev := Collect(init);
      var last := cands[|cands| - 1];
      assert Urls(Collect(cands)) == Urls(prev) + (if last.Some? then {last.value.audioUrl} else {}) by {
        if last.Some? && last.value.audioUrl !in Urls(prev) {
          UrlsSnoc(prev, last.value);
        }
      }
      forall u ensures Carries(cands, u) <==> Carries(init, u) || (last.Some? && last.value.audioUrl == u) {
        if Carries(init, u) {
          var k :| 0 <= k < |init| && init[k].Some? && init[k].value.audioUrl == u;
          assert cands[k] == init[k];
        }
        if Carries(cands, u) {
          var k :| 0 <= k < |cands| && cands[k].Some? && cands[k].value.audioUrl == u;
          if k < |init| {
            assert init[k] == cands[k];
          }
        }
      }
    }
  }

  /** `cands[k]` is `p`, and no earlier candidate carries its URL. */
  predicate FirstWith(cands: seq<Option<Pair>>, k: int, p: Pair) {
    && 0 <= k < |cands| && cands[k] == Some(p)
    && forall j :: 0 <= j < k && cands[j].Some? ==> cands[j].value.audioUrl != p.audioUrl
  }

  /**
   * Each kept pair is the first candidate carrying its URL: the description and
   * licence come from the first call that found the URL.
   */
  lemma {:induction false} CollectFirst(cands: seq<Option<Pair>>)
    ensures forall p :: p in Collect(cands) ==> exists k :: FirstWith(cands, k, p)
  {
    if cands != [] {
      var init := cands[..|cands| - 1];
      CollectFirst(init);
      CollectUrls(init);
      var prev := Collect(init);
      forall p | p in Collect(cands) ensures exists k :: FirstWith(cands, k, p) {
        if p in prev {
          var k :| FirstWith(init, k, p);
          assert forall j :: 0 <= j <= k ==> cands[j] == init[j];
          assert FirstWith(cands, k, p);
        } else {
          var k := |cands| - 1;
          assert cands[k] == Some(p) && p.audioUrl !in Urls(prev);
          forall j | 0 <= j < k && cands[j].Some? ensures cands[j].value.audioUrl != p.audioUrl {
            assert init[j] == cands[j];
          }
          assert FirstWith(cands, k, p);
        }
      }
    }
  }

  /** Discovery order: the pairs kept from a prefix of the candidates are a prefix of the pairs. */
  lemma {:induction false} CollectPrefix(cands: seq<Option<Pair>>, more: seq<Option<Pair>>)
    ensures Collect(cands) <= Collect(cands + more)
    decreases |more|
  {
    if more == [] {
      assert cands + more == cands;
    } else {
      var init := more[..|more| - 1];
      CollectPrefix(cands, init);
      assert (cands + more)[..|cands + more| - 1] == cands + init;
    }
  }

  /** Call `k` is the first to resolve to `p`'s URL, and `p` is the pair it makes. */
  predicate FirstCall(calls: seq<AddCall>, k: int, p: Pair, base: string, lib: UrlLib) {
    && 0 <= k < |calls| && Candidate(calls[k], base, lib) == Some(p)
    && forall j :: 0 <= j < k ==> Resolved(calls[j], base, lib) != Some(p.audioUrl)
  }

  /**
   * `extract_audio_url_pairs` returns distinct URLs; a URL is returned exactly when
   * some call resolves to it, and then it is valid and audio-like, and its pair has
   * the description and licence of the first call that resolved to it.
   */
  lemma PairsSpec(calls: seq<AddCall>, base: string, lib: UrlLib)
    ensures var ps := Pairs(calls, base, lib);
      && DistinctUrls(ps)
      && (forall u :: u in Urls(ps) <==> exists k :: 0 <= k < |calls| && Resolved(calls[k], base, lib) == Some(u))
      && (forall p :: p in ps ==> LooksLikeAudioUrl(p.audioUrl) && IsValidUrl(p.audioUrl, lib))
      && (forall p :: p in ps ==> exists k :: FirstCall(calls, k, p, base, lib))
  {
    var cands := Candidates(calls, base, lib);
    CollectDistinct(cands);
    CollectUrls(cands);
    CollectFirst(cands);
    forall u ensures Carries(cands, u) <==> exists k :: 0 <= k < |calls| && Resolved(calls[k], base, lib) == Some(u) {
      if exists k :: 0 <= k < |calls| && Resolved(calls[k], base, lib) == Some(u) {
        var k :| 0 <= k < |calls| && Resolved(calls[k], base, lib) == Some(u);
        assert cands[k].Some? && cands[k].value.audioUrl == u;
      }
    }
    forall p | p in Pairs(calls, base, lib)
      ensures LooksLikeAudioUrl(p.audioUrl) && IsValidUrl(p.audioUrl, lib)
      ensures exists k :: FirstCall(calls, k, p, base, lib)
    {
      var k :| FirstWith(cands, k, p);
      SafeUrljoinResult(base, calls[k].url, lib);
      forall j | 0 <= j < k ensures Resolved(calls[j], base, lib) != Some(p.audioUrl) {
        assert cands[j] == Candidate(calls[j], base, lib);
      }
      assert FirstCall(calls, k, p, base, lib);
    }
  }

  /** Later calls only append: the pairs of a prefix of the calls are a prefix of the pairs. */
  lemma PairsPrefix(calls: seq<AddCall>, more: seq<AddCall>, base: string, lib: UrlLib)
    ensures Pairs(calls, base, lib) <= Pairs(calls + more, base, lib)
  {
    var all := Candidates(calls + more, base, lib);
    assert all == Candidates(calls, base, lib) + all[|calls|..];
    CollectPrefix(Candidates(calls, base, lib), all[|calls|..]);
  }

  /** `add_audio_url(tag, url, fallback_desc)` on the running list and seen-set. */
  method AddAudioUrl(pairs: seq<Pair>, seen: set<string>, c: AddCall, base: string, lib: UrlLib)
    returns (pairs': seq<Pair>, seen': set<string>)
    requires seen == Urls(pairs)
    ensures pairs' == Insert(pairs, Candidate(c, base, lib)) && seen' == Urls(pairs')
  {
    pairs', seen' := pairs, seen;
    var audioUrl := SafeUrljoin(base, c.url, lib);
    if audioUrl.Some? && audioUrl.value != "" && LooksLikeAudioUrl(audioUrl.value) && audioUrl.value !in seen {
      seen' := seen + {audioUrl.value};
      var description := if "title" in c.tag.attrs then c.tag.attrs["title"] else "";
      if description == "" {
        description := GetSurroundingText(c.tag, MaxLen);
      }
      if description == "" {
        description := c.fallback;
      }
      var licenseInfo := ExtractLicense(c.tag);
      pairs' := pairs + [Pair(audioUrl.value, description, licenseInfo)];
      UrlsSnoc(pairs, Pair(audioUrl.value, description, licenseInfo));
    }
  }

  lemma AppendAssoc<T>(a: seq<T>, b: seq<T>, c: seq<T>)
    ensures a + (b + c) == (a + b) + c
  {
  }

  /** `tag.get("src")`, with a missing attribute read as the falsy "". */
  function GetSrc(t: Tag): string {
    if "src" in t.attrs then t.attrs["src"] else ""
  }

  /** One more `<source>` tag adds its call after those of the tags before it. */
  lemma SourceCallsStep(prefix: seq<AddCall>, sources: seq<Tag>, j: nat, fallback: string)
    requires j < |sources|
    ensures prefix + SourceCalls(sources[..j + 1], fallback) == (prefix + SourceCalls(sources[..j], fallback)) + SrcCall(sources[j], fallback)
  {
    assert sources[..j + 1][..j] == sources[..j];
  }

  /** The `<source>` loop inside the `<audio>` loop: each `src` with the audio tag's surrounding text as fallback. */
  method AddSourceTags(pairs: seq<Pair>, seen: set<string>, audio: AudioTag, ghost done: seq<AddCall>,
                       base: string, lib: UrlLib)
    returns (pairs': seq<Pair>, seen': set<string>)
    requires pairs == Pairs(done, base, lib) && seen == Urls(pairs)
    ensures pairs' == Pairs(done + SourceCalls(audio.sources, SurroundingText(audio.tag, MaxLen)), base, lib)
    ensures seen' == Urls(pairs')
  {
    pairs', seen' := pairs, seen;
    ghost var calls := done;
    ghost var fallback := SurroundingText(audio.tag, MaxLen);
    assert calls == done + SourceCalls(audio.sources[..0], fallback);
    for j := 0 to |audio.sources|
      invariant calls == done + SourceCalls(audio.sources[..j], fallback)
      invariant pairs' == Pairs(calls, base, lib) && seen' == Urls(pairs')
    {
      var source := audio.sources[j];
      SourceCallsStep(done, audio.sources, j, fallback);
      var src := GetSrc(source);
      if src != "" {
        var fallbackDesc := GetSurroundingText(audio.tag, MaxLen);
        assert SrcCall(source, fallback) == [AddCall(source, src, fallbackDesc)];
        PairsSnoc(calls, AddCall(source, src, fallbackDesc), base, lib);
        pairs', seen' := AddAudioUrl(pairs', seen', AddCall(source, src, fallbackDesc), base, lib);
        calls := calls + [AddCall(source, src, fallbackDesc)];
      } else {
        assert SrcCall(source, fallback) == [];
      }
    }
    assert audio.sources[..|audio.sources|] == audio.sources;
  }

  /** The body of the `<audio>` loop for one tag: its own `src`, then each `<source>`. */
  method AddAudioTag(pairs: seq<Pair>, seen: set<string>, audio: AudioTag, ghost done: seq<AddCall>,
                     base: string, lib: UrlLib)
    returns (pairs': seq<Pair>, seen': set<string>)
    requires pairs == Pairs(done, base, lib) && seen == Urls(pairs)
    ensures pairs' == Pairs(done + AudioTagCalls(audio), base, lib) && seen' == Urls(pairs')
  {
    pairs', seen' := pairs, seen;
    var src := GetSrc(audio.tag);
    if src != "" {
      assert SrcCall(audio.tag, "") == [AddCall(audio.tag, src, "")];
      PairsSnoc(done, AddCall(audio.tag, src, ""), base, lib);
      pairs', seen' := AddAudioUrl(pairs', seen', AddCall(audio.tag, src, ""), base, lib);
    } else {
      assert done + SrcCall(audio.tag, "") == done;
    }
    assert pairs' == Pairs(done + SrcCall(audio.tag, ""), base, lib);
    pairs', seen' := AddSourceTags(pairs', seen', audio, done + SrcCall(audio.tag, ""), base, lib);
    AppendAssoc(done, SrcCall(audio.tag, ""), SourceCalls(audio.sources, SurroundingText(audio.tag, MaxLen)));
  }

  /** The body of the general-tag loop for one tag: `href`, then `src`, when present. */
  method AddTag(pairs: seq<Pair>, seen: set<string>, tag: Tag, ghost done: seq<AddCall>,
                base: string, lib: UrlLib)
    returns (pairs': seq<Pair>, seen': set<string>)
    requires pairs == Pairs(done, base, lib) && seen == Urls(pairs)
    ensures pairs' == Pairs(done + AttrCalls(tag), base, lib) && seen' == Urls(pairs')
  {
    pairs', seen' := pairs, seen;
    ghost var calls := done;
    if "href" in tag.attrs {
      PairsSnoc(calls, AddCall(tag, tag.attrs["href"], ""), base, lib);
      pairs', seen' := AddAudioUrl(pairs', seen', AddCall(tag, tag.attrs["href"], ""), base, lib);
      calls := calls + [AddCall(tag, tag.attrs["href"], "")];
    }
    if "src" in tag.attrs {
      PairsSnoc(calls, AddCall(tag, tag.attrs["src"], ""), base, lib);
      pairs', seen' := AddAudioUrl(pairs', seen', AddCall(tag, tag.attrs["src"], ""), base, lib);
      calls := calls + [AddCall(tag, tag.attrs["src"], "")];
    }
    assert calls == done + AttrCalls(tag);
  }

  /** The `<audio>` loop of `extract_audio_url_pairs`. */
  method AddAudioTags(audios: seq<AudioTag>, base: string, lib: UrlLib) returns (pairs: seq<Pair>, seen: set<string>)
    ensures pairs == Pairs(AudioCalls(audios), base, lib) && seen == Urls(pairs)
  {
    pairs := [];
    seen := {};
    ghost var done: seq<AddCall> := [];
    for i := 0 to |audios|
      invariant done == AudioCalls(audios[..i])
      invariant pairs == Pairs(done, base, lib) && seen == Urls(pairs)
    {
      assert audios[..i + 1][..i] == audios[..i];
      pairs, seen := AddAudioTag(pairs, seen, audios[i], done, base, lib);
      done := done + AudioTagCalls(audios[i]);
    }
    assert audios[..|audios|] == audios;
  }

  /** The general-tag loop of `extract_audio_url_pairs`, continuing after the calls `done`. */
  method AddTags(pairs: seq<Pair>, seen: set<string>, tags: seq<Tag>, ghost done: seq<AddCall>,
                 base: string, lib: UrlLib)
    returns (pairs': seq<Pair>, seen': set<string>)
    requires pairs == Pairs(done, base, lib) && seen == Urls(pairs)
    ensures pairs' == Pairs(done + TagCalls(tags), base, lib) && seen' == Urls(pairs')
  {
    pairs', seen' := pairs, seen;
    ghost var calls := done;
    assert calls == done + TagCalls(tags[..0]) by {
      assert tags[..0] == [];
    }
    for k := 0 to |tags|
      invariant calls == done + TagCalls(tags[..k])
      invariant pairs' == Pairs(calls, base, lib) && seen' == Urls(pairs')
    {
      assert tags[..k + 1][..k] == tags[..k];
      AppendAssoc(done, TagCalls(tags[..k]), AttrCalls(tags[k]));
      pairs', seen' := AddTag(pairs', seen', tags[k], calls, base, lib);
      calls := calls + AttrCalls(tags[k]);
    }
    assert tags[..|tags|] == tags;
  }

  /**
   * `extract_audio_url_pairs(html, base_url)` over the `<audio>` tags and the general
   * tags BeautifulSoup finds, in document order.
   */
  method ExtractAudioUrlPairs(audios: seq<AudioTag>, tags: seq<Tag>, base: string, lib: UrlLib)
    returns (pairs: seq<Pair>)
    ensures pairs == Pairs(Calls(audios, tags), base, lib)
  {
    var seen;
    pairs, seen := AddAudioTags(audios, base, lib);
    pairs, seen := AddTags(pairs, seen, tags, AudioCalls(audios), base, lib);
  }
}
