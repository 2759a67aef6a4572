/**
 * src/ccaudio/extract_url/cc2url.py: choosing the Common Crawl snapshots between two
 * ISO weeks and listing the WARC URLs of one snapshot. The calendar arithmetic of
 * `datetime.fromisocalendar` is written out on day ordinals; the HTTP fetch,
 * decompression and `urljoin` are parameters.
 */
module Cc2Url {
  import opened Wrappers
  import opened Text

  // ---------------------------------------------------------------------------
  // ISO week dates as proleptic Gregorian day ordinals (0001-01-01 is day 1)

  predicate IsLeap(y: int) {
    y % 4 == 0 && (y % 100 != 0 || y % 400 == 0)
  }

  /** Days before 1 January of year `y`. */
  function DaysBefore(y: int): int
    requires y >= 1
  {
    var p := y - 1;
    365 * p + p / 4 - p / 100 + p / 400
  }

  /** `n` splits into `q` weeks and `r` days. */
  lemma WeekSplit(n: int, q: int, r: int)
    requires n == 7 * q + r && 0 <= r < 7
    ensures n / 7 == q && n % 7 == r
  {
  }

  /** Quotient and remainder by 4, 100 and 400 are unique. */
  lemma Split4(n: int, q: int, r: int)
    requires n == 4 * q + r && 0 <= r < 4
    ensures n / 4 == q && n % 4 == r
  {
  }

  lemma Split100(n: int, q: int, r: int)
    requires n == 100 * q + r && 0 <= r < 100
    ensures n / 100 == q && n % 100 == r
  {
  }

  lemma Split400(n: int, q: int, r: int)
    requires n == 400 * q + r && 0 <= r < 400
    ensures n / 400 == q && n % 400 == r
  {
  }

  /** Crossing from `y - 1` to `y` adds one multiple of 4, 100 or 400 exactly when `y` is one. */
  lemma Div4Step(y: int)
    ensures y / 4 - (y - 1) / 4 == if y % 4 == 0 then 1 else 0
  {
    var q, r := y / 4, y % 4;
    if r == 0 {
      Split4(y - 1, q - 1, 3);
    } else {
      Split4(y - 1, q, r - 1);
    }
  }

  lemma Div100Step(y: int)
    ensures y / 100 - (y - 1) / 100 == if y % 100 == 0 then 1 else 0
    ensures y % 100 == 0 ==> y % 4 == 0
  {
    var q, r := y / 100, y % 100;
    if r == 0 {
      Split100(y - 1, q - 1, 99);
      Split4(y, 25 * q, 0);
    } else {
      Split100(y - 1, q, r - 1);
    }
  }

  lemma Div400Step(y: int)
    ensures y / 400 - (y - 1) / 400 == if y % 400 == 0 then 1 else 0
    ensures y % 400 == 0 ==> y % 100 == 0
  {
    var q, r := y / 400, y % 400;
    if r == 0 {
      Split400(y - 1, q - 1, 399);
      Split100(y, 4 * q, 0);
    } else {
      Split400(y - 1, q, r - 1);
    }
  }

  /** A year has 365 days, 366 in a leap year. */
  lemma DaysBeforeStep(y: int)
    requires y >= 1
    ensures DaysBefore(y + 1) == DaysBefore(y) + if IsLeap(y) then 366 else 365
  {
    Div4Step(y);
    Div100Step(y);
    Div400Step(y);
  }

  /** The ordinal of the Monday of ISO week 1 of year `y` (`_isoweek1monday`). */
  function Week1Monday(y: int): int
    requires y >= 1
  {
    var firstDay := DaysBefore(y) + 1;
    var firstWeekday := (firstDay + 6) % 7;
    firstDay - firstWeekday + if firstWeekday > 3 then 7 else 0
  }

  /** `fromisocalendar`'s test for week 53: 1 January is a Thursday, or a Wednesday in a leap year. */
  predicate Has53Weeks(y: int)
    requires y >= 1
  {
    var firstWeekday := (DaysBefore(y) + 1) % 7;
    firstWeekday == 4 || (firstWeekday == 3 && IsLeap(y))
  }

  function WeeksIn(y: int): int
    requires y >= 1
  {
    if Has53Weeks(y) then 53 else 52
  }

  /** The (year, week) pairs `datetime.fromisocalendar(year, week, 1)` accepts. */
  predicate ValidIsoWeek(y: int, w: int) {
    1 <= y <= 9999 && 1 <= w && (w <= 52 || (w == 53 && Has53Weeks(y)))
  }

  /** `datetime.fromisocalendar(year, week, 1)`, as a day ordinal; None where it raises ValueError. */
  function IsoMonday(y: int, w: int): Option<int> {
    if ValidIsoWeek(y, w) then Some(Week1Monday(y) + 7 * (w - 1)) else None
  }

  /** Week 1 starts on the Monday of the week holding 1 January, or on the next one when that is a Friday or later. */
  lemma Week1MondayShape(y: int, q: int, r: int)
    requires y >= 1 && DaysBefore(y) == 7 * q + r && 0 <= r < 7
    ensures Week1Monday(y) == 7 * q + 1 + (if r > 3 then 7 else 0)
    ensures Has53Weeks(y) <==> r == 3 || (r == 2 && IsLeap(y))
  {
    WeekSplit(DaysBefore(y) + 7, q + 1, r);
    if r == 6 {
      WeekSplit(DaysBefore(y) + 1, q + 1, 0);
    } else {
      WeekSplit(DaysBefore(y) + 1, q, r + 1);
    }
  }

  /**
   * Week 1 of the next year starts right after the last week of this one: the
   * 53-week rule of `fromisocalendar` agrees with the week-1 Mondays.
   */
  lemma Week1MondayStep(y: int)
    requires y >= 1
    ensures Week1Monday(y + 1) == Week1Monday(y) + 7 * WeeksIn(y)
  {
    DaysBeforeStep(y);
    var d := DaysBefore(y);
    var q, r := d / 7, d % 7;
    Week1MondayShape(y, q, r);
    var extra := if IsLeap(y) then 2 else 1;
    assert DaysBefore(y + 1) == 7 * (q + 52) + r + extra;
    if r + extra < 7 {
      Week1MondayShape(y + 1, q + 52, r + extra);
    } else {
      Week1MondayShape(y + 1, q + 53, r + extra - 7);
    }
  }

  lemma {:induction false} Week1MondayMonotone(a: int, b: int)
    requires 1 <= a < b
    ensures Week1Monday(a + 1) <= Week1Monday(b)
    decreases b - a
  {
    if a + 1 < b {
      Week1MondayMonotone(a + 1, b);
      Week1MondayStep(a + 1);
    }
  }

  /**
   * On valid ISO weeks, comparing the Mondays orders snapshots by (year, week)
   * lexicographically, so the range test of `get_main_warc_paths` is a test on the
   * pairs themselves.
   */
  lemma IsoMondayOrder(y1: int, w1: int, y2: int, w2: int)
    requires ValidIsoWeek(y1, w1) && ValidIsoWeek(y2, w2)
    ensures IsoMonday(y1, w1).value <= IsoMonday(y2, w2).value <==> y1 < y2 || (y1 == y2 && w1 <= w2)
  {
    if y1 < y2 {
      Week1MondayStep(y1);
      Week1MondayMonotone(y1, y2);
    } else if y2 < y1 {
      Week1MondayStep(y2);
      Week1MondayMonotone(y2, y1);
    }
  }

  /** 2020-W53 exists (1 January 2020 was a Wednesday of a leap year) and 2021-W53 does not. */
  lemma Week53Examples()
    ensures ValidIsoWeek(2020, 53) && !ValidIsoWeek(2021, 53)
  {
    assert DaysBefore(2020) == 737424;
    assert DaysBefore(2021) == 737790;
  }

  // ---------------------------------------------------------------------------
  // get_main_warc_paths

  /** Parses "YEAR-WEEK" as `list(map(int, s.split("-")))` unpacked into two: None where that raises. */
  function ParsePair(s: string): Option<(int, int)> {
    var fields := Split(s, '-');
    if |fields| != 2 then None
    else match (ParseInt(fields[0]), ParseInt(fields[1]))
      case (Some(y), Some(w)) => Some((y, w))
      case _ => None
  }

  /** The date fields of a snapshot id after "CC-MAIN": `snapshot["id"].split("-")[2:]`, each parsed as an int. */
  function IdFields(id: string): Option<seq<nat>> {
    var fields := Split(id, '-');
    if |fields| <= 2 then Some([]) else ParseAll(fields[2..])
  }

  function ParseAll(fields: seq<string>): (r: Option<seq<nat>>)
    ensures r.Some? ==> |r.value| == |fields|
  {
    if fields == [] then Some([])
    else match (ParseAll(fields[..|fields| - 1]), ParseInt(fields[|fields| - 1]))
      case (Some(init), Some(n)) => Some(init + [n])
      case _ => None
  }

  /** `f"{year}-{week:02d}"`. */
  function SnapshotKey(y: nat, w: nat): string {
    Decimal(y) + "-" + ZeroPad(w, 2)
  }

  /** `f"{total_prefix}-{snapshot_id}/warc.paths.gz"`. */
  function WarcPath(totalPrefix: string, key: string): string {
    totalPrefix + "-" + key + "/warc.paths.gz"
  }

  /** The range bounds as day ordinals, or the ValueError that ends the call. */
  function Bounds(startSnapshot: string, endSnapshot: string): Result<(int, int), string> {
    match (ParsePair(startSnapshot), ParsePair(endSnapshot))
    case (Some((y1, w1)), Some((y2, w2))) =>
      if IsoMonday(y1, w1).None? || IsoMonday(y2, w2).None? then Err("ValueError")
      else if IsoMonday(y1, w1).value > IsoMonday(y2, w2).value
      then Err("ValueError: start snapshot is after end snapshot")
      else Ok((IsoMonday(y1, w1).value, IsoMonday(y2, w2).value))
    case _ => Err("ValueError")
  }

  /** One snapshot's effect on the dictionary, or the ValueError its id raises. */
  function AddSnapshot(paths: map<string, string>, id: string, lo: int, hi: int, totalPrefix: string)
    : Result<map<string, string>, string>
  {
    match IdFields(id)
    case None => Err("ValueError")
    case Some(date) =>
      if |date| != 2 || date[0] < 2013 then Ok(paths)
      else match IsoMonday(date[0], date[1])
        case None => Err("ValueError")
        case Some(monday) =>
          if lo <= monday <= hi
          then Ok(paths[SnapshotKey(date[0], date[1]) := WarcPath(totalPrefix, SnapshotKey(date[0], date[1]))])
          else Ok(paths)
  }

  function AddSnapshots(ids: seq<string>, lo: int, hi: int, totalPrefix: string): Result<map<string, string>, string> {
    if ids == [] then Ok(map[])
    else match AddSnapshots(ids[..|ids| - 1], lo, hi, totalPrefix)
      case Err(e) => Err(e)
      case Ok(paths) => AddSnapshot(paths, ids[|ids| - 1], lo, hi, totalPrefix)
  }

  /**
   * `get_main_warc_paths(snapshot_index, start_snapshot, end_snapshot, prefix)`, given
   * the snapshot ids of the index and `total_prefix = urljoin(prefix, "crawl-data/CC-MAIN")`.
   */
  function MainWarcPaths(ids: seq<string>, startSnapshot: string, endSnapshot: string, totalPrefix: string)
    : Result<map<string, string>, string>
  {
    match Bounds(startSnapshot, endSnapshot)
    case Err(e) => Err(e)
    case Ok((lo, hi)) => AddSnapshots(ids, lo, hi, totalPrefix)
  }

  /** The loop of `get_main_warc_paths`, filling the dictionary one snapshot at a time. */
  method GetMainWarcPaths(ids: seq<string>, startSnapshot: string, endSnapshot: string, totalPrefix: string)
    returns (r: Result<map<string, string>, string>)
    ensures r == MainWarcPaths(ids, startSnapshot, endSnapshot, totalPrefix)
  {
    var bounds := Bounds(startSnapshot, endSnapshot);
    if bounds.Err? {
      return Err(bounds.error);
    }
    var (startDate, endDate) := bounds.value;
    var snapshotWarcPaths: map<string, string> := map[];
    for n := 0 to |ids|
      invariant AddSnapshots(ids[..n], startDate, endDate, totalPrefix) == Ok(snapshotWarcPaths)
    {
      assert ids[..n + 1][..n] == ids[..n];
      var date := IdFields(ids[n]);
      if date.None? {
        r := Err("ValueError");
        assert AddSnapshots(ids[..n + 1], startDate, endDate, totalPrefix) == r;
        AddSnapshotsErr(ids, n + 1, startDate, endDate, totalPrefix);
        return;
      }
      if |date.value| != 2 {
        continue;
      }
      var year, week := date.value[0], date.value[1];
      if year >= 2013 {
        var currDate := IsoMonday(year, week);
        if currDate.None? {
          r := Err("ValueError");
          assert AddSnapshots(ids[..n + 1], startDate, endDate, totalPrefix) == r;
          AddSnapshotsErr(ids, n + 1, startDate, endDate, totalPrefix);
          return;
        }
        if startDate <= currDate.value <= endDate {
          var snapshotId := SnapshotKey(year, week);
          snapshotWarcPaths := snapshotWarcPaths[snapshotId := WarcPath(totalPrefix, snapshotId)];
        }
      }
    }
    assert ids[..|ids|] == ids;
    return Ok(snapshotWarcPaths);
  }

  /** An error stops the loop: it is the result of the whole index. */
  lemma {:induction false} AddSnapshotsErr(ids: seq<string>, n: nat, lo: int, hi: int, totalPrefix: string)
    requires n <= |ids| && AddSnapshots(ids[..n], lo, hi, totalPrefix).Err?
    ensures AddSnapshots(ids, lo, hi, totalPrefix) == AddSnapshots(ids[..n], lo, hi, totalPrefix)
    decreases |ids| - n
  {
    if n < |ids| {
      assert ids[..n + 1][..n] == ids[..n];
      AddSnapshotsErr(ids, n + 1, lo, hi, totalPrefix);
    } else {
      assert ids[..n] == ids;
    }
  }

  /** The snapshot an id names, when it is kept: two date fields, year from 2013, Monday in range. */
  predicate Selects(id: string, lo: int, hi: int, y: nat, w: nat) {
    && IdFields(id) == Some([y, w]) && y >= 2013
    && IsoMonday(y, w).Some? && lo <= IsoMonday(y, w).value <= hi
  }

  /** `key` is the "YEAR-WW" name of the snapshot `id` selects. */
  ghost predicate SelectsKey(id: string, lo: int, hi: int, key: string) {
    exists y: nat, w: nat :: Selects(id, lo, hi, y, w) && key == SnapshotKey(y, w)
  }

  /** `key` names a snapshot some id of the index selects. */
  ghost predicate Selected(ids: seq<string>, lo: int, hi: int, key: string) {
    exists n :: 0 <= n < |ids| && SelectsKey(ids[n], lo, hi, key)
  }

  /** One snapshot adds its own key, with its path, and leaves the other entries alone. */
  lemma AddSnapshotSpec(paths: map<string, string>, id: string, lo: int, hi: int, totalPrefix: string, key: string)
    requires AddSnapshot(paths, id, lo, hi, totalPrefix).Ok?
    ensures var after := AddSnapshot(paths, id, lo, hi, totalPrefix).value;
      && (key in after <==> key in paths || SelectsKey(id, lo, hi, key))
      && (key in after && key !in paths ==> after[key] == WarcPath(totalPrefix, key))
      && (key in paths ==> after[key] == paths[key] || after[key] == WarcPath(totalPrefix, key))
  {
    var date := IdFields(id).value;
    if |date| == 2 && date[0] >= 2013 && IsoMonday(date[0], date[1]).Some? {
      assert date == [date[0], date[1]];
      if SelectsKey(id, lo, hi, key) {
        var y: nat, w: nat :| Selects(id, lo, hi, y, w) && key == SnapshotKey(y, w);
        assert [y, w] == date;
      }
    }
  }

  /**
   * When the loop completes, the keys are exactly the "YEAR-WW" names of the selected
   * snapshots, each mapped to its `warc.paths.gz` URL; a repeated snapshot leaves
   * the same entry.
   */
  lemma {:induction false} AddSnapshotsSpec(ids: seq<string>, lo: int, hi: int, totalPrefix: string, key: string)
    requires AddSnapshots(ids, lo, hi, totalPrefix).Ok?
    ensures var paths := AddSnapshots(ids, lo, hi, totalPrefix).value;
      && (key in paths <==> Selected(ids, lo, hi, key))
      && (key in paths ==> paths[key] == WarcPath(totalPrefix, key))
  {
    if ids != [] {
      var init := ids[..|ids| - 1];
      var last := ids[|ids| - 1];
      AddSnapshotsSpec(init, lo, hi, totalPrefix, key);
      var before := AddSnapshots(init, lo, hi, totalPrefix).value;
      assert AddSnapshots(ids, lo, hi, totalPrefix) == AddSnapshot(before, last, lo, hi, totalPrefix);
      AddSnapshotSpec(before, last, lo, hi, totalPrefix, key);
      SelectedSnoc(ids, lo, hi, key);
    }
  }

  /** Some element of a non-empty list satisfies `p` iff one before the last does or the last does. */
  lemma ExistsSnoc(ids: seq<string>, init: seq<string>, p: string -> bool)
    requires ids != [] && init == ids[..|ids| - 1]
    ensures (exists n :: 0 <= n < |ids| && p(ids[n])) <==> (exists n :: 0 <= n < |init| && p(init[n])) || p(ids[|ids| - 1])
  {
    if exists n :: 0 <= n < |ids| && p(ids[n]) {
      var n :| 0 <= n < |ids| && p(ids[n]);
      if n < |init| {
        assert init[n] == ids[n];
      }
    }
    if exists n :: 0 <= n < |init| && p(init[n]) {
      var n :| 0 <= n < |init| && p(init[n]);
      assert ids[n] == init[n];
    }
  }

  lemma SelectedSnoc(ids: seq<string>, lo: int, hi: int, key: string)
    requires ids != []
    ensures Selected(ids, lo, hi, key) <==> Selected(ids[..|ids| - 1], lo, hi, key) || SelectsKey(ids[|ids| - 1], lo, hi, key)
  {
    var p := id => SelectsKey(id, lo, hi, key);
    var init := ids[..|ids| - 1];
    ExistsSnoc(ids, init, p);
    assert Selected(ids, lo, hi, key) <==> exists n :: 0 <= n < |ids| && p(ids[n]);
    assert Selected(init, lo, hi, key) <==> exists n :: 0 <= n < |init| && p(init[n]);
  }



  /** `SnapshotKey(y, w)` has its only '-' right after the year's digits. */
  lemma SnapshotKeyDash(y: nat, w: nat, j: int)
    requires 0 <= j < |SnapshotKey(y, w)|
    ensures SnapshotKey(y, w)[j] == '-' <==> j == |Decimal(y)|
  {
    var d, z := Decimal(y), ZeroPad(w, 2);
    if j < |d| {
      assert SnapshotKey(y, w)[j] == d[j];
    } else if j > |d| {
      assert SnapshotKey(y, w)[j] == z[j - |d| - 1];
    }
  }

  /** Distinct snapshots get distinct keys: the key names the year and the week. */
  lemma SnapshotKeyInjective(y1: nat, w1: nat, y2: nat, w2: nat)
    requires SnapshotKey(y1, w1) == SnapshotKey(y2, w2)
    ensures y1 == y2 && w1 == w2
  {
    var d1, d2 := Decimal(y1), Decimal(y2);
    assert forall k :: 0 <= k < |d1| ==> IsDigit(d1[k]);
    assert forall k :: 0 <= k < |d2| ==> IsDigit(d2[k]);
    DashSplit(d1, ZeroPad(w1, 2), d2, ZeroPad(w2, 2));
    DecimalValue(y1);
    DecimalValue(y2);
    ZeroPadInjective(w1, w2, 2);
  }

  /** Two strings of the form `a-b` with no '-' in `a` agree exactly when both halves agree. */
  lemma DashSplit(a: string, b: string, c: string, e: string)
    requires forall k :: 0 <= k < |a| ==> a[k] != '-'
    requires forall k :: 0 <= k < |c| ==> c[k] != '-'
    requires a + "-" + b == c + "-" + e
    ensures a == c && b == e
  {
    var s := a + "-" + b;
    assert s[|a|] == '-';
    assert (c + "-" + e)[|c|] == '-';
    assert forall k :: 0 <= k < |c| ==> s[k] == c[k];
    assert forall k :: 0 <= k < |a| ==> s[k] == a[k];
    assert |a| == |c|;
    assert a == s[..|a|] && c == (c + "-" + e)[..|c|];
    assert b == s[|a| + 1..] && e == (c + "-" + e)[|c| + 1..];
  }

  /** A start week after the end week is a ValueError, whatever the index holds. */
  lemma StartAfterEndRejected(ids: seq<string>, startSnapshot: string, endSnapshot: string, totalPrefix: string,
                              y1: int, w1: int, y2: int, w2: int)
    requires ParsePair(startSnapshot) == Some((y1, w1)) && ParsePair(endSnapshot) == Some((y2, w2))
    requires ValidIsoWeek(y1, w1) && ValidIsoWeek(y2, w2)
    requires y1 > y2 || (y1 == y2 && w1 > w2)
    ensures MainWarcPaths(ids, startSnapshot, endSnapshot, totalPrefix).Err?
  {
    IsoMondayOrder(y1, w1, y2, w2);
    IsoMondayOrder(y2, w2, y1, w1);
  }

  // ---------------------------------------------------------------------------
  // fetch_urls_from_warc_path

  /** `urljoin(data_domain_prefix, warc)` for each non-empty line, in order. */
  function LineUrls(lines: seq<string>, join: string -> string): (r: seq<string>)
    ensures |r| <= |lines|
  {
    if lines == [] then []
    else
      var last := lines[|lines| - 1];
      LineUrls(lines[..|lines| - 1], join) + (if last != "" then [join(last)] else [])
  }

  /** The URLs listed in the decoded text of a `warc.paths.gz`. */
  function WarcUrls(text: string, join: string -> string): seq<string> {
    LineUrls(Split(text, '\n'), join)
  }

  /**
   * `fetch_urls_from_warc_path(warc_path, data_domain_prefix)`: `listing` is the
   * decoded `warc.paths.gz` (None when the request, the decompression or the decoding
   * raises, which gives []).
   */
  method FetchUrlsFromWarcPath(listing: Option<string>, join: string -> string) returns (urls: seq<string>)
    ensures urls == if listing.Some? then WarcUrls(listing.value, join) else []
  {
    if listing.None? {
      return [];
    }
    var lines := Split(listing.value, '\n');
    urls := [];
    for n := 0 to |lines|
      invariant urls == LineUrls(lines[..n], join)
    {
      assert lines[..n + 1][..n] == lines[..n];
      if lines[n] != "" {
        urls := urls + [join(lines[n])];
      }
    }
    assert lines[..|lines|] == lines;
  }

  /** Every URL joins a non-empty line, and every non-empty line gives a URL. */
  lemma {:induction false} LineUrlsSpec(lines: seq<string>, join: string -> string)
    ensures forall u :: u in LineUrls(lines, join) ==> exists k :: 0 <= k < |lines| && lines[k] != "" && u == join(lines[k])
    ensures forall k :: 0 <= k < |lines| && lines[k] != "" ==> join(lines[k]) in LineUrls(lines, join)
  {
    if lines != [] {
      var init := lines[..|lines| - 1];
      LineUrlsSpec(init, join);
      forall u | u in LineUrls(lines, join)
        ensures exists k :: 0 <= k < |lines| && lines[k] != "" && u == join(lines[k])
      {
        if u in LineUrls(init, join) {
          var k :| 0 <= k < |init| && init[k] != "" && u == join(init[k]);
          assert lines[k] == init[k];
        }
      }
      forall k | 0 <= k < |lines| && lines[k] != "" ensures join(lines[k]) in LineUrls(lines, join) {
        if k < |init| {
          assert init[k] == lines[k];
        }
      }
    }
  }

  /** The URLs of two runs of lines are those of the first run followed by those of the second. */
  lemma {:induction false} LineUrlsAppend(a: seq<string>, b: seq<string>, join: string -> string)
    decreases |b|
    ensures LineUrls(a + b, join) == LineUrls(a, join) + LineUrls(b, join)
  {
    if b == [] {
      assert a + b == a;
    } else {
      var init := b[..|b| - 1];
      LineUrlsAppend(a, init, join);
      assert (a + b)[..|a + b| - 1] == a + init;
      assert (a + b)[|a + b| - 1] == b[|b| - 1];
    }
  }

  lemma {:induction false} SplitAppendSep(s: string, sep: char)
    ensures Split(s + [sep], sep) == Split(s, sep) + [""]
  {
    if s == [] {
      assert Split([sep], sep) == [""] + Split([], sep);
    } else {
      SplitAppendSep(s[1..], sep);
      assert (s + [sep])[1..] == s[1..] + [sep];
    }
  }

  /** A trailing newline adds no URL, and no URL comes from an empty line. */
  lemma TrailingNewlineIgnored(text: string, join: string -> string)
    ensures WarcUrls(text + "\n", join) == WarcUrls(text, join)
  {
    SplitAppendSep(text, '\n');
    var lines := Split(text, '\n');
    assert (lines + [""])[..|lines|] == lines;
  }
}
