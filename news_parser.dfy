/**
 * `extractNewsFromResponse` (src/news_parser.cpp, lines 51-130): a scan of the raw JSON text
 * of a news API response for `"title":`, `"url":` and `"published_at":` fields, with
 * de-duplication by URL and an article fetch (`getArticleText`, an oracle here) before an
 * item is queued. Positions are `size_t` values, so `npos + 1` wraps to 0.
 */
module NewsParser {

  import opened Wrappers

  /** `std::string::npos`, the largest `size_t`. */
  const NPOS: nat := 0xFFFF_FFFF_FFFF_FFFF

  /** `size_t` addition and subtraction (modulo 2^64). */
  function Add(a: nat, b: nat): nat
  {
    (a + b) % (NPOS + 1)
  }

  function Sub(a: nat, b: nat): nat
  {
    (a - b) % (NPOS + 1)
  }

  lemma AddNoWrap(a: nat, b: nat)
    requires a + b <= NPOS
    ensures Add(a, b) == a + b
  {
  }

  /** `npos + 1` is 0. */
  lemma NposWraps()
    ensures Add(NPOS, 1) == 0
  {
  }

  lemma SubNoWrap(a: nat, b: nat)
    requires b <= a <= NPOS
    ensures Sub(a, b) == a - b
  {
  }

  /** `pat` occurs in `s` at position `i`. */
  predicate MatchAt(s: string, pat: string, i: nat)
  {
    i + |pat| <= |s| && s[i..i + |pat|] == pat
  }

  /** A quote occurs at `i` exactly when the character there is a quote. */
  lemma QuoteAt(s: string, i: nat)
    ensures MatchAt(s, "\"", i) <==> i < |s| && s[i] == '"'
  {
    if i < |s| {
      assert s[i..i + 1] == [s[i]];
    }
  }

  /** One differing character rules out an occurrence. */
  lemma Mismatch(s: string, pat: string, i: nat, k: nat)
    requires k < |pat| && i + k < |s| && s[i + k] != pat[k]
    ensures !MatchAt(s, pat, i)
  {
    if i + |pat| <= |s| {
      assert s[i..i + |pat|][k] == s[i + k];
    }
  }

  /**
   * `s.find(pat, from)`: the first position at or after `from` where `pat` occurs, or `npos`
   * (in particular whenever `from` is past the end).
   */
  function Find(s: string, pat: string, from: nat): (r: nat)
    requires |s| < NPOS && pat != []
    ensures r == NPOS || (from <= r && MatchAt(s, pat, r) && r < |s|)
    decreases |s| - from
  {
    if from + |pat| > |s| then NPOS
    else if MatchAt(s, pat, from) then from
    else Find(s, pat, from + 1)
  }

  /** An occurrence at `j` is found, at `j` or earlier. */
  lemma {:induction false} FindReaches(s: string, pat: string, from: nat, j: nat)
    requires |s| < NPOS && pat != []
    requires from <= j && MatchAt(s, pat, j)
    ensures Find(s, pat, from) != NPOS && Find(s, pat, from) <= j
    decreases j - from
  {
    if from < j && !MatchAt(s, pat, from) {
      FindReaches(s, pat, from + 1, j);
    }
  }

  /** An occurrence at `i` is what Find reports from `i`. */
  lemma FindHere(s: string, pat: string, i: nat)
    requires |s| < NPOS && pat != [] && MatchAt(s, pat, i)
    ensures Find(s, pat, i) == i
  {
  }

  /** No occurrence at `i`: Find from `i` goes on from `i + 1`. */
  lemma FindSkip(s: string, pat: string, i: nat)
    requires |s| < NPOS && pat != [] && i + |pat| <= |s| && !MatchAt(s, pat, i)
    ensures Find(s, pat, i) == Find(s, pat, i + 1)
  {
  }

  /** A quote at `i` is found from `i`. */
  lemma QuoteHere(s: string, i: nat)
    requires |s| < NPOS && i < |s| && s[i] == '"'
    ensures Find(s, "\"", i) == i
  {
    QuoteAt(s, i);
  }

  /** Another character at `i` is skipped. */
  lemma QuoteSkip(s: string, i: nat)
    requires |s| < NPOS && i < |s| && s[i] != '"'
    ensures Find(s, "\"", i) == Find(s, "\"", i + 1)
  {
    QuoteAt(s, i);
  }

  /** A piece of a concatenation occurs where it was put. */
  lemma MatchIn(a: string, b: string, c: string)
    ensures MatchAt(a + b + c, b, |a|)
  {
    assert (a + b + c)[|a|..|a| + |b|] == b;
  }

  /** Find reports the first occurrence: none lies between `from` and the result. */
  lemma {:induction false} FindIsFirst(s: string, pat: string, from: nat, j: nat)
    requires |s| < NPOS && pat != []
    requires from <= j < (if Find(s, pat, from) == NPOS then |s| else Find(s, pat, from))
    ensures !MatchAt(s, pat, j)
    decreases |s| - from
  {
    if j > from {
      FindIsFirst(s, pat, from + 1, j);
    }
  }

  /** `s.substr(start, len)`: at most `len` characters from `start`. */
  function Substr(s: string, start: nat, len: nat): (r: string)
    requires start <= |s|
    ensures r == s[start..if len < |s| - start then start + len else |s|]
  {
    if len < |s| - start then s[start..start + len] else s[start..]
  }


  /** A news item: `NewsItem` of include/globals.h. */
  datatype NewsItem = NewsItem(title: string, url: string, publishedAt: string, text: string)

  /** The three fields read for one article. */
  datatype Header = Header(title: string, url: string, publishedAt: string)

  /** One pass of the scan: no further article, or the fields and the position reached. */
  datatype Scan = Stop | Found(header: Header, next: nat)

  // ---------------------------------------------------------------------------------------
  // The scan as written.

  /**
   * Lines 70-73 as written: the value runs from just after the first quote at or after
   * `from` to the next quote. A missing opening quote makes `start` wrap to 0.
   */
  function QuotedAsWritten(s: string, from: nat): (string, nat)
    requires |s| < NPOS
  {
    var start := Add(Find(s, "\"", from), 1);
    var end := Find(s, "\"", start);
    (Substr(s, start, Sub(end, start)), end)
  }

  /** Lines 76-84 as written: the marker must occur, its value is read at `offset` past it. */
  function FieldAsWritten(s: string, key: string, offset: nat, from: nat): Option<(string, nat)>
    requires |s| < NPOS && key != []
  {
    var m := Find(s, key, from);
    if m == NPOS then None else Some(QuotedAsWritten(s, Add(m, offset)))
  }

  /** Lines 58-96 as written, with the +16 offset after `"published_at":`. */
  function ScanStepAsWritten(s: string, pos: nat): Scan
    requires |s| < NPOS
  {
    match FieldAsWritten(s, "\"title\":", 8, pos)
    case None => Stop
    case Some((title, e1)) =>
      match FieldAsWritten(s, "\"url\":", 6, e1)
      case None => Stop
      case Some((url, e2)) =>
        match FieldAsWritten(s, "\"published_at\":", 16, e2)
        case None => Stop
        case Some((published, e3)) => Found(Header(title, url, published), e3)
  }

  // ---------------------------------------------------------------------------------------
  // The scan corrected: a field without an opening quote ends the scan, and, more robustly than
  // +16 (which suits only a space after the colon), the published_at value is looked for right
  // after its 15-character marker.

  /** The value between the first quote at or after `from` and the next one (or the end). */
  function Quoted(s: string, from: nat): (r: Option<(string, nat)>)
    requires |s| < NPOS
    ensures r.Some? ==> from < r.value.1 && (r.value.1 == NPOS || r.value.1 < |s|)
  {
    var q := Find(s, "\"", from);
    if q == NPOS then None
    else
      var end := Find(s, "\"", q + 1);
      Some((if end == NPOS then s[q + 1..] else s[q + 1..end], end))
  }

  /** Lines 76-84 corrected: the marker must occur and its value must have an opening quote. */
  function Field(s: string, key: string, offset: nat, from: nat): (r: Option<(string, nat)>)
    requires |s| < NPOS && key != []
    ensures r.Some? ==> from < r.value.1 && (r.value.1 == NPOS || r.value.1 < |s|)
  {
    var m := Find(s, key, from);
    if m == NPOS then None else Quoted(s, m + offset)
  }

  /** Lines 58-96 corrected: offset 15 after `"published_at":`, and a missing field stops. */
  function ScanStep(s: string, pos: nat): (r: Scan)
    requires |s| < NPOS
    ensures pos > |s| ==> r == Stop
    ensures r.Found? ==> r.next == NPOS || pos < r.next < |s|
  {
    match Field(s, "\"title\":", 8, pos)
    case None => Stop
    case Some((title, e1)) =>
      match Field(s, "\"url\":", 6, e1)
      case None => Stop
      case Some((url, e2)) =>
        match Field(s, "\"published_at\":", 15, e2)
        case None => Stop
        case Some((published, e3)) => Found(Header(title, url, published), e3)
  }

  /**
   * Lines 99-128: a URL already seen is skipped without a fetch; otherwise a successful
   * fetch queues the item and marks its URL seen, and a failed one changes nothing.
   */
  function Admit(h: Header, queue: seq<NewsItem>, seen: set<string>, fetch: string -> Option<string>)
    : (seq<NewsItem>, set<string>)
  {
    if h.url in seen then (queue, seen)
    else match fetch(h.url)
      case None => (queue, seen)
      case Some(text) => (queue + [NewsItem(h.title, h.url, h.publishedAt, text)], seen + {h.url})
  }

  /** The whole scan from `pos`: the final queue and set of seen URLs. */
  function Extract(s: string, pos: nat, queue: seq<NewsItem>, seen: set<string>,
                   fetch: string -> Option<string>): (seq<NewsItem>, set<string>)
    requires |s| < NPOS
    decreases if pos <= |s| then |s| + 1 - pos else 0
  {
    match ScanStep(s, pos)
    case Stop => (queue, seen)
    case Found(h, next) =>
      var (q, sn) := Admit(h, queue, seen, fetch);
      Extract(s, next, q, sn, fetch)
  }

  // ---------------------------------------------------------------------------------------
  // Properties of the scan.

  /** A field value is the text after the first quote at or after `from`, up to the next quote. */
  lemma QuotedValue(s: string, from: nat, q: nat)
    requires |s| < NPOS
    requires from <= q < |s| && s[q] == '"' && forall j :: from <= j < q ==> s[j] != '"'
    ensures Quoted(s, from).Some?
    ensures Quoted(s, from).value.1 == NPOS ==> Quoted(s, from).value.0 == s[q + 1..]
    ensures Quoted(s, from).value.1 != NPOS ==>
              var end := Quoted(s, from).value.1;
              q < end < |s| && s[end] == '"' && Quoted(s, from).value.0 == s[q + 1..end]
  {
    QuoteAt(s, q);
    FindReaches(s, "\"", from, q);
    var f := Find(s, "\"", from);
    QuoteAt(s, f);
    assert f == q;
    var end := Find(s, "\"", q + 1);
    if end != NPOS {
      QuoteAt(s, end);
    }
  }

  /** A field value never contains a quote. */
  lemma QuotedHasNoQuote(s: string, from: nat)
    requires |s| < NPOS && Quoted(s, from).Some?
    ensures '"' !in Quoted(s, from).value.0
  {
    var q := Find(s, "\"", from);
    var v := Quoted(s, from).value.0;
    forall i | 0 <= i < |v|
      ensures v[i] != '"'
    {
      FindIsFirst(s, "\"", q + 1, q + 1 + i);
      QuoteAt(s, q + 1 + i);
    }
  }

  /** No value is read when no quote follows `from`, and only then. */
  lemma QuotedMissing(s: string, from: nat)
    requires |s| < NPOS
    ensures Quoted(s, from).None? <==> forall j :: from <= j < |s| ==> s[j] != '"'
  {
    var f := Find(s, "\"", from);
    if f != NPOS {
      QuoteAt(s, f);
    } else {
      forall j | from <= j < |s|
        ensures s[j] != '"'
      {
        FindIsFirst(s, "\"", from, j);
        QuoteAt(s, j);
      }
    }
  }

  lemma {:induction false} NoMatchFindsNothing(s: string, pat: string, from: nat)
    requires |s| < NPOS && pat != []
    requires forall j :: from <= j ==> !MatchAt(s, pat, j)
    ensures Find(s, pat, from) == NPOS
  {
  }

  /** The scan ends at once when no `"title":` marker lies at or after `pos`. */
  lemma StopsWithoutTitle(s: string, pos: nat, queue: seq<NewsItem>, seen: set<string>,
                          fetch: string -> Option<string>)
    requires |s| < NPOS
    requires forall j :: pos <= j ==> !MatchAt(s, "\"title\":", j)
    ensures Extract(s, pos, queue, seen, fetch) == (queue, seen)
  {
    NoMatchFindsNothing(s, "\"title\":", pos);
  }

  /**
   * A title without a later `"url":` marker, or a url without a later `"published_at":`
   * marker, ends the whole scan: nothing after it is looked at.
   */
  lemma StopsWithoutUrlOrDate(s: string, pos: nat, queue: seq<NewsItem>, seen: set<string>,
                              fetch: string -> Option<string>, title: string, e1: nat)
    requires |s| < NPOS
    requires Field(s, "\"title\":", 8, pos) == Some((title, e1))
    requires (forall j :: e1 <= j ==> !MatchAt(s, "\"url\":", j))
          || (Field(s, "\"url\":", 6, e1).Some? &&
              forall j :: Field(s, "\"url\":", 6, e1).value.1 <= j ==> !MatchAt(s, "\"published_at\":", j))
    ensures Extract(s, pos, queue, seen, fetch) == (queue, seen)
  {
    if Field(s, "\"url\":", 6, e1).Some? &&
       forall j :: Field(s, "\"url\":", 6, e1).value.1 <= j ==> !MatchAt(s, "\"published_at\":", j) {
      NoMatchFindsNothing(s, "\"published_at\":", Field(s, "\"url\":", 6, e1).value.1);
    } else {
      NoMatchFindsNothing(s, "\"url\":", e1);
    }
  }

  /** An already seen URL is neither fetched nor queued: the oracle is not consulted. */
  lemma DuplicateSkipped(s: string, pos: nat, queue: seq<NewsItem>, seen: set<string>,
                         fetch: string -> Option<string>, other: string -> Option<string>)
    requires |s| < NPOS && ScanStep(s, pos).Found? && ScanStep(s, pos).header.url in seen
    ensures Admit(ScanStep(s, pos).header, queue, seen, fetch) == (queue, seen)
    ensures Admit(ScanStep(s, pos).header, queue, seen, other) == (queue, seen)
    ensures Extract(s, pos, queue, seen, fetch) == Extract(s, ScanStep(s, pos).next, queue, seen, fetch)
  {
  }

  /**
   * A new URL is fetched: on success the item goes to the back of the queue and its URL is
   * marked seen; on failure neither happens.
   */
  lemma FetchOutcome(s: string, pos: nat, queue: seq<NewsItem>, seen: set<string>,
                     fetch: string -> Option<string>)
    requires |s| < NPOS && ScanStep(s, pos).Found? && ScanStep(s, pos).header.url !in seen
    ensures var h, next := ScanStep(s, pos).header, ScanStep(s, pos).next;
            match fetch(h.url)
            case Some(text) =>
              Extract(s, pos, queue, seen, fetch)
              == Extract(s, next, queue + [NewsItem(h.title, h.url, h.publishedAt, text)], seen + {h.url}, fetch)
            case None =>
              Extract(s, pos, queue, seen, fetch) == Extract(s, next, queue, seen, fetch)
  {
  }

  /** The headers the scan reads from `pos` on, in the order of their title markers. */
  function Headers(s: string, pos: nat): (hs: seq<Header>)
    requires |s| < NPOS
    decreases if pos <= |s| then |s| + 1 - pos else 0
  {
    match ScanStep(s, pos)
    case Stop => []
    case Found(h, next) => [h] + Headers(s, next)
  }

  /** Admission of a sequence of headers in order, as a reference for the scan's bookkeeping. */
  function AdmitAll(hs: seq<Header>, queue: seq<NewsItem>, seen: set<string>,
                    fetch: string -> Option<string>): (seq<NewsItem>, set<string>)
    decreases |hs|
  {
    if hs == [] then (queue, seen)
    else
      var (q, sn) := Admit(hs[0], queue, seen, fetch);
      AdmitAll(hs[1..], q, sn, fetch)
  }

  function UrlsOf(items: seq<NewsItem>): set<string>
  {
    set i | 0 <= i < |items| :: items[i].url
  }

  /**
   * The scan is the admission, in title-marker order, of the headers it reads: items are
   * queued in the order their markers occur.
   */
  lemma {:induction false} ExtractAdmitsHeaders(s: string, pos: nat, queue: seq<NewsItem>,
                                                seen: set<string>, fetch: string -> Option<string>)
    requires |s| < NPOS
    ensures Extract(s, pos, queue, seen, fetch) == AdmitAll(Headers(s, pos), queue, seen, fetch)
    decreases if pos <= |s| then |s| + 1 - pos else 0
  {
    match ScanStep(s, pos)
    case Stop =>
    case Found(h, next) =>
      var (q, sn) := Admit(h, queue, seen, fetch);
      ExtractAdmitsHeaders(s, next, q, sn, fetch);
      assert Headers(s, pos)[1..] == Headers(s, next);
  }

  /**
   * Admission only appends: every item added is a fetched article (its text is what the
   * fetch gave) whose URL was not seen before, and no URL is added twice.
   */
  lemma {:induction false} AdmitAllAppends(hs: seq<Header>, queue: seq<NewsItem>, seen: set<string>,
                                           fetch: string -> Option<string>)
    ensures var (q, sn) := AdmitAll(hs, queue, seen, fetch);
            |queue| <= |q| && q[..|queue|] == queue && seen <= sn
            && (forall i :: |queue| <= i < |q| ==> q[i].url !in seen && q[i].url in sn)
            && (forall i :: |queue| <= i < |q| ==> fetch(q[i].url) == Some(q[i].text))
            && (forall i, j :: |queue| <= i < j < |q| ==> q[i].url != q[j].url)
    decreases |hs|
  {
    if hs != [] {
      var (q1, sn1) := Admit(hs[0], queue, seen, fetch);
      AdmitAllAppends(hs[1..], q1, sn1, fetch);
    }
  }

  /** A URL becomes seen exactly when its item is queued. */
  lemma {:induction false} AdmitAllSeen(hs: seq<Header>, queue: seq<NewsItem>, seen: set<string>,
                                        fetch: string -> Option<string>)
    ensures var (q, sn) := AdmitAll(hs, queue, seen, fetch);
            |queue| <= |q| && sn == seen + UrlsOf(q[|queue|..])
    decreases |hs|
  {
    AdmitAllAppends(hs, queue, seen, fetch);
    if hs == [] {
      assert UrlsOf([]) == {};
    } else {
      var (q1, sn1) := Admit(hs[0], queue, seen, fetch);
      AdmitAllSeen(hs[1..], q1, sn1, fetch);
      AdmitAllAppends(hs[1..], q1, sn1, fetch);
      var (q, sn) := AdmitAll(hs, queue, seen, fetch);
      assert q1 == queue || (q1 == queue + [q1[|queue|]] && sn1 == seen + {q1[|queue|].url});
      if q1 == queue {
        assert sn1 == seen;
      } else {
        var added, rest := q[|queue|..], q[|q1|..];
        assert added == [q1[|queue|]] + rest;
        UrlsOfCons(q1[|queue|], rest);
      }
    }
  }

  /** The URLs of an item followed by more items. */
  lemma UrlsOfCons(item: NewsItem, rest: seq<NewsItem>)
    ensures UrlsOf([item] + rest) == {item.url} + UrlsOf(rest)
  {
    var added := [item] + rest;
    forall u | u in UrlsOf(added) ensures u in {item.url} + UrlsOf(rest) {
      var i :| 0 <= i < |added| && added[i].url == u;
      if i > 0 {
        assert rest[i - 1].url == u;
      }
    }
    forall u | u in UrlsOf(rest) ensures u in UrlsOf(added) {
      var i :| 0 <= i < |rest| && rest[i].url == u;
      assert added[i + 1].url == u;
    }
    assert added[0].url == item.url;
  }

  // ---------------------------------------------------------------------------------------
  // The two defects, and where the scan as written and the corrected one agree.

  /** A response whose title has no value: `{"url":"u","published_at": "p","title":`. */
  function LoopResponse(): string
  {
    "{" + "\"url\":" + "\"u\"" + "," + "\"published_at\":" + " \"p\"" + "," + "\"title\":"
  }

  /** A compact response: `"title":"T","url":"U","published_at":"P","x":1`. */
  function CompactResponse(): string
  {
    "\"title\":" + "\"T\"," + "\"url\":" + "\"U\"," + "\"published_at\":" + "\"P\",\"x\":1"
  }

  lemma SliceOne(s: string, i: nat)
    requires i < |s|
    ensures s[i..i + 1] == [s[i]]
  {
  }

  /** Where the title marker and its quotes lie in LoopResponse. */
  lemma LoopTitleChars(r: string)
    requires r == LoopResponse()
    ensures |r| == 39 && r[0] == '{' && r[1] == '"'
    ensures !MatchAt(r, "\"title\":", 29) && !MatchAt(r, "\"title\":", 30) && MatchAt(r, "\"title\":", 31)
  {
    Mismatch(r, "\"title\":", 29, 1);
    Mismatch(r, "\"title\":", 30, 0);
    MatchIn("{" + "\"url\":" + "\"u\"" + "," + "\"published_at\":" + " \"p\"" + ",", "\"title\":", []);
  }

  /** Where the url marker and its quotes lie in LoopResponse. */
  lemma LoopUrlChars(r: string)
    requires r == LoopResponse()
    ensures |r| == 39 && r[7] == '"' && r[8] == 'u' && r[9] == '"'
    ensures MatchAt(r, "\"url\":", 1)
  {
    MatchIn("{", "\"url\":", "\"u\"" + "," + "\"published_at\":" + " \"p\"" + "," + "\"title\":");
  }

  /** Where the published_at marker and its quotes lie in LoopResponse. */
  lemma LoopDateChars(r: string)
    requires r == LoopResponse()
    ensures |r| == 39 && r[27] == '"' && r[28] == 'p' && r[29] == '"'
    ensures !MatchAt(r, "\"published_at\":", 9) && !MatchAt(r, "\"published_at\":", 10) && MatchAt(r, "\"published_at\":", 11)
  {
    Mismatch(r, "\"published_at\":", 9, 1);
    Mismatch(r, "\"published_at\":", 10, 0);
    MatchIn("{" + "\"url\":" + "\"u\"" + ",", "\"published_at\":", " \"p\"" + "," + "\"title\":");
  }

  /** Where the title marker and its quotes lie in CompactResponse. */
  lemma CompactTitleChars(r: string)
    requires r == CompactResponse()
    ensures |r| == 46 && r[8] == '"' && r[9] == 'T' && r[10] == '"'
    ensures MatchAt(r, "\"title\":", 0)
  {
    MatchIn([], "\"title\":", "\"T\"," + "\"url\":" + "\"U\"," + "\"published_at\":" + "\"P\",\"x\":1");
  }

  /** Where the url marker and its quotes lie in CompactResponse. */
  lemma CompactUrlChars(r: string)
    requires r == CompactResponse()
    ensures |r| == 46 && r[18] == '"' && r[19] == 'U' && r[20] == '"'
    ensures !MatchAt(r, "\"url\":", 10) && !MatchAt(r, "\"url\":", 11) && MatchAt(r, "\"url\":", 12)
  {
    Mismatch(r, "\"url\":", 10, 1);
    Mismatch(r, "\"url\":", 11, 0);
    MatchIn("\"title\":" + "\"T\",", "\"url\":", "\"U\"," + "\"published_at\":" + "\"P\",\"x\":1");
  }

  /** Where the published_at marker and the quotes after it lie in CompactResponse. */
  lemma CompactDateChars(r: string)
    requires r == CompactResponse()
    ensures |r| == 46 && r[37] == '"' && r[38] == 'P' && r[39] == '"' && r[40] == ',' && r[41] == '"'
    ensures !MatchAt(r, "\"published_at\":", 20) && !MatchAt(r, "\"published_at\":", 21) && MatchAt(r, "\"published_at\":", 22)
  {
    CompactDateQuotes(r);
    Mismatch(r, "\"published_at\":", 20, 1);
    Mismatch(r, "\"published_at\":", 21, 0);
    MatchIn("\"title\":" + "\"T\"," + "\"url\":" + "\"U\",", "\"published_at\":", "\"P\",\"x\":1");
  }

  lemma CompactDateQuotes(r: string)
    requires r == CompactResponse()
    ensures |r| == 46 && r[37] == '"' && r[38] == 'P' && r[39] == '"' && r[40] == ',' && r[41] == '"'
    ensures r[21] == ','
  {
    var a := "\"title\":" + "\"T\"," + "\"url\":" + "\"U\"," + "\"published_at\":";
    assert |a| == 37 && r == a + "\"P\",\"x\":1";
    assert r[37..] == "\"P\",\"x\":1";
  }

  /** The title read as written from position 29 of LoopResponse: no quote follows, so `{`. */
  lemma LoopTitle(r: string)
    requires r == LoopResponse()
    ensures FieldAsWritten(r, "\"title\":", 8, 29) == Some(("{", 1))
  {
    LoopTitleChars(r);
    FindSkip(r, "\"title\":", 29);
    FindSkip(r, "\"title\":", 30);
    FindHere(r, "\"title\":", 31);
    AddNoWrap(31, 8);
    assert Find(r, "\"", 39) == NPOS;
    NposWraps();
    QuoteSkip(r, 0);
    QuoteHere(r, 1);
    SubNoWrap(1, 0);
    SliceOne(r, 0);
  }

  /** The url read as written after it. */
  lemma LoopUrl(r: string)
    requires r == LoopResponse()
    ensures FieldAsWritten(r, "\"url\":", 6, 1) == Some(("u", 9))
  {
    LoopUrlChars(r);
    FindHere(r, "\"url\":", 1);
    AddNoWrap(1, 6);
    QuoteHere(r, 7);
    AddNoWrap(7, 1);
    QuoteSkip(r, 8);
    QuoteHere(r, 9);
    SubNoWrap(9, 8);
    SliceOne(r, 8);
  }

  /** The published_at value read as written after that. */
  lemma LoopDate(r: string)
    requires r == LoopResponse()
    ensures FieldAsWritten(r, "\"published_at\":", 16, 9) == Some(("p", 29))
  {
    LoopDateChars(r);
    FindSkip(r, "\"published_at\":", 9);
    FindSkip(r, "\"published_at\":", 10);
    FindHere(r, "\"published_at\":", 11);
    AddNoWrap(11, 16);
    QuoteHere(r, 27);
    AddNoWrap(27, 1);
    QuoteSkip(r, 28);
    QuoteHere(r, 29);
    SubNoWrap(29, 28);
    SliceOne(r, 28);
  }

  /** The title of CompactResponse, as written. */
  lemma CompactTitle(r: string)
    requires r == CompactResponse()
    ensures FieldAsWritten(r, "\"title\":", 8, 0) == Some(("T", 10))
  {
    CompactTitleChars(r);
    FindHere(r, "\"title\":", 0);
    AddNoWrap(0, 8);
    QuoteHere(r, 8);
    AddNoWrap(8, 1);
    QuoteSkip(r, 9);
    QuoteHere(r, 10);
    SubNoWrap(10, 9);
    SliceOne(r, 9);
  }

  /** Its url, as written. */
  lemma CompactUrl(r: string)
    requires r == CompactResponse()
    ensures FieldAsWritten(r, "\"url\":", 6, 10) == Some(("U", 20))
  {
    CompactUrlChars(r);
    FindSkip(r, "\"url\":", 10);
    FindSkip(r, "\"url\":", 11);
    FindHere(r, "\"url\":", 12);
    AddNoWrap(12, 6);
    QuoteHere(r, 18);
    AddNoWrap(18, 1);
    QuoteSkip(r, 19);
    QuoteHere(r, 20);
    SubNoWrap(20, 19);
    SliceOne(r, 19);
  }

  /** Its published_at value as written: the +16 offset skips the opening quote. */
  lemma CompactDate(r: string)
    requires r == CompactResponse()
    ensures FieldAsWritten(r, "\"published_at\":", 16, 20) == Some((",", 41))
  {
    CompactDateChars(r);
    FindSkip(r, "\"published_at\":", 20);
    FindSkip(r, "\"published_at\":", 21);
    FindHere(r, "\"published_at\":", 22);
    AddNoWrap(22, 16);
    QuoteSkip(r, 38);
    QuoteHere(r, 39);
    AddNoWrap(39, 1);
    QuoteSkip(r, 40);
    QuoteHere(r, 41);
    SubNoWrap(41, 40);
    SliceOne(r, 40);
  }

  /** The title of CompactResponse, corrected scan. */
  lemma CompactTitleCorrected(r: string)
    requires r == CompactResponse()
    ensures Field(r, "\"title\":", 8, 0) == Some(("T", 10))
  {
    CompactTitleChars(r);
    FindHere(r, "\"title\":", 0);
    QuoteHere(r, 8);
    QuoteSkip(r, 9);
    QuoteHere(r, 10);
    SliceOne(r, 9);
  }

  /** Its url, corrected scan. */
  lemma CompactUrlCorrected(r: string)
    requires r == CompactResponse()
    ensures Field(r, "\"url\":", 6, 10) == Some(("U", 20))
  {
    CompactUrlChars(r);
    FindSkip(r, "\"url\":", 10);
    FindSkip(r, "\"url\":", 11);
    FindHere(r, "\"url\":", 12);
    QuoteHere(r, 18);
    QuoteSkip(r, 19);
    QuoteHere(r, 20);
    SliceOne(r, 19);
  }

  /** Its published_at value, corrected scan. */
  lemma CompactDateCorrected(r: string)
    requires r == CompactResponse()
    ensures Field(r, "\"published_at\":", 15, 20) == Some(("P", 39))
  {
    CompactDateChars(r);
    FindSkip(r, "\"published_at\":", 20);
    FindSkip(r, "\"published_at\":", 21);
    FindHere(r, "\"published_at\":", 22);
    QuoteHere(r, 37);
    QuoteSkip(r, 38);
    QuoteHere(r, 39);
    SliceOne(r, 38);
  }

  /**
   * A marker whose value has no opening quote restarts the value search at position 0: on
   * LoopResponse the pass from position 29 comes back to position 29 with an already seen
   * URL, so the loop as written never ends.
   */
  lemma ScanLoopsAsWritten(r: string)
    requires r == LoopResponse()
    ensures ScanStepAsWritten(r, 29) == Found(Header("{", "u", "p"), 29)
    ensures Admit(Header("{", "u", "p"), [], {"u"}, _ => None) == ([], {"u"})
  {
    LoopTitle(r);
    LoopUrl(r);
    LoopDate(r);
  }

  /** On the same response the corrected pass from position 29 ends the scan. */
  lemma ScanStopsCorrected(r: string)
    requires r == LoopResponse()
    ensures ScanStep(r, 29) == Stop
  {
    LoopTitleChars(r);
    FindSkip(r, "\"title\":", 29);
    FindSkip(r, "\"title\":", 30);
    FindHere(r, "\"title\":", 31);
    assert Find(r, "\"", 39) == NPOS;
  }

  /**
   * On CompactResponse, with no space after `"published_at":`, the scan as written reads
   * `,` (the text between the closing quote and the next key) as the date.
   */
  lemma PublishedOffsetAsWritten(r: string)
    requires r == CompactResponse()
    ensures ScanStepAsWritten(r, 0) == Found(Header("T", "U", ","), 41)
  {
    CompactTitle(r);
    CompactUrl(r);
    CompactDate(r);
  }

  /** The corrected scan reads `P` from the same response. */
  lemma PublishedOffsetCorrected(r: string)
    requires r == CompactResponse()
    ensures ScanStep(r, 0) == Found(Header("T", "U", "P"), 39)
  {
    CompactTitleCorrected(r);
    CompactUrlCorrected(r);
    CompactDateCorrected(r);
  }

  /**
   * The corrected reader takes a published_at value right after its marker: when a quote
   * follows the marker directly, the value starts one character later.
   */
  lemma PublishedValueCorrected(s: string, p: nat)
    requires |s| < NPOS && MatchAt(s, "\"published_at\":", p) && p + 15 < |s| && s[p + 15] == '"'
    ensures Quoted(s, p + 15).Some?
    ensures var end := Quoted(s, p + 15).value.1;
            Quoted(s, p + 15).value.0 == if end == NPOS then s[p + 16..] else s[p + 16..end]
  {
    QuotedValue(s, p + 15, p + 15);
  }

  /** When the opening quote is present the two value readers agree. */
  lemma QuotedAgrees(s: string, from: nat)
    requires |s| < NPOS && Find(s, "\"", from) != NPOS
    ensures Quoted(s, from) == Some(QuotedAsWritten(s, from))
  {
    var start := Find(s, "\"", from) + 1;
    AddNoWrap(start - 1, 1);
    var end := Find(s, "\"", start);
    SubNoWrap(end, start);
    var w := QuotedAsWritten(s, from);
    assert w == (Substr(s, start, end - start), end);
    if end == NPOS {
      assert w.0 == s[start..];
    } else {
      assert w.0 == s[start..end];
    }
  }

  /** The +16 offset finds the same quote as +15 unless the marker is followed by a quote. */
  lemma OffsetAgrees(s: string, p: nat)
    requires |s| < NPOS && MatchAt(s, "\"published_at\":", p)
    requires p + 15 < |s| ==> s[p + 15] != '"'
    ensures Find(s, "\"", p + 15) == Find(s, "\"", p + 16)
  {
    if p + 15 < |s| {
      QuoteAt(s, p + 15);
    }
  }


  /**
   * Every marker the scan can meet is followed by an opening quote, and `"published_at":` is
   * not followed directly by a quote: the shape of the feed's pretty-printed JSON.
   */
  predicate WellQuoted(s: string)
    requires |s| < NPOS
  {
    (forall j: nat | j < |s| && MatchAt(s, "\"title\":", j) :: Find(s, "\"", j + 8) != NPOS) &&
    (forall j: nat | j < |s| && MatchAt(s, "\"url\":", j) :: Find(s, "\"", j + 6) != NPOS) &&
    (forall j: nat | j < |s| && MatchAt(s, "\"published_at\":", j) ::
       Find(s, "\"", j + 16) != NPOS && (j + 15 < |s| ==> s[j + 15] != '"'))
  }

  /** Reading from two positions that reach the same first quote gives the same value. */
  lemma QuotedSameFind(s: string, a: nat, b: nat)
    requires |s| < NPOS && Find(s, "\"", a) == Find(s, "\"", b)
    ensures Quoted(s, a) == Quoted(s, b)
  {
    var q := Find(s, "\"", a);
    if q != NPOS {
      var end := Find(s, "\"", q + 1);
      var v := (if end == NPOS then s[q + 1..] else s[q + 1..end], end);
      assert Quoted(s, a) == Some(v);
      assert Quoted(s, b) == Some(v);
    }
  }

  /** With the opening quote present after the marker, both field readers agree. */
  lemma FieldAgrees(s: string, key: string, offset: nat, from: nat)
    requires |s| < NPOS && key != [] && offset <= |key|
    requires Find(s, key, from) != NPOS ==> Find(s, "\"", Find(s, key, from) + offset) != NPOS
    ensures Field(s, key, offset, from) == FieldAsWritten(s, key, offset, from)
  {
    var m := Find(s, key, from);
    if m != NPOS {
      AddNoWrap(m, offset);
      QuotedAgrees(s, m + offset);
    }
  }

  /** The date read at +15 equals the one read at +16 when no quote follows the marker. */
  lemma DateAgrees(s: string, from: nat)
    requires |s| < NPOS
    requires var m := Find(s, "\"published_at\":", from);
             m != NPOS ==> Find(s, "\"", m + 16) != NPOS && (m + 15 < |s| ==> s[m + 15] != '"')
    ensures Field(s, "\"published_at\":", 15, from) == FieldAsWritten(s, "\"published_at\":", 16, from)
  {
    var m := Find(s, "\"published_at\":", from);
    if m != NPOS {
      AddNoWrap(m, 16);
      OffsetAgrees(s, m);
      QuotedSameFind(s, m + 15, m + 16);
      QuotedAgrees(s, m + 16);
    }
  }

  /** On well-quoted input both readers of the `"title":` field agree. */
  lemma TitleAgrees(s: string, from: nat)
    requires |s| < NPOS && WellQuoted(s)
    ensures Field(s, "\"title\":", 8, from) == FieldAsWritten(s, "\"title\":", 8, from)
  {
    var m := Find(s, "\"title\":", from);
    if m != NPOS {
      assert MatchAt(s, "\"title\":", m);
    }
    FieldAgrees(s, "\"title\":", 8, from);
  }

  /** On well-quoted input both readers of the `"url":` field agree. */
  lemma UrlAgrees(s: string, from: nat)
    requires |s| < NPOS && WellQuoted(s)
    ensures Field(s, "\"url\":", 6, from) == FieldAsWritten(s, "\"url\":", 6, from)
  {
    var m := Find(s, "\"url\":", from);
    if m != NPOS {
      assert MatchAt(s, "\"url\":", m);
    }
    FieldAgrees(s, "\"url\":", 6, from);
  }

  /** On well-quoted input the date read at +15 equals the one read at +16. */
  lemma DateStepAgrees(s: string, from: nat)
    requires |s| < NPOS && WellQuoted(s)
    ensures Field(s, "\"published_at\":", 15, from) == FieldAsWritten(s, "\"published_at\":", 16, from)
  {
    var m := Find(s, "\"published_at\":", from);
    if m != NPOS {
      assert MatchAt(s, "\"published_at\":", m);
    }
    DateAgrees(s, from);
  }

  /** The two scan steps agree once each of their three field reads agrees. */
  lemma StepFromFields(s: string, pos: nat)
    requires |s| < NPOS
    requires Field(s, "\"title\":", 8, pos) == FieldAsWritten(s, "\"title\":", 8, pos)
    requires var f1 := Field(s, "\"title\":", 8, pos);
             f1.Some? ==> Field(s, "\"url\":", 6, f1.value.1) == FieldAsWritten(s, "\"url\":", 6, f1.value.1)
    requires var f1 := Field(s, "\"title\":", 8, pos);
             var f2 := if f1.Some? then Field(s, "\"url\":", 6, f1.value.1) else None;
             f2.Some? ==> Field(s, "\"published_at\":", 15, f2.value.1) ==
                          FieldAsWritten(s, "\"published_at\":", 16, f2.value.1)
    ensures ScanStep(s, pos) == ScanStepAsWritten(s, pos)
  {
  }

  /** On well-quoted input the corrected scan step reads exactly what the original reads. */
  lemma ScanStepAgrees(s: string, pos: nat)
    requires |s| < NPOS && WellQuoted(s)
    ensures ScanStep(s, pos) == ScanStepAsWritten(s, pos)
  {
    TitleAgrees(s, pos);
    var f1 := Field(s, "\"title\":", 8, pos);
    if f1.Some? {
      UrlAgrees(s, f1.value.1);
      var f2 := Field(s, "\"url\":", 6, f1.value.1);
      if f2.Some? {
        DateStepAgrees(s, f2.value.1);
      }
    }
    StepFromFields(s, pos);
  }

  /** The global `newsQueue` and `seenUrls`. */
  class NewsFeed {
    var newsQueue: seq<NewsItem>
    var seenUrls: set<string>

    constructor()
      ensures newsQueue == [] && seenUrls == {}
    {
      newsQueue, seenUrls := [], {};
    }

    /**
     * `extractNewsFromResponse` with the two corrections described in README: the queue and
     * the seen set become those of Extract from position 0.
     */
    method ExtractNewsFromResponse(response: string, fetch: string -> Option<string>)
      requires |response| < NPOS
      modifies this
      ensures (newsQueue, seenUrls) == Extract(response, 0, old(newsQueue), old(seenUrls), fetch)
    {
      var pos: nat := 0;
      while true
        invariant Extract(response, pos, newsQueue, seenUrls, fetch)
               == Extract(response, 0, old(newsQueue), old(seenUrls), fetch)
        decreases if pos <= |response| then |response| + 1 - pos else 0
      {
        var found, header, next := ScanOnce(response, pos);
        if !found {
          break;
        }
        pos := next;
        var url := header.url;
        if url in seenUrls {
          continue;
        }
        var text := fetch(url);
        if text.Some? {
          newsQueue := newsQueue + [NewsItem(header.title, url, header.publishedAt, text.value)];
          seenUrls := seenUrls + {url};
        }
      }
    }
  }

  /** Lines 58-96 with both corrections: one pass from `pos`, or `found` false where the loop breaks. */
  method ScanOnce(response: string, pos: nat) returns (found: bool, header: Header, next: nat)
    requires |response| < NPOS
    ensures found == ScanStep(response, pos).Found?
    ensures found ==> ScanStep(response, pos) == Found(header, next)
  {
    found, header, next := false, Header([], [], []), 0;
    var ok, title, end := ReadField(response, "\"title\":", 8, pos);
    if !ok {
      return;
    }
    var url;
    ok, url, end := ReadField(response, "\"url\":", 6, end);
    if !ok {
      return;
    }
    var publishedAt;
    ok, publishedAt, end := ReadField(response, "\"published_at\":", 15, end);
    if !ok {
      return;
    }
    found, header, next := true, Header(title, url, publishedAt), end;
  }

  /**
   * Lines 76-84 with the missing-quote guard: `ok` is false when the marker or the opening
   * quote after it is missing.
   */
  method ReadField(response: string, key: string, offset: nat, from: nat)
    returns (ok: bool, value: string, end: nat)
    requires |response| < NPOS && key != []
    ensures ok == Field(response, key, offset, from).Some?
    ensures ok ==> Field(response, key, offset, from) == Some((value, end))
  {
    var pos := Find(response, key, from);
    if pos == NPOS {
      return false, [], 0;
    }
    ok, value, end := ReadQuoted(response, pos + offset);
  }

  /** Lines 81-84: the text between the first quote at or after `from` and the next one. */
  method ReadQuoted(response: string, from: nat) returns (ok: bool, value: string, end: nat)
    requires |response| < NPOS
    ensures ok == Quoted(response, from).Some?
    ensures ok ==> Quoted(response, from) == Some((value, end))
  {
    var open := Find(response, "\"", from);
    if open == NPOS {
      return false, [], 0;
    }
    var start := open + 1;
    end := Find(response, "\"", start);
    value := Substr(response, start, Sub(end, start));
    SubstrUpTo(response, start, end);
    ok := true;
  }

  /** `substr(start, end - start)` is the text from `start` up to `end`, or to the end when `end` is npos. */
  lemma SubstrUpTo(s: string, start: nat, end: nat)
    requires start <= |s| < NPOS
    requires end == NPOS || start <= end <= |s|
    ensures Substr(s, start, Sub(end, start)) == if end == NPOS then s[start..] else s[start..end]
  {
    SubNoWrap(end, start);
  }
}
