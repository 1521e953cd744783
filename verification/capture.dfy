/** The background worker's request capture (background.js): the block list, the
    classification of a request into the tab's lists, the per-tab table and its
    de-duplication, the header whitelist, the history writer and the badge count. */
module Capture {
  import opened Strings
  import opened Numbers
  import opened Optional
  import opened Lists
  import History
  import Urls

  // ---------------------------------------------------------------------------------------
  // `isBlockedUrl`

  /** A pattern of the block list: a plain infix, or `\.ext(\?|$|#)`; all case-insensitive. */
  datatype Pattern = Infix(text: string) | Extension(ext: string)

  const BlockedPatterns: seq<Pattern> := [
    Infix("/ping.gif"), Infix("/pixel"), Infix("/beacon"), Infix("/track"), Infix("/analytics"),
    Infix("/collect?"), Infix("jwpltx.com"), Infix("googlesyndication"), Infix("doubleclick.net"),
    Infix("google-analytics"), Infix("facebook.com/tr"),
    Extension("gif"), Extension("png"), Extension("jpg"), Extension("jpeg"), Extension("webp"),
    Extension("svg"), Extension("ico"), Extension("css"), Extension("js"),
    Infix(".woff")
  ]

  /** `.ext` at `i`, followed by `?`, `#` or the end. */
  predicate ExtensionAt(s: string, ext: string, i: int) {
    OccursAt(s, "." + ext, i)
    && (i + |ext| + 1 == |s| || s[i + |ext| + 1] == '?' || s[i + |ext| + 1] == '#')
  }

  predicate HasExtension(s: string, ext: string) {
    exists i :: 0 <= i < |s| && ExtensionAt(s, ext, i)
  }

  /** `pattern.test(url)`. */
  predicate PatternMatches(p: Pattern, url: string) {
    match p
    case Infix(t) => Contains(Lower(url), t)
    case Extension(e) => HasExtension(Lower(url), e)
  }

  /** Whether any pattern of the list matches the URL. */
  function AnyMatches(ps: seq<Pattern>, url: string): (r: bool)
    ensures r <==> exists i :: 0 <= i < |ps| && PatternMatches(ps[i], url)
  {
    if |ps| == 0 then false
    else if PatternMatches(ps[0], url) then true
    else
      var r := AnyMatches(ps[1..], url);
      assert forall i :: 1 <= i < |ps| ==> ps[1..][i - 1] == ps[i];
      r
  }

  predicate IsBlockedUrl(url: string) {
    AnyMatches(BlockedPatterns, url)
  }

  /** An image, style sheet or script URL, in any case, is blocked. */
  lemma AssetsBlocked(url: string, k: nat)
    requires 11 <= k <= 19
    requires HasExtension(Lower(url), BlockedPatterns[k].ext)
    ensures IsBlockedUrl(url)
  {
    assert PatternMatches(BlockedPatterns[k], url);
  }

  /** A URL free of every listed infix and extension is let through. */
  lemma CleanNotBlocked(url: string)
    requires forall i :: 0 <= i < |BlockedPatterns| ==> !PatternMatches(BlockedPatterns[i], url)
    ensures !IsBlockedUrl(url)
  {
  }

  // ---------------------------------------------------------------------------------------
  // Classification in `onBeforeRequest`

  /** The list a captured request goes to. */
  datatype Category = Hls | Dash | Segment(ts: bool) | SubtitleFile | VideoFile | Ignored

  /** The part before `?` and then before `#`. */
  function UrlPath(url: string): string {
    Before(Before(url, '?'), '#')
  }

  /** `.m3u8` / `.mpd` in the path, or as a whole word anywhere: case-sensitive here. */
  predicate IsM3u8Request(url: string) { EndsWith(UrlPath(url), ".m3u8") || HasToken(url, ".m3u8") }
  predicate IsMpdRequest(url: string) { EndsWith(UrlPath(url), ".mpd") || HasToken(url, ".mpd") }

  predicate IsTs(url: string) { HasExtension(Lower(url), "ts") }
  predicate IsM4s(url: string) { Contains(url, ".m4s") }

  const SubtitleExts: seq<string> := ["vtt", "srt", "ass", "ssa", "sub", "ttml"]
  const DirSubtitleExts: seq<string> := ["vtt", "srt", "ass", "ssa"]
  const SubtitleDirs: seq<string> := ["/sub/", "/subs/", "/subtitle/", "/subtitles/"]

  /** `/\/sub(?:title)?s?\/[^?]*\.(vtt|srt|ass|ssa)/` on lower-cased text: the directory
      `SubtitleDirs[d]` at `i`, then no `?` up to `.DirSubtitleExts[e]` at `k`. */
  predicate SubtitleDirAt(low: string, i: int, d: int, k: int, e: int) {
    0 <= d < |SubtitleDirs| && 0 <= e < |DirSubtitleExts|
    && OccursAt(low, SubtitleDirs[d], i) && i + |SubtitleDirs[d]| <= k
    && OccursAt(low, "." + DirSubtitleExts[e], k)
    && '?' !in low[i + |SubtitleDirs[d]|..k]
  }

  predicate IsSubtitleRequest(url: string) {
    var low := Lower(url);
    var lowPath := Lower(UrlPath(url));
    (exists e :: 0 <= e < |SubtitleExts| && EndsWith(lowPath, "." + SubtitleExts[e]))
    || (exists e :: 0 <= e < |SubtitleExts| && Contains(low, "." + SubtitleExts[e] + "?"))
    || Contains(low, "/api/timedtext")
    || Contains(low, "/timedtext?")
    || (Contains(url, "fmt=vtt") && Contains(url, "lang="))
    || (exists i, d, k, e :: 0 <= i <= |low| && 0 <= d < |SubtitleDirs| && 0 <= k <= |low| && 0 <= e < |DirSubtitleExts|
                           && SubtitleDirAt(low, i, d, k, e))
  }

  const VideoExts: seq<string> := ["mp4", "webm", "mov", "avi", "mkv", "flv"]
  const MediaExts: seq<string> := ["mp4", "webm", "mov", "avi", "mkv", "flv", "f4v", "ogv", "3gp"]
  const NonVideoExts: seq<string> := ["gif", "png", "jpg", "jpeg", "svg", "ico", "css", "js", "woff",
                                      "html", "htm", "json", "xml", "txt", "php", "asp"]

  /** The lower-cased path ends in `.` and one of `exts`. */
  predicate EndsWithAny(lowPath: string, exts: seq<string>) {
    exists e :: 0 <= e < |exts| && EndsWith(lowPath, "." + exts[e])
  }

  predicate IsMp4(url: string) {
    EndsWithAny(Lower(UrlPath(url)), VideoExts) && !Contains(url, "blob:") && !Contains(url, "data:")
  }

  /** A media request (`details.type` is "media") that looks like a video. */
  predicate IsVideoType(url: string, requestType: string) {
    var low := Lower(url);
    var lowPath := Lower(UrlPath(url));
    requestType == "media" && !IsBlockedUrl(url) && !EndsWithAny(lowPath, NonVideoExts)
    && (EndsWithAny(lowPath, MediaExts) || Contains(low, "/video/") || Contains(low, "/video?") || Contains(low, "mime=video"))
  }

  /** The branch `onBeforeRequest` takes: tab-less and blocked requests are dropped, then
      m3u8, mpd, segment, subtitle and video are tried in that order. */
  function Classify(url: string, tabId: int, requestType: string): Category {
    if tabId < 0 || IsBlockedUrl(url) then Ignored
    else if IsM3u8Request(url) then Hls
    else if IsMpdRequest(url) then Dash
    else if IsTs(url) || IsM4s(url) then Segment(IsTs(url))
    else if IsSubtitleRequest(url) then SubtitleFile
    else if IsMp4(url) || IsVideoType(url, requestType) then VideoFile
    else Ignored
  }

  /** A request without a tab and a blocked URL are never captured, whatever they look like;
      otherwise each list is reached only by a request that none of the earlier tests took:
      m3u8, then mpd, then segment, then subtitle, then video. */
  lemma ClassifyPrecedence(url: string, tabId: int, requestType: string)
    ensures tabId < 0 ==> Classify(url, tabId, requestType) == Ignored
    ensures IsBlockedUrl(url) ==> Classify(url, tabId, requestType) == Ignored
    ensures tabId >= 0 && !IsBlockedUrl(url) && IsM3u8Request(url) ==> Classify(url, tabId, requestType) == Hls
    ensures Classify(url, tabId, requestType) == Dash ==> !IsM3u8Request(url) && IsMpdRequest(url)
    ensures Classify(url, tabId, requestType).Segment? ==> !IsM3u8Request(url) && !IsMpdRequest(url) && (IsTs(url) || IsM4s(url))
    ensures Classify(url, tabId, requestType) == SubtitleFile ==> !IsM3u8Request(url) && !IsMpdRequest(url) && !IsTs(url) && !IsM4s(url)
    ensures Classify(url, tabId, requestType) == VideoFile ==>
              !IsM3u8Request(url) && !IsMpdRequest(url) && !IsTs(url) && !IsM4s(url) && !IsSubtitleRequest(url)
  {
  }

  // ---------------------------------------------------------------------------------------
  // The per-tab table

  datatype StreamEntry = StreamEntry(url: string, kind: string, format: string, time: string, quality: string,
                                     headers: Option<map<string, string>>)
  datatype SegmentEntry = SegmentEntry(url: string, kind: string, time: string)
  datatype VideoEntry = VideoEntry(url: string, kind: string, format: string, time: string)
  datatype SubtitleEntry = SubtitleEntry(url: string, language: string, name: string, format: string, time: string)

  /** `streamData[tabId]`. */
  datatype TabData = TabData(streams: seq<StreamEntry>, segments: seq<SegmentEntry>, videos: seq<VideoEntry>,
                             subtitles: seq<SubtitleEntry>, pageUrl: string)

  const EmptyTab := TabData([], [], [], [], "")

  /** The language and name the URL heuristics guess for a subtitle, "" when none. */
  datatype SubtitleGuess = SubtitleGuess(language: string, name: string)

  /** The URL without a leading `http://` or `https://`. */
  function StripScheme(u: string): string {
    if StartsWith(u, "http://") then u[7..] else if StartsWith(u, "https://") then u[8..] else u
  }

  /** Subtitles are told apart by their path without the scheme. */
  function SubtitleKey(url: string): string {
    StripScheme(UrlPath(url))
  }

  function SubtitleFormat(url: string): (r: string)
    ensures r in {"srt", "ass", "ttml", "vtt"}
  {
    var lowPath := Lower(UrlPath(url));
    if EndsWith(lowPath, ".srt") then "srt"
    else if EndsWith(lowPath, ".ass") || EndsWith(lowPath, ".ssa") then "ass"
    else if EndsWith(lowPath, ".ttml") then "ttml"
    else "vtt"
  }

  /** The display name: the guessed name, else the language, else a numbered track. */
  function DisplayName(name: string, language: string, index: nat): string {
    if name != "" then name else if language != "" then language else "Subtitle Track " + NatToString(index)
  }

  function VideoFormat(url: string): string {
    if Contains(url, ".webm") then "webm"
    else if Contains(url, ".mov") then "mov"
    else if Contains(url, ".avi") then "avi"
    else if Contains(url, ".mkv") then "mkv"
    else "mp4"
  }

  predicate HasStream(ss: seq<StreamEntry>, url: string) { exists i :: 0 <= i < |ss| && ss[i].url == url }
  predicate HasVideo(vs: seq<VideoEntry>, url: string) { exists i :: 0 <= i < |vs| && vs[i].url == url }
  predicate HasSubtitleKey(ss: seq<SubtitleEntry>, key: string) {
    exists i :: 0 <= i < |ss| && SubtitleKey(ss[i].url) == key
  }

  /** The tab's lists after one request of category `c`. */
  function Record(td: TabData, url: string, c: Category, time: string, guess: SubtitleGuess): TabData {
    match c
    case Hls =>
      if HasStream(td.streams, url) then td
      else td.(streams := td.streams + [StreamEntry(url, "HLS", "m3u8", time,
                                                    if Contains(url, "master") then "Master" else "Playlist", None)])
    case Dash =>
      if HasStream(td.streams, url) then td
      else td.(streams := td.streams + [StreamEntry(url, "DASH", "mpd", time, "Manifest", None)])
    case Segment(ts) =>
      td.(segments := td.segments + [SegmentEntry(url, if ts then "TS" else "M4S", time)])
    case SubtitleFile =>
      if HasSubtitleKey(td.subtitles, SubtitleKey(url)) then td
      else td.(subtitles := td.subtitles + [SubtitleEntry(url, guess.language,
                                                          DisplayName(guess.name, guess.language, |td.subtitles| + 1),
                                                          SubtitleFormat(url), time)])
    case VideoFile =>
      if HasVideo(td.videos, url) then td
      else td.(videos := td.videos + [VideoEntry(url, "MP4", VideoFormat(url), time)])
    case Ignored => td
  }

  /** The table's uniqueness rules: streams and videos by URL, subtitles by key. */
  predicate TabValid(td: TabData) {
    && (forall i, j :: 0 <= i < j < |td.streams| ==> td.streams[i].url != td.streams[j].url)
    && (forall i, j :: 0 <= i < j < |td.videos| ==> td.videos[i].url != td.videos[j].url)
    && (forall i, j :: 0 <= i < j < |td.subtitles| ==> SubtitleKey(td.subtitles[i].url) != SubtitleKey(td.subtitles[j].url))
  }

  /** Recording keeps the uniqueness rules. */
  lemma RecordValid(td: TabData, url: string, c: Category, time: string, guess: SubtitleGuess)
    requires TabValid(td)
    ensures TabValid(Record(td, url, c, time, guess))
  {
  }

  /** How many of the four lists differ. */
  function ChangedLists(a: TabData, b: TabData): nat {
    (if a.streams != b.streams then 1 else 0) + (if a.segments != b.segments then 1 else 0)
    + (if a.videos != b.videos then 1 else 0) + (if a.subtitles != b.subtitles then 1 else 0)
  }

  /** A request lands in at most one list, and only the lists change. */
  lemma RecordOneList(td: TabData, url: string, c: Category, time: string, guess: SubtitleGuess)
    ensures ChangedLists(td, Record(td, url, c, time, guess)) <= 1
    ensures Record(td, url, c, time, guess).pageUrl == td.pageUrl
  {
  }

  /** A stream or video URL already listed adds nothing, but a segment is appended every time. */
  lemma RecordDuplicates(td: TabData, url: string, time: string, guess: SubtitleGuess, ts: bool)
    ensures HasStream(td.streams, url) ==> Record(td, url, Hls, time, guess) == td && Record(td, url, Dash, time, guess) == td
    ensures HasVideo(td.videos, url) ==> Record(td, url, VideoFile, time, guess) == td
    ensures |Record(td, url, Segment(ts), time, guess).segments| == |td.segments| + 1
  {
  }

  /** A new subtitle is named by its guess, else its language, else by its position. */
  lemma SubtitleNamed(td: TabData, url: string, time: string, guess: SubtitleGuess)
    requires !HasSubtitleKey(td.subtitles, SubtitleKey(url))
    ensures var s := Record(td, url, SubtitleFile, time, guess).subtitles[|td.subtitles|];
            s.url == url && s.format == SubtitleFormat(url)
            && (guess.name != "" ==> s.name == guess.name)
            && (guess.name == "" && guess.language != "" ==> s.name == guess.language)
            && (guess.name == "" && guess.language == "" ==> s.name == "Subtitle Track " + NatToString(|td.subtitles| + 1))
  {
  }

  /** The same subtitle with another query string or scheme is not added again. */
  lemma SubtitleQueryIgnored(td: TabData, path: string, q1: string, q2: string, time: string, guess: SubtitleGuess)
    requires '?' !in path && '#' !in path
    requires !HasSubtitleKey(td.subtitles, SubtitleKey(path + "?" + q1))
    ensures var once := Record(td, path + "?" + q1, SubtitleFile, time, guess);
            Record(once, path + "?" + q2, SubtitleFile, time, guess) == once
  {
    var u1, u2 := path + "?" + q1, path + "?" + q2;
    PathOfQuery(path, q1);
    PathOfQuery(path, q2);
    var once := Record(td, u1, SubtitleFile, time, guess);
    assert SubtitleKey(once.subtitles[|td.subtitles|].url) == SubtitleKey(u2);
  }

  lemma PathOfQuery(path: string, q: string)
    requires '?' !in path && '#' !in path
    ensures UrlPath(path + "?" + q) == path
  {
    SplitBefore(path, '?', q);
    SplitBefore(path, '#', "");
    assert path + "" == path;
  }

  lemma SplitBefore(a: string, c: char, b: string)
    requires c !in a
    ensures Before(a + [c] + b, c) == a
  {
    var s := a + [c] + b;
    assert s[|a|] == c;
    assert forall k :: 0 <= k < |a| ==> s[k] == a[k];
  }

  /** The table after one request: an ignored request changes nothing, any other one is
      recorded in its tab's entry, created empty when missing. */
  function Captured(data: map<int, TabData>, tabId: int, url: string, c: Category, time: string, guess: SubtitleGuess): map<int, TabData> {
    if c == Ignored then data
    else data[tabId := Record(if tabId in data then data[tabId] else EmptyTab, url, c, time, guess)]
  }

  predicate TableValid(data: map<int, TabData>) {
    forall t :: t in data ==> TabValid(data[t])
  }

  /** Capturing keeps every tab's uniqueness rules, and leaves the other tabs alone. */
  lemma CapturedValid(data: map<int, TabData>, tabId: int, url: string, c: Category, time: string, guess: SubtitleGuess)
    requires TableValid(data)
    ensures TableValid(Captured(data, tabId, url, c, time, guess))
    ensures forall t :: t in data && t != tabId ==> t in Captured(data, tabId, url, c, time, guess) && Captured(data, tabId, url, c, time, guess)[t] == data[t]
  {
    if c != Ignored {
      RecordValid(if tabId in data then data[tabId] else EmptyTab, url, c, time, guess);
    }
  }

  /** The browser's `streamData` table and captured headers. */
  class CaptureState {
    var streamData: map<int, TabData>
    var capturedHeaders: map<string, map<string, string>>

    ghost predicate Valid()
      reads this
    {
      TableValid(streamData)
    }

    constructor ()
      ensures Valid() && streamData == map[] && capturedHeaders == map[]
    {
      streamData := map[];
      capturedHeaders := map[];
    }

    /** `onBeforeRequest`: a captured request creates the tab's entry if needed and lands in
        one list. The tab's page URL, filled in asynchronously, is left as it was. */
    method OnBeforeRequest(tabId: int, url: string, requestType: string, time: string, guess: SubtitleGuess)
      requires Valid()
      modifies this
      ensures Valid()
      ensures capturedHeaders == old(capturedHeaders)
      ensures streamData == Captured(old(streamData), tabId, url, Classify(url, tabId, requestType), time, guess)
    {
      var c := Classify(url, tabId, requestType);
      CapturedValid(streamData, tabId, url, c, time, guess);
      streamData := Captured(streamData, tabId, url, c, time, guess);
    }

    /** `onSendHeaders`: for a manifest request the whitelisted headers are kept by URL and
        put on the tab's stream of that URL. */
    method OnSendHeaders(tabId: int, url: string, requestHeaders: Option<seq<Header>>)
      requires Valid()
      modifies this
      ensures Valid()
      ensures tabId < 0 || !IsStreamRequest(url) || requestHeaders.None? ==>
                streamData == old(streamData) && capturedHeaders == old(capturedHeaders)
      ensures tabId >= 0 && IsStreamRequest(url) && requestHeaders.Some? ==>
                capturedHeaders == old(capturedHeaders)[url := KeptHeaders(requestHeaders.value)]
                && streamData == (if tabId in old(streamData)
                                  then old(streamData)[tabId := WithHeaders(old(streamData)[tabId], url, KeptHeaders(requestHeaders.value))]
                                  else old(streamData))
    {
      if tabId < 0 || !IsStreamRequest(url) || requestHeaders.None? {
        return;
      }
      var headers := KeepHeaders(requestHeaders.value);
      capturedHeaders := capturedHeaders[url := headers];
      if tabId in streamData {
        var td := streamData[tabId];
        WithHeadersValid(td, url, headers);
        streamData := streamData[tabId := WithHeaders(td, url, headers)];
      }
    }
  }

  // ---------------------------------------------------------------------------------------
  // Header whitelist

  datatype Header = Header(name: string, value: string)

  const KeptNames: set<string> := {"referer", "origin", "cookie", "user-agent"}

  /** The test `onSendHeaders` makes before keeping headers. */
  predicate IsStreamRequest(url: string) { IsM3u8Request(url) || IsMpdRequest(url) }

  /** The kept headers by lower-cased name, a later header of one name replacing an earlier. */
  function KeptHeaders(hs: seq<Header>): (m: map<string, string>)
    ensures m.Keys <= KeptNames
  {
    if |hs| == 0 then map[]
    else
      var m := KeptHeaders(hs[..|hs| - 1]);
      var name := Lower(hs[|hs| - 1].name);
      if name in KeptNames then m[name := hs[|hs| - 1].value] else m
  }

  /** A name is kept exactly when some header has it, in any case, and its value is that of
      the last such header. */
  lemma {:induction false} KeptHeadersSpec(hs: seq<Header>, name: string)
    requires name in KeptNames
    ensures name in KeptHeaders(hs) <==> exists i :: 0 <= i < |hs| && Lower(hs[i].name) == name
    ensures name in KeptHeaders(hs) ==>
              exists i :: 0 <= i < |hs| && Lower(hs[i].name) == name && KeptHeaders(hs)[name] == hs[i].value
                          && forall j :: i < j < |hs| ==> Lower(hs[j].name) != name
  {
    if |hs| > 0 {
      var init := hs[..|hs| - 1];
      KeptHeadersSpec(init, name);
      assert forall i :: 0 <= i < |init| ==> init[i] == hs[i];
    }
  }

  /** The header loop of `onSendHeaders`. */
  method KeepHeaders(hs: seq<Header>) returns (headers: map<string, string>)
    ensures headers == KeptHeaders(hs)
  {
    headers := map[];
    for i := 0 to |hs|
      invariant headers == KeptHeaders(hs[..i])
    {
      assert hs[..i + 1][..i] == hs[..i];
      var name := Lower(hs[i].name);
      if name in KeptNames {
        headers := headers[name := hs[i].value];
      }
    }
    assert hs[..|hs|] == hs;
  }

  /** The headers stored on the first stream of the URL. */
  function WithHeaders(td: TabData, url: string, headers: map<string, string>): TabData {
    var i := FirstWhere(td.streams, (s: StreamEntry) => s.url == url);
    if i < 0 then td else td.(streams := td.streams[i := td.streams[i].(headers := Some(headers))])
  }

  lemma WithHeadersValid(td: TabData, url: string, headers: map<string, string>)
    requires TabValid(td)
    ensures TabValid(WithHeaders(td, url, headers))
  {
  }

  // ---------------------------------------------------------------------------------------
  // `getStreams`: de-duplication through a map keyed by each element's key

  /** A `Map` insertion: a known key keeps its place and takes the new value; a new key goes last. */
  function MapSet<T>(entries: seq<T>, x: T, key: T -> string): seq<T> {
    var i := FirstWhere(entries, (y: T) => key(y) == key(x));
    if i < 0 then entries + [x] else entries[i := x]
  }

  function UniqueBy<T>(xs: seq<T>, key: T -> string): seq<T> {
    if |xs| == 0 then [] else MapSet(UniqueBy(xs[..|xs| - 1], key), xs[|xs| - 1], key)
  }

  predicate DistinctKeys<T>(xs: seq<T>, key: T -> string) {
    forall i, j :: 0 <= i < j < |xs| ==> key(xs[i]) != key(xs[j])
  }

  /** The values come out with distinct keys. */
  lemma {:induction false} UniqueByDistinct<T>(xs: seq<T>, key: T -> string)
    ensures DistinctKeys(UniqueBy(xs, key), key)
    ensures forall y :: y in UniqueBy(xs, key) ==> y in xs
  {
    if |xs| > 0 {
      var init := xs[..|xs| - 1];
      UniqueByDistinct(init, key);
      var u := UniqueBy(init, key);
      var x := xs[|xs| - 1];
      var i := FirstWhere(u, (y: T) => key(y) == key(x));
      if i >= 0 {
        assert forall j :: 0 <= j < |u| && j != i ==> u[i := x][j] == u[j];
        assert forall y :: y in u[i := x] ==> y in u || y == x;
      }
      assert forall y :: y in init ==> y in xs;
    }
  }

  /** A list already free of duplicate keys comes out unchanged. */
  lemma {:induction false} UniqueByOfDistinct<T>(xs: seq<T>, key: T -> string)
    requires DistinctKeys(xs, key)
    ensures UniqueBy(xs, key) == xs
  {
    if |xs| > 0 {
      var init := xs[..|xs| - 1];
      assert DistinctKeys(init, key);
      UniqueByOfDistinct(init, key);
      var x := xs[|xs| - 1];
      assert FirstWhere(init, (y: T) => key(y) == key(x)) < 0;
      assert init + [x] == xs;
    }
  }

  function StreamUrl(s: StreamEntry): string { s.url }
  function VideoUrl(v: VideoEntry): string { v.url }
  function SubtitleEntryKey(s: SubtitleEntry): string { SubtitleKey(s.url) }

  /** On a table the capture built, the `getStreams` de-duplication changes nothing. */
  lemma GetStreamsUnchanged(td: TabData)
    requires TabValid(td)
    ensures UniqueBy(td.streams, StreamUrl) == td.streams
    ensures UniqueBy(td.videos, VideoUrl) == td.videos
    ensures UniqueBy(td.subtitles, SubtitleEntryKey) == td.subtitles
  {
    UniqueByOfDistinct(td.streams, StreamUrl);
    UniqueByOfDistinct(td.videos, VideoUrl);
    UniqueByOfDistinct(td.subtitles, SubtitleEntryKey);
  }

  // ---------------------------------------------------------------------------------------
  // `recordHistory`

  const HistoryLimit := 500

  /** The newest `HistoryLimit` entries. */
  function Capped(h: seq<History.Item>): (r: seq<History.Item>)
    ensures |r| <= HistoryLimit
  {
    if |h| > HistoryLimit then h[|h| - HistoryLimit..] else h
  }

  /** The new entry is kept last, nothing is dropped below the limit, and what is kept is the
      newest part of the old list. */
  lemma CappedAppend(h: seq<History.Item>, e: History.Item)
    ensures var r := Capped(h + [e]);
            |r| >= 1 && r[|r| - 1] == e
            && (|h| < HistoryLimit ==> r == h + [e])
            && (|h| >= HistoryLimit ==> |r| == HistoryLimit && r[..|r| - 1] == h[|h| - HistoryLimit + 1..])
  {
    if |h| >= HistoryLimit {
      assert (h + [e])[|h| + 1 - HistoryLimit..][..HistoryLimit - 1] == h[|h| - HistoryLimit + 1..];
    }
  }

  /** `chrome.storage.local`'s `downloadHistory` and `historyEnabled`. */
  class HistoryStore {
    var downloadHistory: seq<History.Item>
    var historyEnabled: Option<bool>

    constructor (history: seq<History.Item>, enabled: Option<bool>)
      ensures downloadHistory == history && historyEnabled == enabled
    {
      downloadHistory := history;
      historyEnabled := enabled;
    }

    /** `recordHistory`; `now` stands for `Date.now()` and `suffix` for the random part of the
        id. Only an explicit `false` switches history off. */
    method RecordHistory(filename: string, size: string, source: string, now: nat, suffix: string)
      modifies this
      ensures historyEnabled == old(historyEnabled)
      ensures historyEnabled == Some(false) ==> downloadHistory == old(downloadHistory)
      ensures historyEnabled != Some(false) ==>
                downloadHistory == Capped(old(downloadHistory) + [History.Item(NatToString(now) + "_" + suffix, filename, source, size, now)])
    {
      if historyEnabled == Some(false) {
        return;
      }
      var history := downloadHistory + [History.Item(NatToString(now) + "_" + suffix, filename, source, size, now)];
      if |history| > HistoryLimit {
        history := history[|history| - HistoryLimit..];
      }
      downloadHistory := history;
    }
  }

  // ---------------------------------------------------------------------------------------
  // `badgeDedupCount`

  /** The fields of a captured stream or video the badge looks at; missing ones are "" or 0. */
  datatype BadgeItem = BadgeItem(pageTitle: string, title: string, durationSeconds: nat, duration: string, url: string)

  /** The group key: title and duration when there is a title, otherwise the URL without its
      query (and fragment, for a URL with a scheme), lower-cased. */
  function BadgeKey(v: BadgeItem): string {
    if BadgeTitle(v) != "" then BadgeTitle(v) + "|" + BadgeDuration(v)
    else if Urls.HasScheme(v.url) then "url:" + Lower(UrlPath(v.url))
    else "url:" + Lower(Before(v.url, '?'))
  }

  /** The page title, else the stream's own title, trimmed and lower-cased. */
  function BadgeTitle(v: BadgeItem): string {
    Trim(Lower(if v.pageTitle != "" then v.pageTitle else v.title))
  }

  /** The duration in seconds when known, else the duration text. */
  function BadgeDuration(v: BadgeItem): string {
    if v.durationSeconds != 0 then NatToString(v.durationSeconds) else v.duration
  }

  /** The keys of a list, as a `Set` collects them. */
  function KeySet<T>(xs: seq<T>, key: T -> string): set<string> {
    set i | 0 <= i < |xs| :: key(xs[i])
  }

  lemma KeySetSnoc<T>(xs: seq<T>, x: T, key: T -> string)
    ensures KeySet(xs + [x], key) == KeySet(xs, key) + {key(x)}
  {
    var s := xs + [x];
    forall k | k in KeySet(s, key) ensures k in KeySet(xs, key) + {key(x)} {
      var i :| 0 <= i < |s| && k == key(s[i]);
      if i < |xs| {
        assert s[i] == xs[i];
      }
    }
    forall k | k in KeySet(xs, key) ensures k in KeySet(s, key) {
      var i :| 0 <= i < |xs| && k == key(xs[i]);
      assert s[i] == xs[i];
    }
    assert s[|xs|] == x;
  }

  /** At most one key per element. */
  lemma {:induction false} KeySetSize<T>(xs: seq<T>, key: T -> string)
    ensures |KeySet(xs, key)| <= |xs|
  {
    if |xs| > 0 {
      var init := xs[..|xs| - 1];
      KeySetSize(init, key);
      assert init + [xs[|xs| - 1]] == xs;
      KeySetSnoc(init, xs[|xs| - 1], key);
    }
  }

  /** The number of groups. */
  function BadgeCount(items: seq<BadgeItem>): nat {
    |KeySet(items, BadgeKey)|
  }

  /** No items, no badge; otherwise at least one and at most one per item. */
  lemma BadgeBounds(items: seq<BadgeItem>)
    ensures |items| == 0 ==> BadgeCount(items) == 0
    ensures |items| > 0 ==> 1 <= BadgeCount(items) <= |items|
  {
    if |items| > 0 {
      assert BadgeKey(items[0]) in KeySet(items, BadgeKey);
      KeySetSize(items, BadgeKey);
    }
  }

  /** Two captures of one titled video (same title and duration) count once. */
  lemma BadgeSameVideo(items: seq<BadgeItem>, a: BadgeItem, b: BadgeItem)
    requires a.pageTitle == b.pageTitle && a.title == b.title
    requires a.durationSeconds == b.durationSeconds && a.duration == b.duration
    requires BadgeTitle(a) != ""
    ensures BadgeCount(items + [a, b]) == BadgeCount(items + [a])
  {
    assert BadgeKey(a) == BadgeKey(b);
    KeySetSnoc(items, a, BadgeKey);
    assert items + [a, b] == (items + [a]) + [b];
    KeySetSnoc(items + [a], b, BadgeKey);
  }

  /** Two untitled captures of one URL path count once, whatever their queries. */
  lemma BadgeSameUrl(items: seq<BadgeItem>, a: BadgeItem, b: BadgeItem)
    requires BadgeTitle(a) == "" && BadgeTitle(b) == ""
    requires Urls.HasScheme(a.url) && Urls.HasScheme(b.url) && UrlPath(a.url) == UrlPath(b.url)
    ensures BadgeCount(items + [a, b]) == BadgeCount(items + [a])
  {
    assert BadgeKey(a) == BadgeKey(b);
    KeySetSnoc(items, a, BadgeKey);
    assert items + [a, b] == (items + [a]) + [b];
    KeySetSnoc(items + [a], b, BadgeKey);
  }

  /** The loop that fills the `groups` set. */
  method BadgeDedupCount(items: seq<BadgeItem>) returns (count: nat)
    ensures count == BadgeCount(items)
  {
    if |items| == 0 {
      return 0;
    }
    var groups: set<string> := {};
    for i := 0 to |items|
      invariant groups == KeySet(items[..i], BadgeKey)
    {
      assert items[..i + 1] == items[..i] + [items[i]];
      KeySetSnoc(items[..i], items[i], BadgeKey);
      groups := groups + {BadgeKey(items[i])};
    }
    assert items[..|items|] == items;
    return |groups|;
  }
}
