/** The content script's page scans (content.js): the string-aware brace matcher that cuts
    the player JSON out of a script, the priority among the streams that JSON offers, the
    manifests recovered from the resource-timing list, and the subtitle-track collector. */
module PageScan {
  import opened Strings
  import opened Numbers
  import opened Optional
  import opened Lists
  import opened StableSort
  import Urls

  // ---------------------------------------------------------------------------------------
  // The brace matcher

  /** The scanner's variables: `depth`, `inStr` and `esc`. */
  datatype ScanState = ScanState(depth: int, inStr: bool, esc: bool)

  const Start := ScanState(0, false, false)

  /** One pass of the loop body that does not end the scan. */
  function Step(s: ScanState, c: char): ScanState {
    if s.esc then s.(esc := false)
    else if c == '\\' && s.inStr then s.(esc := true)
    else if c == '"' then s.(inStr := !s.inStr)
    else if s.inStr then s
    else if c == '{' then s.(depth := s.depth + 1)
    else if c == '}' then s.(depth := s.depth - 1)
    else s
  }

  /** The state after the characters of `w`. */
  function Steps(s: ScanState, w: string): ScanState {
    if |w| == 0 then s else Step(Steps(s, w[..|w| - 1]), w[|w| - 1])
  }

  /** `c` is a closing brace outside any string that brings the depth back to 0. */
  predicate Closes(s: ScanState, c: char) {
    !s.esc && !s.inStr && c == '}' && s.depth == 1
  }

  /** The scan started at `from` ends at `j`. */
  predicate ClosesAt(text: string, from: int, j: int) {
    0 <= from <= j < |text| && Closes(Steps(Start, text[from..j]), text[j])
  }

  lemma StepsSnoc(text: string, from: nat, j: nat)
    requires from <= j < |text|
    ensures Steps(Start, text[from..j + 1]) == Step(Steps(Start, text[from..j]), text[j])
  {
    assert text[from..j + 1][..j - from] == text[from..j];
  }

  /** The rest of the scan from `j` on, in state `s`. */
  function FirstCloseFrom(text: string, from: nat, j: nat, s: ScanState): (r: int)
    requires from <= j <= |text| && s == Steps(Start, text[from..j])
    ensures r == -1 || (j <= r && ClosesAt(text, from, r))
    ensures forall k :: j <= k < |text| && (r == -1 || k < r) ==> !ClosesAt(text, from, k)
    decreases |text| - j
  {
    if j == |text| then -1
    else if Closes(s, text[j]) then j
    else
      StepsSnoc(text, from, j);
      FirstCloseFrom(text, from, j + 1, Step(s, text[j]))
  }

  /** The index of the brace that closes the one at `from`, or -1. */
  function FirstClose(text: string, from: nat): (r: int)
    ensures r == -1 || ClosesAt(text, from, r)
    ensures forall k :: from <= k < |text| && (r == -1 || k < r) ==> !ClosesAt(text, from, k)
  {
    if from > |text| then -1 else FirstCloseFrom(text, from, from, Start)
  }

  /** The scanner loop of `findYouTubeStreams`. */
  method MatchBrace(text: string, braceIdx: nat) returns (endIdx: int)
    ensures endIdx == FirstClose(text, braceIdx)
  {
    if braceIdx > |text| {
      return -1;
    }
    var depth := 0;
    var inStr := false;
    var esc := false;
    var j := braceIdx;
    while j < |text|
      invariant braceIdx <= j <= |text|
      invariant ScanState(depth, inStr, esc) == Steps(Start, text[braceIdx..j])
      invariant FirstCloseFrom(text, braceIdx, j, ScanState(depth, inStr, esc)) == FirstClose(text, braceIdx)
      decreases |text| - j
    {
      var c := text[j];
      StepsSnoc(text, braceIdx, j);
      if esc {
        esc := false;
      } else if c == '\\' && inStr {
        esc := true;
      } else if c == '"' {
        inStr := !inStr;
      } else if inStr {
      } else if c == '{' {
        depth := depth + 1;
      } else if c == '}' {
        depth := depth - 1;
        if depth == 0 {
          return j;
        }
      }
      j := j + 1;
    }
    return -1;
  }

  /** Inside a string, a character other than a quote or a backslash changes nothing: braces
      there do not count. */
  lemma InStringNeutral(s: ScanState, c: char)
    requires s.inStr && !s.esc && c != '"' && c != '\\'
    ensures Step(s, c) == s
  {
  }

  /** Inside a string, a backslash makes the next character, whatever it is, count for nothing. */
  lemma EscapeSkips(s: ScanState, d: char)
    requires s.inStr && !s.esc
    ensures Step(Step(s, '\\'), d) == s
  {
  }

  lemma {:induction false} StepsAppend(s: ScanState, a: string, b: string)
    ensures Steps(s, a + b) == Steps(Steps(s, a), b)
  {
    if |b| > 0 {
      StepsAppend(s, a, b[..|b| - 1]);
      assert (a + b)[..|a + b| - 1] == a + b[..|b| - 1];
      assert (a + b)[|a + b| - 1] == b[|b| - 1];
    } else {
      assert a + b == a;
    }
  }

  lemma {:induction false} StepsInString(t: ScanState, w: string)
    requires t.inStr && !t.esc && '"' !in w && '\\' !in w
    ensures Steps(t, w) == t
  {
    if |w| > 0 {
      StepsInString(t, w[..|w| - 1]);
      assert w[|w| - 1] in w;
    }
  }

  /** A string literal without quotes or escapes inside, braces or not, leaves the scan as it
      was. */
  lemma QuotedNeutral(s: ScanState, w: string)
    requires !s.inStr && !s.esc && '"' !in w && '\\' !in w
    ensures Steps(s, "\"" + w + "\"") == s
  {
    var t := Step(s, '"');
    assert Steps(s, "\"") == t by {
      assert "\""[..0] == "";
    }
    StepsAppend(s, "\"", w);
    StepsInString(t, w);
    StepsAppend(s, "\"" + w, "\"");
    assert Steps(t, "\"") == Step(t, '"') by {
      assert "\""[..0] == "";
    }
  }

  /** Text free of quotes, backslashes and braces changes nothing outside a string. */
  lemma {:induction false} StepsPlain(t: ScanState, w: string)
    requires !t.inStr && !t.esc
    requires forall k :: 0 <= k < |w| ==> w[k] != '"' && w[k] != '\\' && w[k] != '{' && w[k] != '}'
    ensures Steps(t, w) == t
  {
    if |w| > 0 {
      StepsPlain(t, w[..|w| - 1]);
    }
  }

  /** An object without nested braces or strings closes at its own closing brace. */
  lemma FlatObjectCloses(pre: string, w: string, post: string)
    requires forall k :: 0 <= k < |w| ==> w[k] != '"' && w[k] != '\\' && w[k] != '{' && w[k] != '}'
    ensures FirstClose(pre + "{" + w + "}" + post, |pre|) == |pre| + 1 + |w|
  {
    var text := pre + "{" + w + "}" + post;
    var from := |pre|;
    var open := ScanState(1, false, false);
    assert Steps(Start, "{") == open by {
      assert "{"[..0] == "";
    }
    forall k | 0 <= k <= |w| ensures Steps(Start, "{" + w[..k]) == open {
      StepsAppend(Start, "{", w[..k]);
      StepsPlain(open, w[..k]);
    }
    assert Steps(Start, text[from..from]) == Start by {
      assert text[from..from] == "";
    }
    forall k | from <= k < from + 1 + |w| ensures !ClosesAt(text, from, k) {
      if k > from {
        assert text[k] == w[k - from - 1];
        assert text[from..k] == "{" + w[..k - from - 1];
      }
    }
    assert text[from + 1 + |w|] == '}';
    assert text[from..from + 1 + |w|] == "{" + w[..|w|];
    assert ClosesAt(text, from, from + 1 + |w|);
  }

  /** The JSON text after `ytInitialPlayerResponse` in a script, from its opening brace to the
      matching closing one; nothing unless the script also mentions `streamingData`. */
  function PlayerJson(text: string): (r: Option<string>)
    ensures r.Some? ==> |r.value| >= 1 && r.value[0] == '{' && r.value[|r.value| - 1] == '}'
  {
    if !Contains(text, "ytInitialPlayerResponse") || !Contains(text, "streamingData") then None
    else
      var assignIdx := IndexOf(text, "ytInitialPlayerResponse", 0);
      var braceIdx := IndexOfChar(text, '{', assignIdx);
      if braceIdx < 0 then None
      else
        var endIdx := FirstClose(text, braceIdx);
        if endIdx < 0 then None else Some(text[braceIdx..endIdx + 1])
  }

  // ---------------------------------------------------------------------------------------
  // Stream priority in the player JSON

  /** An entry of `adaptiveFormats` or `formats`; a missing field is "" or 0. */
  datatype Format = Format(url: string, mimeType: string, bitrate: nat, height: nat, qualityLabel: string)

  /** The parts of `streamingData` the scan reads. */
  datatype StreamingData = StreamingData(dashManifestUrl: string, hlsManifestUrl: string,
                                         adaptiveFormats: seq<Format>, formats: seq<Format>)

  datatype PageStream = PageStream(url: string, audioUrl: Option<string>, kind: string, format: string, quality: string)

  predicate IsAudioMp4(f: Format) { f.url != "" && StartsWith(f.mimeType, "audio/mp4") }
  predicate IsLabelledVideoMp4(f: Format) { f.url != "" && StartsWith(f.mimeType, "video/mp4") && f.qualityLabel != "" }
  predicate IsVideo(f: Format) { f.url != "" && StartsWith(f.mimeType, "video/") }

  function Bitrate(f: Format): int { f.bitrate }
  function FormatHeight(f: Format): int { f.height }

  /** The manifests, DASH first. */
  function Manifests(sd: StreamingData): seq<PageStream> {
    (if sd.dashManifestUrl != "" then [PageStream(sd.dashManifestUrl, None, "DASH", "mpd", "Manifest")] else [])
    + (if sd.hlsManifestUrl != "" then [PageStream(sd.hlsManifestUrl, None, "HLS", "m3u8", "Master")] else [])
  }

  /** The best video-only stream with the best audio, when both exist. */
  function AdaptiveStream(fs: seq<Format>): seq<PageStream> {
    var audio := SortDesc(Filter(fs, IsAudioMp4), Bitrate);
    var video := SortDesc(Filter(fs, IsLabelledVideoMp4), FormatHeight);
    if |video| > 0 && |audio| > 0 then
      var v := video[0];
      [PageStream(v.url, Some(audio[0].url), "MP4", "mp4",
                  if v.qualityLabel != "" then v.qualityLabel else NatToString(v.height) + "p")]
    else []
  }

  /** The tallest progressive (video and audio) stream. */
  function ProgressiveStream(fs: seq<Format>): seq<PageStream> {
    var video := SortDesc(Filter(fs, IsVideo), FormatHeight);
    if |video| > 0 then
      var v := video[0];
      [PageStream(v.url, None, "MP4", "mp4",
                  if v.qualityLabel != "" then v.qualityLabel
                  else if v.height != 0 then NatToString(v.height) + "p" else "Best")]
    else []
  }

  /** The streams one player JSON yields. */
  function StreamsOf(sd: StreamingData): seq<PageStream> {
    Chosen(Manifests(sd),
           if |sd.adaptiveFormats| > 0 then AdaptiveStream(sd.adaptiveFormats) else [],
           if |sd.formats| > 0 then ProgressiveStream(sd.formats) else [])
  }

  /** Each later source is pushed only while nothing has been found. */
  function Chosen(manifests: seq<PageStream>, adaptive: seq<PageStream>, progressive: seq<PageStream>): seq<PageStream> {
    var found := manifests + (if |manifests| == 0 then adaptive else []);
    found + (if |found| == 0 then progressive else [])
  }

  lemma ChosenCases(manifests: seq<PageStream>, adaptive: seq<PageStream>, progressive: seq<PageStream>)
    ensures manifests != [] ==> Chosen(manifests, adaptive, progressive) == manifests
    ensures manifests == [] && adaptive != [] ==> Chosen(manifests, adaptive, progressive) == adaptive
    ensures manifests == [] && adaptive == [] ==> Chosen(manifests, adaptive, progressive) == progressive
  {
    assert manifests + [] == manifests && [] + adaptive == adaptive && adaptive + [] == adaptive;
    assert [] + progressive == progressive;
  }

  /** A DASH manifest comes before an HLS one, and with either of them no single file is used. */
  lemma ManifestsFirst(sd: StreamingData)
    requires sd.dashManifestUrl != "" || sd.hlsManifestUrl != ""
    ensures StreamsOf(sd) == Manifests(sd)
    ensures sd.dashManifestUrl != "" ==> StreamsOf(sd)[0].url == sd.dashManifestUrl && StreamsOf(sd)[0].kind == "DASH"
    ensures forall i :: 0 <= i < |StreamsOf(sd)| ==> StreamsOf(sd)[i].kind != "MP4"
  {
    assert Manifests(sd) != [];
    ChosenCases(Manifests(sd), if |sd.adaptiveFormats| > 0 then AdaptiveStream(sd.adaptiveFormats) else [],
                if |sd.formats| > 0 then ProgressiveStream(sd.formats) else []);
    ManifestKinds(sd);
  }

  lemma ManifestKinds(sd: StreamingData)
    ensures sd.dashManifestUrl != "" ==> Manifests(sd)[0].url == sd.dashManifestUrl && Manifests(sd)[0].kind == "DASH"
    ensures forall i :: 0 <= i < |Manifests(sd)| ==> Manifests(sd)[i].kind != "MP4"
  {
  }

  /** Without manifests the adaptive pair is taken when there is one... */
  lemma AdaptiveWithoutManifests(sd: StreamingData)
    requires sd.dashManifestUrl == "" && sd.hlsManifestUrl == ""
    requires |AdaptiveStream(sd.adaptiveFormats)| == 1
    ensures StreamsOf(sd) == AdaptiveStream(sd.adaptiveFormats)
  {
    assert Manifests(sd) == [];
    AdaptiveOfNone();
    assert |sd.adaptiveFormats| > 0;
    ChosenCases([], AdaptiveStream(sd.adaptiveFormats), if |sd.formats| > 0 then ProgressiveStream(sd.formats) else []);
  }

  lemma AdaptiveOfNone()
    ensures AdaptiveStream([]) == []
  {
    assert Filter([], IsAudioMp4) == [];
  }

  /** ...and only otherwise the progressive stream. */
  lemma ProgressiveOtherwise(sd: StreamingData)
    requires sd.dashManifestUrl == "" && sd.hlsManifestUrl == ""
    requires AdaptiveStream(sd.adaptiveFormats) == []
    ensures StreamsOf(sd) == ProgressiveStream(sd.formats)
  {
    assert Manifests(sd) == [];
    ProgressiveOfNone();
    ChosenCases([], if |sd.adaptiveFormats| > 0 then AdaptiveStream(sd.adaptiveFormats) else [],
                if |sd.formats| > 0 then ProgressiveStream(sd.formats) else []);
  }

  lemma ProgressiveOfNone()
    ensures ProgressiveStream([]) == []
  {
    assert Filter([], IsVideo) == [];
  }

  /** The adaptive pair's video is the tallest labelled video-only MP4. */
  lemma AdaptiveVideoBest(fs: seq<Format>)
    requires |AdaptiveStream(fs)| == 1
    ensures exists v :: v in fs && IsLabelledVideoMp4(v) && AdaptiveStream(fs)[0].url == v.url
              && forall x :: x in fs && IsLabelledVideoMp4(x) ==> x.height <= v.height
  {
    var video := Filter(fs, IsLabelledVideoMp4);
    SortDescHead(video, FormatHeight);
    var v := video[FirstMax(video, FormatHeight)];
    forall x | x in fs && IsLabelledVideoMp4(x) ensures x.height <= v.height {
      var k :| 0 <= k < |video| && video[k] == x;
      assert FormatHeight(video[k]) <= FormatHeight(v);
    }
    assert v in fs && IsLabelledVideoMp4(v) && AdaptiveStream(fs)[0].url == v.url;
  }

  /** Its audio is the MP4 audio of the highest bitrate. */
  lemma AdaptiveAudioBest(fs: seq<Format>)
    requires |AdaptiveStream(fs)| == 1
    ensures exists a :: a in fs && IsAudioMp4(a) && AdaptiveStream(fs)[0].audioUrl == Some(a.url)
              && forall x :: x in fs && IsAudioMp4(x) ==> x.bitrate <= a.bitrate
  {
    var audio := Filter(fs, IsAudioMp4);
    SortDescHead(audio, Bitrate);
    var a := audio[FirstMax(audio, Bitrate)];
    forall x | x in fs && IsAudioMp4(x) ensures x.bitrate <= a.bitrate {
      var k :| 0 <= k < |audio| && audio[k] == x;
      assert Bitrate(audio[k]) <= Bitrate(a);
    }
    assert a in fs && IsAudioMp4(a) && AdaptiveStream(fs)[0].audioUrl == Some(a.url);
  }

  /** The streams one script yields; `parse` stands for `JSON.parse` followed by reading
      `streamingData`, `None` when either fails. */
  function ScriptStreams(text: string, parse: string -> Option<StreamingData>): seq<PageStream> {
    match PlayerJson(text)
    case None => []
    case Some(json) =>
      match parse(json)
      case None => []
      case Some(sd) => StreamsOf(sd)
  }

  /** `findYouTubeStreams`: off YouTube nothing; otherwise the streams of the first script
      that yields any. */
  function YouTubeStreams(onYouTube: bool, scripts: seq<string>, parse: string -> Option<StreamingData>): (r: seq<PageStream>)
    ensures !onYouTube ==> r == []
  {
    if !onYouTube then [] else FirstNonEmpty(scripts, ScriptYield(parse))
  }

  function ScriptYield(parse: string -> Option<StreamingData>): string -> seq<PageStream> {
    (text: string) => ScriptStreams(text, parse)
  }

  /** On YouTube nothing is found exactly when no script yields a stream. */
  lemma YouTubeStreamsNone(scripts: seq<string>, parse: string -> Option<StreamingData>)
    ensures YouTubeStreams(true, scripts, parse) == [] <==> forall i :: 0 <= i < |scripts| ==> ScriptStreams(scripts[i], parse) == []
  {
    FirstNonEmptyNone(scripts, ScriptYield(parse));
  }

  /** What is found is the yield of the first script that yields anything. */
  lemma YouTubeStreamsFirst(scripts: seq<string>, parse: string -> Option<StreamingData>)
    requires YouTubeStreams(true, scripts, parse) != []
    ensures exists i :: 0 <= i < |scripts| && YouTubeStreams(true, scripts, parse) == ScriptStreams(scripts[i], parse)
                        && forall k :: 0 <= k < i ==> ScriptStreams(scripts[k], parse) == []
  {
    FirstNonEmptyFirst(scripts, ScriptYield(parse));
  }

  // ---------------------------------------------------------------------------------------
  // Manifests from the resource-timing list

  /** The URL's path (before `?` and `#`), lower-cased. */
  function UrlPath(url: string): string {
    Lower(Before(Before(url, '?'), '#'))
  }

  /** The tests use the `i` flag; on the lower-cased URL they are case-sensitive. */
  predicate IsM3u8(url: string) { EndsWith(UrlPath(url), ".m3u8") || HasToken(Lower(url), ".m3u8") }
  predicate IsMpd(url: string) { EndsWith(UrlPath(url), ".mpd") || HasToken(Lower(url), ".mpd") }

  /** A recovered manifest; its source is always "performance". */
  datatype Found = Found(url: string, kind: string, format: string, quality: string)

  function FoundOf(url: string): Found {
    var m3u8 := IsM3u8(url);
    Found(url, if m3u8 then "HLS" else "DASH", if m3u8 then "m3u8" else "mpd",
          if Contains(Lower(url), "master") then "Master" else "Playlist")
  }

  predicate IsManifest(url: string) { url != "" && (IsM3u8(url) || IsMpd(url)) }

  function FoundUrls(fs: seq<Found>): set<string> {
    set f | f in fs :: f.url
  }

  lemma FoundUrlsSnoc(fs: seq<Found>, f: Found)
    ensures FoundUrls(fs + [f]) == FoundUrls(fs) + {f.url}
  {
    assert forall g :: g in fs + [f] <==> g in fs || g == f;
  }

  /** What the scan has collected after the entries `names`. */
  function Discovered(names: seq<string>): seq<Found> {
    if |names| == 0 then []
    else
      var before := Discovered(names[..|names| - 1]);
      var url := names[|names| - 1];
      if IsManifest(url) && url !in FoundUrls(before) then before + [FoundOf(url)] else before
  }

  /** Every recovered URL is a manifest from the list, listed once; every manifest in the
      list is recovered. */
  lemma {:induction false} DiscoveredSpec(names: seq<string>)
    ensures forall i, j :: 0 <= i < j < |Discovered(names)| ==> Discovered(names)[i].url != Discovered(names)[j].url
    ensures forall f :: f in Discovered(names) ==> f.url in names && IsManifest(f.url) && f == FoundOf(f.url)
    ensures forall u :: u in names && IsManifest(u) ==> u in FoundUrls(Discovered(names))
  {
    if |names| > 0 {
      var before := names[..|names| - 1];
      DiscoveredSpec(before);
      assert forall u :: u in before ==> u in names;
      assert forall u :: u in names ==> u in before || u == names[|names| - 1];
    }
  }

  /** A recovered stream is HLS exactly when its URL is an m3u8 one, and is the master exactly
      when the URL says so. */
  lemma FoundKinds(url: string)
    ensures FoundOf(url).kind == "HLS" <==> IsM3u8(url)
    ensures FoundOf(url).quality == "Master" <==> Contains(Lower(url), "master")
  {
  }

  /** `discoverStreamsFromPerformance`; `names` stands for the resource entries' names. */
  method DiscoverStreams(names: seq<string>) returns (found: seq<Found>)
    ensures found == Discovered(names)
  {
    found := [];
    var seen: set<string> := {};
    for i := 0 to |names|
      invariant found == Discovered(names[..i]) && seen == FoundUrls(found)
    {
      var url := names[i];
      assert names[..i + 1][..i] == names[..i];
      var manifest := IsManifest(url);
      if manifest && url !in seen {
        FoundUrlsSnoc(found, FoundOf(url));
        seen := seen + {url};
        found := found + [FoundOf(url)];
      }
    }
    assert names[..|names|] == names;
  }

  // ---------------------------------------------------------------------------------------
  // Subtitle tracks

  datatype SubTrack = SubTrack(url: string, language: string, name: string, format: string)

  /** `/\.(vtt|srt|ass|ssa|ttml)$/i` on the part before `?`, lower-cased; else "vtt". */
  function FormatFromUrl(url: string): string {
    var path := Lower(Before(url, '?'));
    if EndsWith(path, ".vtt") then "vtt"
    else if EndsWith(path, ".srt") then "srt"
    else if EndsWith(path, ".ass") then "ass"
    else if EndsWith(path, ".ssa") then "ssa"
    else if EndsWith(path, ".ttml") then "ttml"
    else "vtt"
  }

  /** The absolute URL `addTrack` stores: `https:` before `//`, the page's origin before `/`,
      the page's address for the rest unless it already starts with `http`. */
  function AbsoluteTrackUrl(url: string, pageUrl: string): string {
    if StartsWith(url, "//") then "https:" + url
    else if StartsWith(url, "/") then Urls.Resolve(url, pageUrl)
    else if !StartsWith(url, "http") then Urls.Resolve(url, pageUrl)
    else url
  }

  /** A protocol-relative source is kept and gets `https:` in front. */
  lemma ProtocolRelative(url: string, pageUrl: string)
    requires StartsWith(url, "//")
    ensures !Skipped(url) && AbsoluteTrackUrl(url, pageUrl) == "https:" + url
  {
    assert url[0] == '/';
  }

  /** A source `addTrack` ignores outright. */
  predicate Skipped(url: string) {
    url == "" || StartsWith(url, "blob:") || StartsWith(url, "data:")
  }

  /** The track `addTrack` pushes for a source it keeps; `format` "" stands for none given. */
  function TrackOf(url: string, lang: string, caption: string, format: string, pageUrl: string): SubTrack {
    var abs := AbsoluteTrackUrl(url, pageUrl);
    SubTrack(abs, lang, if caption != "" then caption else if lang != "" then lang else "Subtitles",
             if format != "" then format else FormatFromUrl(abs))
  }

  function TrackUrls(ts: seq<SubTrack>): set<string> {
    set t | t in ts :: t.url
  }

  predicate DistinctUrls(ts: seq<SubTrack>) {
    forall i, j :: 0 <= i < j < |ts| ==> ts[i].url != ts[j].url
  }

  /** The `tracks` list and `seenUrls` table of one `findSubtitleTracks` call. */
  class SubtitleCollector {
    var tracks: seq<SubTrack>
    var seen: set<string>

    /** What is stored is what was seen, and no URL twice. */
    ghost predicate Valid()
      reads this
    {
      seen == TrackUrls(tracks) && DistinctUrls(tracks)
    }

    constructor ()
      ensures Valid() && tracks == [] && seen == {}
    {
      tracks := [];
      seen := {};
    }

    /** `addTrack` as the source writes it: the seen-check looks up the URL as given, but the
        table records the resolved one, so a relative source is never recognised again. */
    method AddTrackAsWritten(url: string, lang: string, caption: string, format: string, pageUrl: string)
      modifies this
      ensures Skipped(url) || url in old(seen) ==> tracks == old(tracks) && seen == old(seen)
      ensures !Skipped(url) && url !in old(seen) ==>
                tracks == old(tracks) + [TrackOf(url, lang, caption, format, pageUrl)]
                && seen == old(seen) + {AbsoluteTrackUrl(url, pageUrl)}
    {
      if url == "" || url in seen {
        return;
      }
      if StartsWith(url, "blob:") || StartsWith(url, "data:") {
        return;
      }
      var t := TrackOf(url, lang, caption, format, pageUrl);
      seen := seen + {t.url};
      tracks := tracks + [t];
    }

    /** `addTrack` with the check made on the resolved URL: a track is added at most once. */
    method AddTrack(url: string, lang: string, caption: string, format: string, pageUrl: string)
      requires Valid()
      modifies this
      ensures Valid()
      ensures Skipped(url) || AbsoluteTrackUrl(url, pageUrl) in old(seen) ==> tracks == old(tracks)
      ensures !Skipped(url) && AbsoluteTrackUrl(url, pageUrl) !in old(seen) ==>
                tracks == old(tracks) + [TrackOf(url, lang, caption, format, pageUrl)]
    {
      if Skipped(url) {
        return;
      }
      var t := TrackOf(url, lang, caption, format, pageUrl);
      if t.url in seen {
        return;
      }
      assert forall i :: 0 <= i < |tracks| ==> tracks[i] in tracks;
      seen := seen + {t.url};
      tracks := tracks + [t];
    }
  }

  /** Two `<track>` elements with the same protocol-relative source give two tracks with one URL. */
  method RelativeSourceTwice() returns (c: SubtitleCollector)
    ensures |c.tracks| == 2 && c.tracks[0].url == c.tracks[1].url
  {
    var src, page := "//cdn.example/en.vtt", "https://site.example/watch";
    ProtocolRelative(src, page);
    assert src !in {"https:" + src};
    c := new SubtitleCollector();
    c.AddTrackAsWritten(src, "en", "", "", page);
    c.AddTrackAsWritten(src, "en", "", "", page);
  }

  /** With the corrected check the second one is recognised. */
  method RelativeSourceTwiceFixed() returns (c: SubtitleCollector)
    ensures |c.tracks| == 1 && c.tracks[0].url == "https://cdn.example/en.vtt"
  {
    var src, page := "//cdn.example/en.vtt", "https://site.example/watch";
    ProtocolRelative(src, page);
    assert "https:" + src == "https://cdn.example/en.vtt";
    c := new SubtitleCollector();
    c.AddTrack(src, "en", "", "", page);
    c.AddTrack(src, "en", "", "", page);
  }

  /** The name falls back from the label to the language to "Subtitles", and a track of a
      `.srt` file given no format is an `srt` track. */
  lemma TrackNames(url: string, lang: string, caption: string, format: string, pageUrl: string)
    ensures var t := TrackOf(url, lang, caption, format, pageUrl);
            (caption != "" ==> t.name == caption)
            && (caption == "" && lang != "" ==> t.name == lang)
            && (caption == "" && lang == "" ==> t.name == "Subtitles")
            && (format != "" ==> t.format == format)
    ensures var t := TrackOf(url, lang, caption, format, pageUrl);
            t.format in {"vtt", "srt", "ass", "ssa", "ttml"} || t.format == format
  {
  }
}
