/** The download side of the helper server: the output file name and path, the ffmpeg
    command line, the progress report ffmpeg writes on its standard output, and the
    `activeDownloads` registry that `/download`, `/cancel` and the process handlers update. */
module Downloads {
  import opened Strings
  import opened Numbers
  import opened Optional
  import PageDuration

  // ---------------------------------------------------------------- file names

  /** The characters `/[<>:"/\\|?*]/g` removes. */
  predicate Reserved(c: char) {
    c == '<' || c == '>' || c == ':' || c == '"' || c == '/' || c == '\\' || c == '|' || c == '?' || c == '*'
  }

  /** The characters `/[\x00-\x1F]/g` removes. */
  predicate Control(c: char) {
    c as int < 0x20
  }

  function DropReserved(s: string): (r: string)
    ensures forall c :: c in r <==> c in s && !Reserved(c)
  {
    if |s| == 0 then ""
    else
      assert s == [s[0]] + s[1..];
      (if Reserved(s[0]) then "" else [s[0]]) + DropReserved(s[1..])
  }

  function DropControl(s: string): (r: string)
    ensures forall c :: c in r <==> c in s && !Control(c)
  {
    if |s| == 0 then ""
    else
      assert s == [s[0]] + s[1..];
      (if Control(s[0]) then "" else [s[0]]) + DropControl(s[1..])
  }

  /** The server's `sanitizeFilename(name)`; `""` stands for a missing name and `now` for
      `Date.now()`. */
  function SanitizeName(name: string, now: nat): (r: string)
    ensures r != ""
  {
    var t := Trim(CollapseSpace(DropControl(DropReserved(if name == "" then "video" else name))));
    if t == "" then "video_" + NatToString(now) else t
  }

  /** A name fit for a file: no reserved or control character, single spaces only, and no
      white space at either end. */
  predicate SafeName(s: string) {
    && s != ""
    && (forall c :: c in s ==> !Reserved(c) && !Control(c))
    && SingleSpaced(s)
    && !IsSpace(s[0]) && !IsSpace(s[|s| - 1])
  }

  /** The fallback name `video_<timestamp>` is safe. */
  lemma FallbackNameSafe(now: nat)
    ensures SafeName("video_" + NatToString(now))
  {
    var digits := NatToString(now);
    var r := "video_" + digits;
    assert forall i :: 6 <= i < |r| ==> r[i] == digits[i - 6];
    assert forall i :: 0 <= i < |r| ==> r[i] in "video_" || IsDigit(r[i]);
  }

  /** Trimming single-spaced text free of reserved and control characters leaves a safe
      name or nothing. */
  lemma TrimSafe(c: string)
    requires SingleSpaced(c) && forall ch :: ch in c ==> !Reserved(ch) && !Control(ch)
    ensures Trim(c) == "" || SafeName(Trim(c))
  {
    TrimSlice(c);
    var t := Trim(c);
    var a := |c| - |TrimStart(c)|;
    assert forall i :: 0 <= i < |t| ==> t[i] == c[a + i];
  }

  lemma SanitizeNameSafe(name: string, now: nat)
    ensures SafeName(SanitizeName(name, now))
  {
    var d := DropControl(DropReserved(if name == "" then "video" else name));
    CollapseSpaceSpec(d);
    var c := CollapseSpace(d);
    assert forall ch :: ch in c ==> !Reserved(ch) && !Control(ch) by {
      forall ch | ch in c ensures !Reserved(ch) && !Control(ch) {
        if !IsSpace(ch) {
          assert ch in d;
        } else {
          var i :| 0 <= i < |c| && c[i] == ch;
          assert c[i] == ' ';
        }
      }
    }
    TrimSafe(c);
    FallbackNameSafe(now);
  }

  /** Sanitising a sanitised name changes nothing. */
  lemma SanitizeNameIdempotent(name: string, now: nat, later: nat)
    ensures SanitizeName(SanitizeName(name, now), later) == SanitizeName(name, now)
  {
    var r := SanitizeName(name, now);
    SanitizeNameSafe(name, now);
    assert DropReserved(r) == r by { DropReservedClean(r); }
    assert DropControl(r) == r by { DropControlClean(r); }
    CollapseSingleSpaced(r);
    TrimOfUnspaced(r);
  }

  lemma {:induction false} DropReservedClean(s: string)
    requires forall c :: c in s ==> !Reserved(c)
    ensures DropReserved(s) == s
  {
    if |s| > 0 {
      assert s[0] in s;
      assert forall c :: c in s[1..] ==> c in s;
      DropReservedClean(s[1..]);
      assert s == [s[0]] + s[1..];
    }
  }

  lemma {:induction false} DropControlClean(s: string)
    requires forall c :: c in s ==> !Control(c)
    ensures DropControl(s) == s
  {
    if |s| > 0 {
      assert s[0] in s;
      assert forall c :: c in s[1..] ==> c in s;
      DropControlClean(s[1..]);
      assert s == [s[0]] + s[1..];
    }
  }

  /** The extensions `/\.(m3u8|mpd|mp4|webm|mkv|mov|avi|flv|ts)$/i` strips. */
  const MediaExtensions: set<string> := {"m3u8", "mpd", "mp4", "webm", "mkv", "mov", "avi", "flv", "ts"}

  /** Drops a trailing media extension, in any case. */
  function StripMediaExtension(s: string): (r: string)
    ensures StartsWith(s, r)
  {
    var dot := LastIndexOfChar(s, '.');
    if dot >= 0 && Lower(s[dot + 1..]) in MediaExtensions then s[..dot] else s
  }

  /** The file name `/download` writes to (before the directory is joined and the name made
      unique): the output stem, then `.` and the output extension. */
  function OutputFileName(filename: string, outputFormat: string, now: nat): string {
    OutputStem(filename, now) + "." + OutputExtension(outputFormat)
  }

  /** The sanitised name (`video_<now>` when there is none) without a media extension. */
  function OutputStem(filename: string, now: nat): string {
    SanitizeName(StripMediaExtension(if filename == "" then "video_" + NatToString(now) else filename), now)
  }

  /** The lower-cased output format, `mp4` by default. */
  function OutputExtension(outputFormat: string): string {
    Lower(if outputFormat == "" then "mp4" else outputFormat)
  }

  /** The output name is a safe stem followed by the requested format. */
  lemma OutputFileNameShape(filename: string, outputFormat: string, now: nat)
    ensures var r := OutputFileName(filename, outputFormat, now);
            && EndsWith(r, "." + OutputExtension(outputFormat))
            && SafeName(r[..|r| - |OutputExtension(outputFormat)| - 1])
  {
    SanitizeNameSafe(StripMediaExtension(if filename == "" then "video_" + NatToString(now) else filename), now);
    JoinExtension(OutputStem(filename, now), OutputExtension(outputFormat));
  }

  lemma JoinExtension(stem: string, ext: string)
    requires SafeName(stem)
    ensures EndsWith(stem + "." + ext, "." + ext)
    ensures SafeName((stem + "." + ext)[..|stem + "." + ext| - |ext| - 1])
  {
    var r := stem + "." + ext;
    assert r == stem + ("." + ext);
    assert r[..|r| - |ext| - 1] == stem;
  }

  // ---------------------------------------------------------------- unique output path

  /** `path.extname(p)` for a path that does not end in `/`: from the last `.` of the last
      path segment, unless that `.` starts the segment or the segment is `..`. A path that
      ends in `/` gives `""` here, while `path.extname` first drops trailing separators
      (`a.b/` gives `.b`); the output paths it is applied to end in `.<format>`. */
  function Extname(p: string): (r: string)
    ensures |r| <= |p| && p[|p| - |r|..] == r
  {
    var slash := LastIndexOfChar(p, '/');
    var name := p[slash + 1..];
    var dot := LastIndexOfChar(name, '.');
    if dot <= 0 || name == ".." then ""
    else
      SuffixOfSuffix(p, slash + 1, dot);
      name[dot..]
  }

  lemma SuffixOfSuffix(p: string, i: nat, j: nat)
    requires i <= |p| && j <= |p| - i
    ensures p[i..][j..] == p[i + j..]
  {
  }

  /** The path without its extension. */
  function Stem(p: string): string {
    p[..|p| - |Extname(p)|]
  }

  /** The stem as the source computes it, by slicing off the extension's length from the
      end: for an empty extension the slice end is -0, that is 0, so the stem is empty. */
  function StemAsWritten(p: string): string {
    var ext := Extname(p);
    if ext == "" then "" else p[..|p| - |ext|]
  }

  /** The stem and the extension put together give the path back. */
  lemma StemExtname(p: string)
    ensures Stem(p) + Extname(p) == p
  {
  }

  /** For a path without an extension the stem as written is empty, so the candidates
      `" (1)"`, `" (2)"`, … lose the file name and its directory. */
  lemma StemAsWrittenLosesPath()
    ensures Extname("/dl/video") == ""
    ensures StemAsWritten("/dl/video") + Extname("/dl/video") != "/dl/video"
    ensures Candidate(StemAsWritten("/dl/video"), 1, Extname("/dl/video")) == " (1)"
  {
    var p := "/dl/video";
    assert p[3] == '/' && forall j :: 3 < j < |p| ==> p[j] != '/';
    assert LastIndexOfChar(p, '/') == 3;
    var name := p[4..];
    assert name == "video";
    assert forall j :: 0 <= j < |name| ==> name[j] != '.';
    assert LastIndexOfChar(name, '.') == -1;
    assert NatToString(1) == "1";
  }

  /** `${base} (${n})${ext}`. */
  function Candidate(stem: string, n: nat, ext: string): string {
    stem + " (" + NatToString(n) + ")" + ext
  }

  lemma CandidateInjective(stem: string, ext: string, m: nat, n: nat)
    requires Candidate(stem, m, ext) == Candidate(stem, n, ext)
    ensures m == n
  {
    var a, b := NatToString(m), NatToString(n);
    var c := Candidate(stem, m, ext);
    assert |a| == |b|;
    assert a == c[|stem| + 2..|stem| + 2 + |a|];
    assert b == c[|stem| + 2..|stem| + 2 + |b|];
    NatToStringInjective(m, n);
  }

  /** `n` taken candidates are `n` distinct paths. */
  lemma {:induction false} TakenCandidates(stem: string, ext: string, existing: set<string>, n: nat)
    requires forall m :: 1 <= m <= n ==> Candidate(stem, m, ext) in existing
    ensures n <= |existing|
  {
    if n > 0 {
      var rest := existing - {Candidate(stem, n, ext)};
      forall m | 1 <= m <= n - 1 ensures Candidate(stem, m, ext) in rest {
        if Candidate(stem, m, ext) == Candidate(stem, n, ext) {
          CandidateInjective(stem, ext, m, n);
        }
      }
      TakenCandidates(stem, ext, rest, n - 1);
    }
  }

  /** `uniqueOutputPath(filePath)` over the set of paths that exist: the path itself when it
      is free, otherwise the first free `stem (n)ext`. */
  method UniqueOutputPath(p: string, existing: set<string>) returns (r: string)
    ensures r !in existing
    ensures p !in existing ==> r == p
    ensures p in existing ==> exists n :: n >= 1 && r == Candidate(Stem(p), n, Extname(p))
                                         && forall m :: 1 <= m < n ==> Candidate(Stem(p), m, Extname(p)) in existing
  {
    if p !in existing {
      return p;
    }
    var ext := Extname(p);
    var stem := Stem(p);
    var n := 1;
    while true
      invariant n >= 1 && n - 1 <= |existing|
      invariant forall m :: 1 <= m < n ==> Candidate(stem, m, ext) in existing
      decreases |existing| + 1 - n
    {
      var candidate := Candidate(stem, n, ext);
      if candidate !in existing {
        return candidate;
      }
      TakenCandidates(stem, ext, existing, n);
      n := n + 1;
    }
  }

  // ---------------------------------------------------------------- ffmpeg command line

  /** The headers passed to ffmpeg; `""` stands for a missing one. */
  datatype Headers = Headers(referer: string, origin: string, cookie: string, userAgent: string)

  /** One header line: the `Name: ` prefix, the value and CRLF, or nothing. */
  function HeaderLine(prefix: string, value: string): string {
    if value == "" then "" else prefix + value + "\r\n"
  }

  /** `ffmpegHeadersArg(headers)`: one CRLF-terminated line per present header, in a fixed
      order, or `None` (`null`) when there is none. */
  function HeadersArg(h: Headers): (r: Option<string>)
    ensures r.None? <==> h.referer == "" && h.origin == "" && h.cookie == "" && h.userAgent == ""
  {
    var text := HeaderLine("Referer: ", h.referer) + HeaderLine("Origin: ", h.origin)
              + HeaderLine("Cookie: ", h.cookie) + HeaderLine("User-Agent: ", h.userAgent);
    if text == "" then None else Some(text)
  }

  /** Every present header has its line in the argument. */
  lemma HeadersArgLines(h: Headers)
    ensures h.referer != "" ==> Contains(HeadersArg(h).value, "Referer: " + h.referer + "\r\n")
    ensures h.origin != "" ==> Contains(HeadersArg(h).value, "Origin: " + h.origin + "\r\n")
    ensures h.cookie != "" ==> Contains(HeadersArg(h).value, "Cookie: " + h.cookie + "\r\n")
    ensures h.userAgent != "" ==> Contains(HeadersArg(h).value, "User-Agent: " + h.userAgent + "\r\n")
  {
    var a, b, c, d := HeaderLine("Referer: ", h.referer), HeaderLine("Origin: ", h.origin),
                      HeaderLine("Cookie: ", h.cookie), HeaderLine("User-Agent: ", h.userAgent);
    FourLines(a, b, c, d);
  }

  /** Each of four pieces occurs in their concatenation. */
  lemma FourLines(a: string, b: string, c: string, d: string)
    ensures var t := a + b + c + d;
            Contains(t, a) && Contains(t, b) && Contains(t, c) && Contains(t, d)
  {
    var t := a + b + c + d;
    LineAt(t, a, 0);
    LineAt(t, b, |a|);
    LineAt(t, c, |a| + |b|);
    LineAt(t, d, |a| + |b| + |c|);
  }

  lemma LineAt(t: string, line: string, i: nat)
    requires i + |line| <= |t| && t[i..i + |line|] == line
    ensures Contains(t, line)
  {
    assert OccursAt(t, line, i);
    ContainsIff(t, line);
  }

  /** What `/download` receives: the stream, the optional separate audio and subtitle
      URLs, the DASH Representation numbers when the popup picked one, and the output
      format. */
  datatype Request = Request(url: string, audioUrl: string, subtitleUrl: string,
                             dashVideoIndex: Option<int>, dashAudioIndex: Option<int>, ext: string)

  /** The inputs and stream selections of the ffmpeg command. */
  datatype Plan = Plan(inputs: seq<string>, maps: seq<string>, subtitleCodec: Option<string>)

  /** Whether a separate input is given and starts with `http`. */
  predicate External(u: string) {
    StartsWith(u, "http")
  }

  function PlanOf(q: Request): Plan {
    var audio := External(q.audioUrl);
    var sub := External(q.subtitleUrl);
    var inputs := [q.url] + (if audio then [q.audioUrl] else []) + (if sub then [q.subtitleUrl] else []);
    var videoMap := if q.dashVideoIndex.Some? then "0:v:" + IntToString(q.dashVideoIndex.value) else "0:v:0?";
    var audioMap := if audio then "1:a:0?"
                    else if q.dashAudioIndex.Some? then "0:a:" + IntToString(q.dashAudioIndex.value) + "?"
                    else "0:a:0?";
    var subMaps := if sub then [(if audio then "2" else "1") + ":0?"] else [];
    Plan(inputs, [videoMap, audioMap] + subMaps,
         if sub then Some(if q.ext == "mp4" then "mov_text" else "copy") else None)
  }

  /** The input a `-map` selection reads from: its leading digit. */
  function MapInput(m: string): int {
    if |m| > 0 && IsDigit(m[0]) then DigitValue(m[0]) else -1
  }

  /** Every `-map` names an input that exists; video comes from the stream, the audio
      selection reads the separate audio input when there is one, and the subtitle
      selection reads the subtitle input. */
  lemma PlanMapsInputs(q: Request)
    ensures var p := PlanOf(q);
      && p.inputs[0] == q.url
      && |p.inputs| == 1 + (if External(q.audioUrl) then 1 else 0) + (if External(q.subtitleUrl) then 1 else 0)
      && (forall k :: 0 <= k < |p.maps| ==> 0 <= MapInput(p.maps[k]) < |p.inputs|)
      && MapInput(p.maps[0]) == 0
      && (External(q.audioUrl) <==> MapInput(p.maps[1]) == 1)
      && (External(q.audioUrl) ==> p.inputs[1] == q.audioUrl)
      && (External(q.subtitleUrl) <==> |p.maps| == 3)
      && (External(q.subtitleUrl) ==> p.inputs[MapInput(p.maps[2])] == q.subtitleUrl)
  {
  }

  /** `-headers <arg>` before an input when there are headers. */
  function HeadersBefore(headersArg: Option<string>): seq<string> {
    if headersArg.Some? then ["-headers", headersArg.value] else []
  }

  function InputArgs(inputs: seq<string>, headersArg: Option<string>): seq<string> {
    if |inputs| == 0 then [] else HeadersBefore(headersArg) + ["-i", inputs[0]] + InputArgs(inputs[1..], headersArg)
  }

  /** The `args` array `/download` spawns ffmpeg with. */
  function FfmpegArgs(p: Plan, headersArg: Option<string>, outPath: string): (args: seq<string>)
    requires |p.maps| >= 2
    ensures |args| >= 5
    ensures args[..4] == ["-y", "-nostats", "-progress", "pipe:1"]
    ensures args[|args| - 1] == outPath
  {
    var subArgs := if |p.maps| > 2 && p.subtitleCodec.Some? then ["-map", p.maps[2], "-c:s", p.subtitleCodec.value] else [];
    ["-y", "-nostats", "-progress", "pipe:1"] + InputArgs(p.inputs, headersArg)
    + ["-map", p.maps[0], "-map", p.maps[1]] + subArgs
    + ["-c:v", "copy", "-c:a", "copy", outPath]
  }

  /** Each input of the plan is given to ffmpeg after `-i`, in order. */
  lemma {:induction false} InputArgsOrder(inputs: seq<string>, headersArg: Option<string>, k: nat)
    requires k < |inputs|
    ensures var args := InputArgs(inputs, headersArg);
            var at := k * (|HeadersBefore(headersArg)| + 2) + |HeadersBefore(headersArg)|;
            at + 1 < |args| && args[at] == "-i" && args[at + 1] == inputs[k]
  {
    var h := HeadersBefore(headersArg);
    var rest := InputArgs(inputs[1..], headersArg);
    var args := h + ["-i", inputs[0]] + rest;
    if k > 0 {
      InputArgsOrder(inputs[1..], headersArg, k - 1);
      var at := (k - 1) * (|h| + 2) + |h|;
      assert args[|h| + 2 + at] == rest[at];
      assert args[|h| + 2 + at + 1] == rest[at + 1];
      assert k * (|h| + 2) + |h| == |h| + 2 + at;
    }
  }

  // ---------------------------------------------------------------- progress report

  /** `text.split(/\r?\n/)`: the pieces between line feeds, without the carriage return
      that ends a line. */
  function ReportLines(text: string): (r: seq<string>)
  {
    var pieces := Split(text, '\n');
    seq(|pieces|, k requires 0 <= k < |pieces| =>
      if k < |pieces| - 1 && EndsWith(pieces[k], "\r") then pieces[k][..|pieces[k]| - 1] else pieces[k])
  }

  /** The key and value of a `key=value` line, both trimmed. */
  function KeyValue(line: string): (r: Option<(string, string)>) {
    var idx := IndexOfChar(line, '=', 0);
    if idx < 0 then None else Some((Trim(line[..idx]), Trim(line[idx + 1..])))
  }

  /** The value the last line with key `key` gives, if any line has it. */
  function LastValue(lines: seq<string>, key: string): Option<string> {
    if |lines| == 0 then None
    else
      var kv := KeyValue(lines[|lines| - 1]);
      if kv.Some? && kv.value.0 == key then Some(kv.value.1) else LastValue(lines[..|lines| - 1], key)
  }

  /** `key` is the key of `line`. */
  predicate HasKey(line: string, key: string) {
    KeyValue(line).Some? && KeyValue(line).value.0 == key
  }

  /** There is a value exactly when some line has the key. */
  lemma {:induction false} LastValueNone(lines: seq<string>, key: string)
    ensures LastValue(lines, key).None? <==> forall i :: 0 <= i < |lines| ==> !HasKey(lines[i], key)
  {
    if |lines| > 0 {
      var before := lines[..|lines| - 1];
      LastValueNone(before, key);
      assert forall i :: 0 <= i < |before| ==> before[i] == lines[i];
    }
  }

  /** The value is that of the last line with the key: later lines override earlier ones. */
  lemma {:induction false} LastValueIsLast(lines: seq<string>, key: string, i: nat)
    requires i < |lines| && HasKey(lines[i], key)
    requires forall j :: i < j < |lines| ==> !HasKey(lines[j], key)
    ensures LastValue(lines, key) == Some(KeyValue(lines[i]).value.1)
  {
    if i < |lines| - 1 {
      var before := lines[..|lines| - 1];
      assert before[i] == lines[i];
      LastValueIsLast(before, key, i);
    }
  }

  lemma LastValueSnoc(lines: seq<string>, i: nat, key: string)
    requires i < |lines|
    ensures LastValue(lines[..i + 1], key) ==
            if HasKey(lines[i], key) then Some(KeyValue(lines[i]).value.1) else LastValue(lines[..i], key)
  {
    assert lines[..i + 1][..i] == lines[..i];
  }

  /** What one chunk of ffmpeg's `-progress` output reports: the last `out_time_ms` and
      `speed` values it carries. */
  datatype Report = Report(outTimeMs: Option<string>, speed: Option<string>)

  function ReportOf(text: string): Report {
    var lines := NonEmpty(ReportLines(text));
    Report(LastValue(lines, "out_time_ms"), LastValue(lines, "speed"))
  }

  /** The `indexOf('=')` and the two `trim`s of one line. */
  method ReadLine(line: string) returns (kv: Option<(string, string)>)
    ensures kv == KeyValue(line)
  {
    var idx := IndexOfChar(line, '=', 0);
    if idx == -1 {
      return None;
    }
    var key := Trim(line[..idx]);
    var val := Trim(line[idx + 1..]);
    kv := Some((key, val));
  }

  /** The loop of the `data` handler over the lines of a chunk. */
  method ReadReport(text: string) returns (report: Report)
    ensures report == ReportOf(text)
  {
    var lines := NonEmpty(ReportLines(text));
    var outTimeMs: Option<string> := None;
    var speed: Option<string> := None;
    for i := 0 to |lines|
      invariant outTimeMs == LastValue(lines[..i], "out_time_ms")
      invariant speed == LastValue(lines[..i], "speed")
    {
      LastValueSnoc(lines, i, "out_time_ms");
      LastValueSnoc(lines, i, "speed");
      var kv := ReadLine(lines[i]);
      if kv.None? {
        continue;
      }
      if kv.value.0 == "out_time_ms" {
        outTimeMs := Some(kv.value.1);
      }
      if kv.value.0 == "speed" {
        speed := Some(kv.value.1);
      }
    }
    assert lines[..|lines|] == lines;
    report := Report(outTimeMs, speed);
  }

  // ---------------------------------------------------------------- times and percentages

  /** `formatTimeSec(sec)`: the clock text of the whole seconds, never negative; anything
      below one second, a negative value included, prints as `0:00`. */
  function FormatTimeSec(sec: real): (r: string)
    ensures sec < 1.0 ==> r == "0:00"
    ensures ':' in r
  {
    ClockTextZero();
    ClockText(WholeSeconds(sec))
  }

  /** `Math.max(0, Math.floor(sec))`. */
  function WholeSeconds(sec: real): (n: nat)
    ensures sec < 1.0 ==> n == 0
    ensures sec >= 0.0 ==> n == sec.Floor
  {
    if sec.Floor < 0 then 0 else sec.Floor
  }

  lemma ClockTextZero()
    ensures ClockText(0) == "0:00"
  {
    assert NatToString(0) == "0";
    assert Pad2("0") == "00";
  }

  /** From an hour on the time text is `h:mm:ss`, below it `m:ss`, of the whole seconds; and
      below 100 hours the duration reader reads it back as those seconds. */
  lemma {:induction false} FormatTimeSecLayout(sec: real)
    ensures sec >= 3600.0 ==>
              var n := sec.Floor;
              FormatTimeSec(sec)
              == NatToString(n / 3600) + ":" + Pad2(NatToString(n % 3600 / 60)) + ":" + Pad2(NatToString(n % 60))
    ensures 0.0 <= sec < 3600.0 ==>
              var n := sec.Floor;
              FormatTimeSec(sec) == NatToString(n / 60) + ":" + Pad2(NatToString(n % 60))
    ensures 1.0 <= sec < 360000.0 ==>
              PageDuration.PlainDuration(FormatTimeSec(sec)) == Some(PageDuration.DurationOf(sec.Floor))
  {
    if sec >= 0.0 {
      var n: nat := sec.Floor;
      assert FormatTimeSec(sec) == ClockText(n);
      if n >= 3600 {
        PageDuration.ClockTextLong(n);
      } else {
        PageDuration.ClockTextShort(n);
      }
      if 1.0 <= sec < 360000.0 {
        if n >= 3600 {
          PageDuration.PlainRoundTripLong(n);
        } else {
          PageDuration.PlainRoundTripShort(n);
        }
      }
    }
  }

  /** `Math.round(x)`: halves go up. */
  function Round(x: real): int {
    (x + 0.5).Floor
  }

  /** `Math.max(0, Math.min(99, p))`. */
  function Clamp(p: int): (r: int)
    ensures 0 <= r <= 99
    ensures 0 <= p <= 99 ==> r == p
    ensures p < 0 ==> r == 0
    ensures p > 99 ==> r == 99
  {
    if p > 99 then 99 else if p < 0 then 0 else p
  }

  // ---------------------------------------------------------------- the registry

  datatype Status = Downloading | Complete | Failed | Cancelled

  /** The messages `broadcastProgress` sends to the popup. */
  datatype Broadcast =
    | ProgressSent(id: string, percent: int, currentTime: string, totalTime: string, speed: string, eta: string)
    | CompleteSent(id: string)
    | FailedSent(id: string, error: string)
    | CancelledSent(id: string)

  /** The `entry` object of one download. */
  class Download {
    const id: string
    const sourceUrl: string
    const outputPath: string
    /** What ffprobe reported, 0 when it reported nothing. */
    const durationSec: real
    var status: Status
    var percent: int
    var currentTime: string
    var totalTime: string
    var speed: string
    var eta: string

    constructor (id: string, sourceUrl: string, outputPath: string, durationSec: real)
      ensures this.id == id && this.sourceUrl == sourceUrl && this.outputPath == outputPath
      ensures this.durationSec == durationSec
      ensures status == Downloading && percent == 0 && currentTime == "0:00"
      ensures totalTime == (if durationSec != 0.0 then FormatTimeSec(durationSec) else "--:--")
      ensures speed == "--" && eta == "--"
    {
      this.id := id;
      this.sourceUrl := sourceUrl;
      this.outputPath := outputPath;
      this.durationSec := durationSec;
      status := Downloading;
      percent := 0;
      currentTime := "0:00";
      totalTime := if durationSec != 0.0 then FormatTimeSec(durationSec) else "--:--";
      speed := "--";
      eta := "--";
    }
  }

  /** `activeDownloads` together with the messages sent so far. */
  class Registry {
    var active: map<string, Download>
    var events: seq<Broadcast>

    /** Every registered download sits under its own id, is still downloading, and shows a
        percentage between 0 and 99. */
    ghost predicate Valid()
      reads this, active.Values
    {
      forall id :: id in active ==>
        active[id].id == id && active[id].status == Downloading && 0 <= active[id].percent <= 99
    }

    constructor ()
      ensures Valid() && active == map[] && events == []
    {
      active := map[];
      events := [];
    }

    /** `activeDownloads.set(downloadId, entry)`. */
    method Register(d: Download)
      requires Valid() && d.status == Downloading && 0 <= d.percent <= 99
      modifies this
      ensures Valid()
      ensures active == old(active)[d.id := d] && events == old(events)
    {
      active := active[d.id := d];
    }

    /** `/cancel`: 400 without an id, 404 for an id not registered; otherwise the entry is
        marked cancelled, one message is sent and the entry is removed. */
    method Cancel(id: string) returns (code: int)
      requires Valid()
      modifies this, if id in active then {active[id]} else {}
      ensures Valid()
      ensures id == "" ==> code == 400 && active == old(active) && events == old(events)
      ensures id != "" && id !in old(active) ==> code == 404 && active == old(active) && events == old(events)
      ensures id != "" && id in old(active) ==>
        && code == 200
        && old(active)[id].status == Cancelled
        && active == old(active) - {id}
        && events == old(events) + [CancelledSent(id)]
    {
      if id == "" {
        return 400;
      }
      if id !in active {
        return 404;
      }
      var d := active[id];
      d.status := Cancelled;
      events := events + [CancelledSent(id)];
      active := active - {id};
      code := 200;
    }

    /** The `close` handler of the ffmpeg process of `d`. Nothing is sent for a cancelled
        download; otherwise exit code 0 with the output present completes it at 100%, and
        anything else fails it and asks for the output to be deleted. The entry is removed
        in every case. */
    method Close(d: Download, code: int, signal: Option<string>, outputExists: bool) returns (deleteOutput: bool)
      requires Valid()
      modifies this, d
      ensures Valid()
      ensures active == old(active) - {d.id}
      ensures old(d.status) == Cancelled ==>
        && d.status == Cancelled && d.percent == old(d.percent) && events == old(events) && !deleteOutput
      ensures old(d.status) != Cancelled && code == 0 && outputExists ==>
        && d.status == Complete && d.percent == 100 && events == old(events) + [CompleteSent(d.id)] && !deleteOutput
      ensures old(d.status) != Cancelled && !(code == 0 && outputExists) ==>
        && d.status == Failed && d.percent == old(d.percent) && deleteOutput == outputExists
        && events == old(events) + [FailedSent(d.id, ExitMessage(code, signal))]
    {
      deleteOutput := false;
      if d.status == Cancelled {
        active := active - {d.id};
        return;
      }
      if code == 0 && outputExists {
        d.status := Complete;
        d.percent := 100;
        events := events + [CompleteSent(d.id)];
      } else {
        d.status := Failed;
        events := events + [FailedSent(d.id, ExitMessage(code, signal))];
        deleteOutput := outputExists;
      }
      active := active - {d.id};
    }

    /** The `error` handler: the download fails with the process error's message. */
    method Error(d: Download, message: string)
      requires Valid()
      modifies this, d
      ensures Valid()
      ensures active == old(active) - {d.id}
      ensures d.status == Failed && d.percent == old(d.percent)
      ensures events == old(events) + [FailedSent(d.id, if message == "" then "ffmpeg failed" else message)]
    {
      d.status := Failed;
      events := events + [FailedSent(d.id, if message == "" then "ffmpeg failed" else message)];
      active := active - {d.id};
    }

    /** The `data` handler once the chunk's report is read: the fields change as
        `Advance` says and one progress message is sent. */
    method Progress(d: Download, report: Report)
      requires Valid()
      modifies this, d
      ensures Valid()
      ensures active == old(active) && d.status == old(d.status) && d.totalTime == old(d.totalTime)
      ensures Shown(d.percent, d.currentTime, d.speed, d.eta)
           == Advance(old(Shown(d.percent, d.currentTime, d.speed, d.eta)), d.durationSec, report)
      ensures events == old(events) + [ProgressSent(d.id, d.percent, d.currentTime, d.totalTime, d.speed, d.eta)]
    {
      var next := Advance(Shown(d.percent, d.currentTime, d.speed, d.eta), d.durationSec, report);
      if 0 <= d.percent <= 99 {
        AdvancePercent(Shown(d.percent, d.currentTime, d.speed, d.eta), d.durationSec, report);
      }
      d.percent, d.currentTime, d.speed, d.eta := next.percent, next.currentTime, next.speed, next.eta;
      events := events + [ProgressSent(d.id, d.percent, d.currentTime, d.totalTime, d.speed, d.eta)];
    }
  }

  /** The fields of an entry the progress handler updates. */
  datatype Shown = Shown(percent: int, currentTime: string, speed: string, eta: string)

  /** What one progress report does to the shown fields: the played time from
      `out_time_ms` (in microseconds), and when the duration is known the percentage,
      rounded and clamped to 0..99, and the remaining time; then the speed when the report
      carries a non-empty one. A non-numeric `out_time_ms` shows `0:00`. */
  function Advance(s: Shown, durationSec: real, report: Report): Shown {
    Shown(AdvancedPercent(s.percent, durationSec, report.outTimeMs),
          AdvancedTime(s.currentTime, report.outTimeMs),
          if report.speed.Some? && report.speed.value != "" then report.speed.value else s.speed,
          AdvancedEta(s.eta, durationSec, report.outTimeMs))
  }

  /** The played seconds of a numeric `out_time_ms`. */
  function PlayedSeconds(ms: int): real {
    ms as real / 1000000.0
  }

  function AdvancedPercent(percent: int, durationSec: real, outTimeMs: Option<string>): int {
    if outTimeMs.None? || durationSec == 0.0 then percent
    else
      var ms := NumberOf(outTimeMs.value);
      if ms.None? then percent else Percent(PlayedSeconds(ms.value), durationSec)
  }

  function AdvancedTime(currentTime: string, outTimeMs: Option<string>): string {
    if outTimeMs.None? then currentTime
    else
      var ms := NumberOf(outTimeMs.value);
      if ms.None? then "0:00" else FormatTimeSec(PlayedSeconds(ms.value))
  }

  /** The remaining time, never below zero, as clock text. */
  function AdvancedEta(eta: string, durationSec: real, outTimeMs: Option<string>): string {
    if outTimeMs.None? || durationSec == 0.0 then eta
    else
      var ms := NumberOf(outTimeMs.value);
      if ms.None? then "0:00"
      else
        var played := PlayedSeconds(ms.value);
        FormatTimeSec(if durationSec - played < 0.0 then 0.0 else durationSec - played)
  }

  /** `Math.round(played / duration * 100)`, kept within 0..99. */
  function Percent(played: real, duration: real): (p: int)
    requires duration != 0.0
    ensures 0 <= p <= 99
  {
    Clamp(Round(played / duration * 100.0))
  }

  /** A report never takes the percentage out of 0..99. */
  lemma AdvancePercent(s: Shown, durationSec: real, report: Report)
    requires 0 <= s.percent <= 99
    ensures 0 <= Advance(s, durationSec, report).percent <= 99
  {
  }

  /** A report at or past the known duration shows 99, never 100: only `close` completes a
      download. */
  lemma AdvancePastEnd(s: Shown, durationSec: real, report: Report, ms: int)
    requires report.outTimeMs.Some? && NumberOf(report.outTimeMs.value) == Some(ms)
    requires durationSec > 0.0 && PlayedSeconds(ms) >= durationSec
    ensures Advance(s, durationSec, report).percent == 99
  {
    PercentFull(PlayedSeconds(ms), durationSec);
  }

  lemma PercentFull(played: real, duration: real)
    requires duration > 0.0 && played >= duration
    ensures Percent(played, duration) == 99
  {
    RoundFull(played, duration);
  }

  lemma RoundFull(played: real, duration: real)
    requires duration > 0.0 && played >= duration
    ensures Round(played / duration * 100.0) >= 100
  {
    assert played / duration >= 1.0;
  }

  /** The error text of a failed exit: the signal when there is one, else the exit code. */
  function ExitMessage(code: int, signal: Option<string>): string {
    if signal.Some? && signal.value != "" then "ffmpeg terminated (" + signal.value + ")"
    else "ffmpeg exited with code " + IntToString(code)
  }

  /** A cancel followed by a second cancel and then the process's `close`: the first
      answers 200, the second 404, exactly one message is sent, and the output is kept. */
  method CancelThenClose(r: Registry, d: Download, code: int, outputExists: bool)
    returns (first: int, second: int, deleteOutput: bool)
    requires r.Valid() && d.id != "" && d.id in r.active && r.active[d.id] == d
    modifies r, d
    ensures first == 200 && second == 404 && !deleteOutput
    ensures r.events == old(r.events) + [CancelledSent(d.id)]
    ensures d.id !in r.active && d.status == Cancelled
  {
    first := r.Cancel(d.id);
    second := r.Cancel(d.id);
    deleteOutput := r.Close(d, code, None, outputExists);
  }
}
