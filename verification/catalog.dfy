/** The `/qualities` handler: decides whether the fetched text is a DASH manifest, an HLS
    master playlist or neither, and turns the parsed manifest into the catalog the popup
    shows: labelled qualities, the audio and subtitle renditions with one entry per
    language, and the table from audio GROUP-ID and language to rendition URL. */
module QualityCatalog {
  import opened Strings
  import opened Numbers
  import opened Optional
  import HlsMaster
  import DashMpd

  // ---------------------------------------------------------------- detection

  /** What may follow a `<` in `/<\s*MPD\b/i`: white space, then `MPD` in any case, then a
      word boundary. */
  predicate MpdAfterLt(s: string) {
    var u := TrimStart(s);
    |u| >= 3 && Lower(u[..3]) == "mpd" && (|u| == 3 || !IsWordChar(u[3]))
  }

  /** `/<\s*MPD\b/i.test(s)`. */
  predicate HasMpdTag(s: string) {
    |s| > 0 && ((s[0] == '<' && MpdAfterLt(s[1..])) || HasMpdTag(s[1..]))
  }

  /** The scan finds a match exactly when some `<` in the text starts one. */
  lemma {:induction false} HasMpdTagIff(s: string)
    ensures HasMpdTag(s) <==> exists i :: 0 <= i < |s| && s[i] == '<' && MpdAfterLt(s[i + 1..])
  {
    if |s| > 0 {
      HasMpdTagIff(s[1..]);
      if exists i :: 0 <= i < |s[1..]| && s[1..][i] == '<' && MpdAfterLt(s[1..][i + 1..]) {
        var i :| 0 <= i < |s[1..]| && s[1..][i] == '<' && MpdAfterLt(s[1..][i + 1..]);
        assert s[1..][i + 1..] == s[i + 2..];
        assert s[i + 1] == '<' && MpdAfterLt(s[i + 2..]);
      }
      if exists i :: 0 <= i < |s| && s[i] == '<' && MpdAfterLt(s[i + 1..]) {
        var i :| 0 <= i < |s| && s[i] == '<' && MpdAfterLt(s[i + 1..]);
        if i > 0 {
          assert s[1..][i - 1] == '<' && s[1..][i..] == s[i + 1..];
        }
      }
    }
  }

  // ---------------------------------------------------------------- resolution buckets

  /** The number after the `x` of a resolution, or 0 when there is none. */
  function HeightOf(resolution: string): Option<int> {
    var parts := Split(resolution, 'x');
    if |parts| < 2 || parts[1] == "" then Some(0) else NumberOf(parts[1])
  }

  /** A resolution written `WxH` has height `H`. */
  lemma HeightOfResolution(w: nat, h: nat)
    ensures HeightOf(NatToString(w) + "x" + NatToString(h)) == Some(h)
  {
    var a, b := NatToString(w), NatToString(h);
    assert 'x' !in a && 'x' !in b by {
      assert forall i :: 0 <= i < |a| ==> IsDigit(a[i]);
      assert forall i :: 0 <= i < |b| ==> IsDigit(b[i]);
    }
    assert a + "x" + b == a + ['x'] + b;
    SplitAround(a, 'x', b);
    NumberOfNat(h);
  }

  /** The resolution thresholds, largest first. */
  const Thresholds: seq<int> := [2160, 1440, 1080, 720, 480, 360, 240]

  /** The threshold whose label a height gets: the `if … else if` ladder of the handler. */
  function Threshold(height: Option<int>): Option<int> {
    if height.None? then None
    else
      var h := height.value;
      if h >= 2160 then Some(2160)
      else if h >= 1440 then Some(1440)
      else if h >= 1080 then Some(1080)
      else if h >= 720 then Some(720)
      else if h >= 480 then Some(480)
      else if h >= 360 then Some(360)
      else if h >= 240 then Some(240)
      else None
  }

  /** The ladder picks the largest threshold not above the height, and none when the
      height is `NaN` or below every threshold. */
  lemma ThresholdIsLargest(height: Option<int>)
    ensures Threshold(height).None? <==> height.None? || height.value < 240
    ensures Threshold(height).Some? ==>
      var t := Threshold(height).value;
      && t in Thresholds && t <= height.value
      && forall u :: u in Thresholds && u <= height.value ==> u <= t
  {
  }

  /** The largest threshold not above a height is the one the ladder picks. */
  lemma ThresholdOf(h: int, t: int)
    requires t in Thresholds && t <= h && forall u :: u in Thresholds && u <= h ==> u <= t
    ensures Threshold(Some(h)) == Some(t)
  {
    ThresholdIsLargest(Some(h));
  }

  /** The bucket label: `2160p` … `240p`, or `unknown`. */
  function Bucket(height: Option<int>): string {
    var t := Threshold(height);
    if t.Some? then NatToString(t.value) + "p" else "unknown"
  }

  /** The label of an HLS quality: `<bucket> (<kbps> kbps)`. */
  function StreamCaption(v: HlsMaster.Variant): string {
    Bucket(HeightOf(v.resolution)) + " (" + IntToString(RoundDiv(v.bandwidth, 1000)) + " kbps)"
  }

  /** A variant of resolution `WxH` is labelled `unknown` below 240 lines. */
  lemma StreamCaptionLow(v: HlsMaster.Variant, w: nat, h: nat)
    requires v.resolution == NatToString(w) + "x" + NatToString(h) && h < 240
    ensures StreamCaption(v) == "unknown" + " (" + IntToString(RoundDiv(v.bandwidth, 1000)) + " kbps)"
  {
    HeightOfResolution(w, h);
    assert Threshold(HeightOf(v.resolution)) == None;
  }

  /** A variant of resolution `WxH` is labelled by the largest threshold `t` not above `H`. */
  lemma StreamCaptionBucket(v: HlsMaster.Variant, w: nat, h: nat, t: int)
    requires v.resolution == NatToString(w) + "x" + NatToString(h)
    requires t in Thresholds && t <= h && forall u :: u in Thresholds && u <= h ==> u <= t
    ensures StreamCaption(v) == NatToString(t) + "p" + " (" + IntToString(RoundDiv(v.bandwidth, 1000)) + " kbps)"
  {
    HeightOfResolution(w, h);
    ThresholdOf(h, t);
  }

  // ---------------------------------------------------------------- catalog entries

  /** A quality of the catalog: the single fallback entry, or one per HLS variant. */
  datatype Quality =
    | Fallback(caption: string, url: string)
    | Stream(caption: string, url: string, bandwidth: int, resolution: string,
             audioUrl: Option<string>, audioGroupId: Option<string>)

  /** The catalog entry of one variant. */
  function StreamQuality(v: HlsMaster.Variant): Quality {
    Stream(StreamCaption(v), v.url, v.bandwidth, if v.resolution == "" then "unknown" else v.resolution,
           v.audioUrl, v.audioGroupId)
  }

  /** `variants.map(...)`. */
  function StreamQualities(vs: seq<HlsMaster.Variant>): (r: seq<Quality>)
    ensures |r| == |vs|
    ensures forall k :: 0 <= k < |vs| ==> r[k] == StreamQuality(vs[k])
  {
    seq(|vs|, k requires 0 <= k < |vs| => StreamQuality(vs[k]))
  }

  /** A rendition listed in the catalog, with the GROUP-ID it came from. */
  datatype Listed = Listed(track: HlsMaster.Track, groupId: string)

  /** The language, or the name when the language is empty: the key renditions are told apart by. */
  function Key(t: HlsMaster.Track): string {
    if t.language != "" then t.language else t.name
  }

  /** The renditions of one group, tagged with its id. */
  function Tag(g: HlsMaster.Group): (r: seq<Listed>)
    ensures |r| == |g.tracks|
    ensures forall k :: 0 <= k < |r| ==> r[k] == Listed(g.tracks[k], g.id)
  {
    seq(|g.tracks|, k requires 0 <= k < |g.tracks| => Listed(g.tracks[k], g.id))
  }

  /** Every rendition of every group, group by group, in the order the loops visit them. */
  function Tagged(gs: seq<HlsMaster.Group>): seq<Listed> {
    if |gs| == 0 then [] else Tagged(gs[..|gs| - 1]) + Tag(gs[|gs| - 1])
  }

  lemma TaggedSnoc(gs: seq<HlsMaster.Group>, i: nat)
    requires i < |gs|
    ensures Tagged(gs[..i + 1]) == Tagged(gs[..i]) + Tag(gs[i])
  {
    assert gs[..i + 1][..i] == gs[..i];
  }

  // ---------------------------------------------------------------- first one per key

  /** The keys of a list of renditions. */
  function Keys(ls: seq<Listed>): set<string> {
    if |ls| == 0 then {} else Keys(ls[..|ls| - 1]) + {Key(ls[|ls| - 1].track)}
  }

  /** The index of the first rendition with key `k`, or -1. */
  function FirstIndex(ls: seq<Listed>, k: string): (r: int)
    ensures -1 <= r < |ls|
    ensures r >= 0 ==> Key(ls[r].track) == k && forall j :: 0 <= j < r ==> Key(ls[j].track) != k
    ensures r == -1 ==> forall j :: 0 <= j < |ls| ==> Key(ls[j].track) != k
  {
    if |ls| == 0 then -1
    else
      var f := FirstIndex(ls[..|ls| - 1], k);
      if f >= 0 then f
      else if Key(ls[|ls| - 1].track) == k then |ls| - 1
      else -1
  }

  lemma {:induction false} KeysFirstIndex(ls: seq<Listed>, k: string)
    ensures k in Keys(ls) <==> FirstIndex(ls, k) >= 0
  {
    if |ls| > 0 {
      KeysFirstIndex(ls[..|ls| - 1], k);
    }
  }

  /** The loop over the renditions: one is kept when no rendition kept before it has its
      key. */
  function KeepFirst(ls: seq<Listed>): seq<Listed> {
    if |ls| == 0 then []
    else
      var before := ls[..|ls| - 1];
      var l := ls[|ls| - 1];
      if Key(l.track) in Keys(before) then KeepFirst(before) else KeepFirst(before) + [l]
  }

  lemma KeepFirstSnoc(ls: seq<Listed>, l: Listed)
    ensures Keys(ls + [l]) == Keys(ls) + {Key(l.track)}
    ensures KeepFirst(ls + [l]) == if Key(l.track) in Keys(ls) then KeepFirst(ls) else KeepFirst(ls) + [l]
  {
    assert (ls + [l])[..|ls|] == ls;
  }

  lemma {:induction false} KeysOfIndex(ls: seq<Listed>, i: nat)
    requires i < |ls|
    ensures Key(ls[i].track) in Keys(ls)
  {
    KeysFirstIndex(ls, Key(ls[i].track));
  }

  /** Every key of the input is kept, and no other. */
  lemma {:induction false} KeepFirstKeys(ls: seq<Listed>)
    ensures Keys(KeepFirst(ls)) == Keys(ls)
  {
    if |ls| > 0 {
      var before, l := ls[..|ls| - 1], ls[|ls| - 1];
      KeepFirstKeys(before);
      KeepFirstSnoc(KeepFirst(before), l);
      assert ls == before + [l];
      KeepFirstSnoc(before, l);
    }
  }

  /** The kept renditions have pairwise distinct keys. */
  lemma {:induction false} KeepFirstUnique(ls: seq<Listed>)
    ensures var r := KeepFirst(ls);
            forall i, j :: 0 <= i < j < |r| ==> Key(r[i].track) != Key(r[j].track)
  {
    if |ls| > 0 {
      var before, l := ls[..|ls| - 1], ls[|ls| - 1];
      KeepFirstUnique(before);
      KeepFirstKeys(before);
      var p := KeepFirst(before);
      if Key(l.track) !in Keys(before) {
        forall i | 0 <= i < |p| ensures Key(p[i].track) != Key(l.track) {
          KeysOfIndex(p, i);
        }
      }
    }
  }

  /** `x` is the first rendition of `ls` with its key. */
  predicate IsFirstOfKey(ls: seq<Listed>, x: Listed) {
    var f := FirstIndex(ls, Key(x.track));
    0 <= f && ls[f] == x
  }

  /** Each kept rendition is the first one of the input with its key. */
  lemma {:induction false} KeepFirstFirst(ls: seq<Listed>)
    ensures forall x :: x in KeepFirst(ls) ==> IsFirstOfKey(ls, x)
  {
    if |ls| > 0 {
      var before, l := ls[..|ls| - 1], ls[|ls| - 1];
      KeepFirstFirst(before);
      forall x | x in KeepFirst(before) ensures IsFirstOfKey(ls, x) {
        assert IsFirstOfKey(before, x);
      }
      if Key(l.track) !in Keys(before) {
        KeysFirstIndex(before, Key(l.track));
        assert IsFirstOfKey(ls, l);
      }
    }
  }

  /** The renditions of `r` come in the order of their first occurrences in `ls`. */
  predicate InFirstOrder(ls: seq<Listed>, r: seq<Listed>) {
    forall i, j :: 0 <= i < j < |r| ==> FirstIndex(ls, Key(r[i].track)) < FirstIndex(ls, Key(r[j].track))
  }

  /** The kept renditions come in the order of their first occurrences. */
  lemma {:induction false} KeepFirstOrder(ls: seq<Listed>)
    ensures InFirstOrder(ls, KeepFirst(ls))
  {
    if |ls| > 0 {
      var before, l := ls[..|ls| - 1], ls[|ls| - 1];
      KeepFirstOrder(before);
      KeepFirstFirst(before);
      var p := KeepFirst(before);
      forall i | 0 <= i < |p|
        ensures 0 <= FirstIndex(before, Key(p[i].track)) == FirstIndex(ls, Key(p[i].track))
      {
        assert p[i] in p;
        assert IsFirstOfKey(before, p[i]);
      }
      forall i, j | 0 <= i < j < |p|
        ensures FirstIndex(ls, Key(p[i].track)) < FirstIndex(ls, Key(p[j].track))
      {
        assert InFirstOrder(before, p);
      }
      if Key(l.track) !in Keys(before) {
        KeysFirstIndex(before, Key(l.track));
        assert FirstIndex(ls, Key(l.track)) == |ls| - 1;
        var r := p + [l];
        assert forall i :: 0 <= i < |p| ==> r[i] == p[i];
      }
    }
  }

  /** One step of the loops: a rendition whose key was seen is skipped; otherwise its key is recorded and it is kept. */
  method Admit(l: Listed, tracks0: seq<Listed>, seen0: set<string>, ghost done: seq<Listed>)
    returns (tracks: seq<Listed>, seen: set<string>)
    requires tracks0 == KeepFirst(done) && seen0 == Keys(done)
    ensures tracks == KeepFirst(done + [l]) && seen == Keys(done + [l])
  {
    tracks, seen := tracks0, seen0;
    var key := Key(l.track);
    if key !in seen {
      tracks := tracks + [l];
      seen := seen + {key};
    }
    KeepFirstSnoc(done, l);
  }

  /** The inner loop over one group's renditions, skipping keys already seen. */
  method KeepFirstOfGroup(g: HlsMaster.Group, tracks0: seq<Listed>, seen0: set<string>,
                          ghost before: seq<Listed>)
    returns (tracks: seq<Listed>, seen: set<string>)
    requires tracks0 == KeepFirst(before) && seen0 == Keys(before)
    ensures tracks == KeepFirst(before + Tag(g)) && seen == Keys(before + Tag(g))
  {
    tracks, seen := tracks0, seen0;
    var listed := Tag(g);
    assert before + listed[..0] == before;
    for j := 0 to |g.tracks|
      invariant tracks == KeepFirst(before + listed[..j]) && seen == Keys(before + listed[..j])
    {
      var l := Listed(g.tracks[j], g.id);
      tracks, seen := Admit(l, tracks, seen, before + listed[..j]);
      assert before + listed[..j + 1] == before + listed[..j] + [l];
    }
    assert listed[..|g.tracks|] == listed;
  }

  /** The outer loop over the groups: `audioTracks` and `subtitleTracks` of the handler. */
  method KeepFirstOfGroups(groups: seq<HlsMaster.Group>) returns (tracks: seq<Listed>)
    ensures tracks == KeepFirst(Tagged(groups))
  {
    tracks := [];
    var seen: set<string> := {};
    for i := 0 to |groups|
      invariant tracks == KeepFirst(Tagged(groups[..i])) && seen == Keys(Tagged(groups[..i]))
    {
      tracks, seen := KeepFirstOfGroup(groups[i], tracks, seen, Tagged(groups[..i]));
      TaggedSnoc(groups, i);
    }
    assert groups[..|groups|] == groups;
  }

  // ---------------------------------------------------------------- audio group map

  /** `audioGroupMap[gid]`: from key to URL; a later rendition overwrites an earlier one. */
  function TrackMap(ts: seq<HlsMaster.Track>): map<string, string> {
    if |ts| == 0 then map[]
    else TrackMap(ts[..|ts| - 1])[Key(ts[|ts| - 1]) := ts[|ts| - 1].url]
  }

  /** `audioGroupMap`: one table per group. */
  function GroupMap(gs: seq<HlsMaster.Group>): map<string, map<string, string>> {
    if |gs| == 0 then map[]
    else GroupMap(gs[..|gs| - 1])[gs[|gs| - 1].id := TrackMap(gs[|gs| - 1].tracks)]
  }

  /** A group's table holds exactly the keys of its renditions. */
  lemma {:induction false} TrackMapKeys(ts: seq<HlsMaster.Track>)
    ensures forall k :: k in TrackMap(ts) <==> exists i :: 0 <= i < |ts| && Key(ts[i]) == k
  {
    if |ts| > 0 {
      var before := ts[..|ts| - 1];
      TrackMapKeys(before);
      assert forall i :: 0 <= i < |before| ==> before[i] == ts[i];
    }
  }

  /** In a group's table each key maps to the URL of the last rendition with that key. */
  lemma {:induction false} TrackMapLastWins(ts: seq<HlsMaster.Track>, i: nat)
    requires i < |ts| && forall j :: i < j < |ts| ==> Key(ts[j]) != Key(ts[i])
    ensures Key(ts[i]) in TrackMap(ts) && TrackMap(ts)[Key(ts[i])] == ts[i].url
  {
    if i < |ts| - 1 {
      var before := ts[..|ts| - 1];
      assert before[i] == ts[i];
      TrackMapLastWins(before, i);
    }
  }

  /** The map holds exactly the ids of the groups. */
  lemma {:induction false} GroupMapKeys(gs: seq<HlsMaster.Group>)
    ensures forall id :: id in GroupMap(gs) <==> exists i :: 0 <= i < |gs| && gs[i].id == id
  {
    if |gs| > 0 {
      var before := gs[..|gs| - 1];
      GroupMapKeys(before);
      assert forall i :: 0 <= i < |before| ==> before[i] == gs[i];
    }
  }

  /** Each id maps to the table of the last group with that id. */
  lemma {:induction false} GroupMapLastWins(gs: seq<HlsMaster.Group>, i: nat)
    requires i < |gs| && forall j :: i < j < |gs| ==> gs[j].id != gs[i].id
    ensures gs[i].id in GroupMap(gs) && GroupMap(gs)[gs[i].id] == TrackMap(gs[i].tracks)
  {
    if i < |gs| - 1 {
      var before := gs[..|gs| - 1];
      assert before[i] == gs[i];
      GroupMapLastWins(before, i);
    }
  }

  /** The inner loop: resets the group's table and fills it rendition by rendition. */
  method FillGroup(m0: map<string, map<string, string>>, g: HlsMaster.Group)
    returns (m: map<string, map<string, string>>)
    ensures m == m0[g.id := TrackMap(g.tracks)]
  {
    m := m0[g.id := map[]];
    for j := 0 to |g.tracks|
      invariant m == m0[g.id := TrackMap(g.tracks[..j])]
    {
      var t := g.tracks[j];
      m := m[g.id := m[g.id][Key(t) := t.url]];
      assert g.tracks[..j + 1][..j] == g.tracks[..j];
    }
    assert g.tracks[..|g.tracks|] == g.tracks;
  }

  /** The outer loop over the audio groups. */
  method BuildGroupMap(groups: seq<HlsMaster.Group>) returns (m: map<string, map<string, string>>)
    ensures m == GroupMap(groups)
  {
    m := map[];
    for i := 0 to |groups|
      invariant m == GroupMap(groups[..i])
    {
      m := FillGroup(m, groups[i]);
      assert groups[..i + 1][..i] == groups[..i];
    }
    assert groups[..|groups|] == groups;
  }

  // ---------------------------------------------------------------- the handler

  /** The catalog the handler answers with. */
  datatype Catalog =
    | Plain(caption: string, url: string)
    | FromDash(dash: DashMpd.Dash)
    | FromHls(qualities: seq<Quality>, audioTracks: seq<Listed>,
              audioGroupMap: map<string, map<string, string>>, subtitleTracks: seq<Listed>)

  /** A missing URL is refused; otherwise the fetched text yields a catalog. */
  datatype Response = BadRequest | Ok(catalog: Catalog)

  const M3uTag := "#EXTM3U"

  /** What `/qualities` answers for `url` once its text has been fetched. */
  function CatalogOf(url: string, text: string): Response {
    if url == "" then BadRequest
    else if !Contains(text, M3uTag) && !HasMpdTag(text) then Ok(Plain("Default", url))
    else if HasMpdTag(text) then
      var d := DashMpd.ParseDashSpec(text, url);
      if |d.qualities| > 0 then Ok(FromDash(d)) else Ok(Plain("DASH Default", url))
    else if Contains(text, HlsMaster.StreamTag) then
      var m := HlsMaster.ParseMasterSpec(text, url);
      var qs := StreamQualities(m.variants);
      Ok(FromHls(if |qs| > 0 then qs else [Fallback("Default", url)],
                 KeepFirst(Tagged(m.audioGroups)), GroupMap(m.audioGroups),
                 KeepFirst(Tagged(m.subtitleGroups))))
    else Ok(Plain("Default", url))
  }

  /** The handler body after the fetch: detection, then the parser, then the loops. */
  method Qualities(url: string, text: string) returns (r: Response)
    ensures r == CatalogOf(url, text)
  {
    if url == "" {
      return BadRequest;
    }
    var isHls := Contains(text, M3uTag);
    var isDash := HasMpdTag(text);
    if !isHls && !isDash {
      return Ok(Plain("Default", url));
    }
    if isDash {
      var d := DashMpd.ParseDash(text, url);
      if |d.qualities| > 0 {
        return Ok(FromDash(d));
      }
      return Ok(Plain("DASH Default", url));
    }
    if Contains(text, HlsMaster.StreamTag) {
      var m := HlsMaster.ParseMaster(text, url);
      var qualities := StreamQualities(m.variants);
      var audioTracks := KeepFirstOfGroups(m.audioGroups);
      var audioGroupMap := BuildGroupMap(m.audioGroups);
      var subtitleTracks := KeepFirstOfGroups(m.subtitleGroups);
      if |qualities| == 0 {
        qualities := [Fallback("Default", url)];
      }
      return Ok(FromHls(qualities, audioTracks, audioGroupMap, subtitleTracks));
    }
    return Ok(Plain("Default", url));
  }

  // ---------------------------------------------------------------- properties

  /** A DASH manifest is read as DASH even when it also carries `#EXTM3U`; when it has no
      video Representation the catalog is the single `DASH Default` entry. */
  lemma DashTakesPrecedence(url: string, text: string)
    requires url != "" && HasMpdTag(text)
    ensures var d := DashMpd.ParseDashSpec(text, url);
            CatalogOf(url, text) == if |d.qualities| > 0 then Ok(FromDash(d)) else Ok(Plain("DASH Default", url))
  {
  }

  /** Text that is neither a DASH nor an HLS manifest, and an HLS playlist without stream
      lines, yield the single `Default` entry for the requested URL. */
  lemma NeitherIsDefault(url: string, text: string)
    requires url != "" && !HasMpdTag(text) && !(Contains(text, M3uTag) && Contains(text, HlsMaster.StreamTag))
    ensures CatalogOf(url, text) == Ok(Plain("Default", url))
  {
  }

  /** An HLS catalog always has at least one quality, its audio and subtitle lists keep the
      first rendition of each language in group order, and its group map has one table per
      audio group. */
  lemma HlsCatalogShape(url: string, text: string)
    requires CatalogOf(url, text).Ok? && CatalogOf(url, text).catalog.FromHls?
    ensures var c := CatalogOf(url, text).catalog;
            var m := HlsMaster.ParseMasterSpec(text, url);
            && |c.qualities| >= 1
            && |c.qualities| == (if |m.variants| > 0 then |m.variants| else 1)
            && (forall i, j :: 0 <= i < j < |c.audioTracks| ==>
                  Key(c.audioTracks[i].track) != Key(c.audioTracks[j].track))
            && Keys(c.audioTracks) == Keys(Tagged(m.audioGroups))
            && (forall i, j :: 0 <= i < j < |c.subtitleTracks| ==>
                  Key(c.subtitleTracks[i].track) != Key(c.subtitleTracks[j].track))
            && Keys(c.subtitleTracks) == Keys(Tagged(m.subtitleGroups))
            && (forall id :: id in c.audioGroupMap <==> exists i :: 0 <= i < |m.audioGroups| && m.audioGroups[i].id == id)
  {
    var m := HlsMaster.ParseMasterSpec(text, url);
    KeepFirstUnique(Tagged(m.audioGroups));
    KeepFirstKeys(Tagged(m.audioGroups));
    KeepFirstUnique(Tagged(m.subtitleGroups));
    KeepFirstKeys(Tagged(m.subtitleGroups));
    GroupMapKeys(m.audioGroups);
  }
}
