/** `parseMasterM3U8`: reads an HLS master playlist (RFC 8216) into its variant streams,
    sorted by bandwidth, and its AUDIO and SUBTITLES rendition groups. */
module HlsMaster {
  import opened Strings
  import opened Numbers
  import opened Optional
  import opened StableSort
  import opened Urls

  // ---------------------------------------------------------------- attribute lists

  /** A character of the key class `[A-Z0-9-]` under the `i` flag. */
  predicate IsKeyChar(c: char) {
    IsAsciiLetter(c) || IsDigit(c) || c == '-'
  }

  /** The length of the run of key characters at the start of `s`. */
  function KeyRun(s: string): (n: nat)
    ensures n <= |s|
    ensures forall k :: 0 <= k < n ==> IsKeyChar(s[k])
    ensures n < |s| ==> !IsKeyChar(s[n])
  {
    if |s| > 0 && IsKeyChar(s[0]) then 1 + KeyRun(s[1..]) else 0
  }

  /** One match of `([A-Z0-9-]+)=("[^"]*"|[^,]*)`: the key, the value as matched (quotes
      included), and the text after the match. */
  datatype AttrMatch = AttrMatch(key: string, raw: string, rest: string)

  /** The length of the value alternative matched at the start of `s`: a quoted string when
      a closing quote exists, otherwise the run up to the next comma. */
  function ValueLength(s: string): (n: nat)
    ensures n <= |s|
  {
    var close := IndexOfChar(s, '"', 1);
    if |s| > 0 && s[0] == '"' && close >= 0 then close + 1
    else
      var comma := IndexOfChar(s, ',', 0);
      if comma < 0 then |s| else comma
  }

  /** The leftmost match in `s` (what `exec` finds from `lastIndex`); since the pattern has
      no anchors, matching in the suffix after `lastIndex` is the same as matching there. */
  function FirstMatch(s: string): (m: Option<AttrMatch>)
    ensures m.Some? ==> |m.value.rest| + 2 <= |s| && s[|s| - |m.value.rest|..] == m.value.rest
    ensures m.Some? ==> |m.value.key| > 0 && forall k :: 0 <= k < |m.value.key| ==> IsKeyChar(m.value.key[k])
  {
    if |s| == 0 then None
    else
      var e := KeyRun(s);
      if e > 0 && e < |s| && s[e] == '=' then
        var n := ValueLength(s[e + 1..]);
        Some(AttrMatch(s[..e], s[e + 1..e + 1 + n], s[e + 1 + n..]))
      else
        FirstMatch(s[1..])
  }

  /** Drops the surrounding quotes of a value that starts and ends with `"`. */
  function Unquote(v: string): (r: string)
    ensures |v| >= 2 && v[0] == '"' && v[|v| - 1] == '"' ==> r == v[1..|v| - 1]
    ensures (|v| == 0 || v[0] != '"' || v[|v| - 1] != '"') ==> r == v
  {
    if |v| > 0 && v[0] == '"' && v[|v| - 1] == '"' then (if |v| == 1 then "" else v[1..|v| - 1])
    else v
  }

  /** The attribute object built from the matches in `s` on top of `acc`: a later
      duplicate key overwrites an earlier one. */
  function AttributesFrom(s: string, acc: map<string, string>): map<string, string>
    decreases |s|
  {
    match FirstMatch(s)
    case None => acc
    case Some(m) => AttributesFrom(m.rest, acc[m.key := Unquote(m.raw)])
  }

  function Attributes(s: string): map<string, string> {
    AttributesFrom(s, map[])
  }

  /** `parseAttributeList`: the `exec` loop with its `lastIndex`. */
  method ParseAttributeList(raw: string) returns (out: map<string, string>)
    ensures out == Attributes(raw)
  {
    out := map[];
    var pos := 0;
    var m := FirstMatch(raw);
    while m.Some?
      invariant 0 <= pos <= |raw|
      invariant m == FirstMatch(raw[pos..])
      invariant AttributesFrom(raw[pos..], out) == Attributes(raw)
      decreases |raw| - pos
    {
      out := out[m.value.key := Unquote(m.value.raw)];
      pos := |raw| - |m.value.rest|;
      assert raw[pos..] == m.value.rest;
      m := FirstMatch(raw[pos..]);
    }
  }

  /** An attribute's value, or the empty string when it is absent. */
  function Get(attrs: map<string, string>, key: string): string {
    if key in attrs then attrs[key] else ""
  }

  /** One attribute as a playlist writes it: `KEY="value"` or `KEY=value`. */
  datatype Attr = Attr(key: string, value: string, quoted: bool)

  predicate WellFormedAttr(a: Attr) {
    |a.key| > 0 && (forall k :: 0 <= k < |a.key| ==> IsKeyChar(a.key[k]))
    && '"' !in a.value && (!a.quoted ==> ',' !in a.value)
  }

  function AttrText(a: Attr): string {
    a.key + "=" + (if a.quoted then "\"" + a.value + "\"" else a.value)
  }

  /** The comma-separated attribute list. */
  function AttrListText(attrs: seq<Attr>): string {
    if |attrs| == 0 then ""
    else if |attrs| == 1 then AttrText(attrs[0])
    else AttrText(attrs[0]) + "," + AttrListText(attrs[1..])
  }

  function AttrMap(attrs: seq<Attr>, acc: map<string, string>): map<string, string> {
    if |attrs| == 0 then acc else AttrMap(attrs[1..], acc[attrs[0].key := attrs[0].value])
  }

  lemma {:induction false} KeyRunOf(key: string, rest: string)
    requires forall k :: 0 <= k < |key| ==> IsKeyChar(key[k])
    requires |rest| > 0 && !IsKeyChar(rest[0])
    ensures KeyRun(key + rest) == |key|
  {
    if |key| > 0 {
      assert (key + rest)[1..] == key[1..] + rest;
      KeyRunOf(key[1..], rest);
    }
  }

  lemma {:induction false} ValueLengthOf(a: Attr, tail: string)
    requires WellFormedAttr(a)
    requires tail == "" || tail[0] == ','
    ensures var v := if a.quoted then "\"" + a.value + "\"" else a.value;
            ValueLength(v + tail) == |v|
  {
    var v := if a.quoted then "\"" + a.value + "\"" else a.value;
    var s := v + tail;
    if a.quoted {
      assert s[1..] == a.value + ['"'] + tail;
      assert s[|v| - 1] == '"';
      var close := IndexOfChar(s, '"', 1);
      assert close == |v| - 1 by {
        forall j | 1 <= j < |v| - 1 ensures s[j] != '"' {
          assert s[j] == a.value[j - 1];
        }
      }
    } else {
      if |v| > 0 {
        assert s[0] == a.value[0];
      }
      var comma := IndexOfChar(s, ',', 0);
      forall j | 0 <= j < |v| ensures s[j] != ',' {
        assert s[j] == a.value[j];
      }
      if tail == "" {
        assert s == v;
      } else {
        assert s[|v|] == ',';
      }
    }
  }

  /** A key run followed by `=` and a value is the leftmost match. */
  lemma {:induction false} FirstMatchAtKey(key: string, v: string, tail: string)
    requires |key| > 0 && forall k :: 0 <= k < |key| ==> IsKeyChar(key[k])
    requires ValueLength(v + tail) == |v|
    ensures FirstMatch(key + "=" + v + tail) == Some(AttrMatch(key, v, tail))
  {
    var rest := "=" + v + tail;
    var s := key + rest;
    assert key + "=" + v + tail == s;
    KeyRunOf(key, rest);
    assert s[..|key|] == key;
    assert s[|key| + 1..] == v + tail;
    assert s[|key| + 1..|key| + 1 + |v|] == v;
    assert s[|key| + 1 + |v|..] == tail;
  }

  /** The leftmost match at the start of one written attribute is that attribute. */
  lemma {:induction false} FirstMatchOfAttr(a: Attr, tail: string)
    requires WellFormedAttr(a)
    requires tail == "" || tail[0] == ','
    ensures FirstMatch(AttrText(a) + tail)
         == Some(AttrMatch(a.key, if a.quoted then "\"" + a.value + "\"" else a.value, tail))
  {
    var v := if a.quoted then "\"" + a.value + "\"" else a.value;
    ValueLengthOf(a, tail);
    FirstMatchAtKey(a.key, v, tail);
  }

  /** The value text of one written attribute loses its quotes. */
  lemma UnquoteOfAttr(a: Attr)
    requires WellFormedAttr(a)
    ensures Unquote(if a.quoted then "\"" + a.value + "\"" else a.value) == a.value
  {
    var v := if a.quoted then "\"" + a.value + "\"" else a.value;
    if a.quoted {
      assert v[1..|v| - 1] == a.value;
    } else if |v| > 0 {
      assert v[0] in a.value;
    }
  }

  /** Reading one written attribute followed by `tail` records it and reads on in `tail`. */
  lemma {:induction false} AttributesStep(a: Attr, tail: string, acc: map<string, string>)
    requires WellFormedAttr(a)
    requires tail == "" || tail[0] == ','
    ensures AttributesFrom(AttrText(a) + tail, acc) == AttributesFrom(tail, acc[a.key := a.value])
  {
    FirstMatchOfAttr(a, tail);
    UnquoteOfAttr(a);
  }

  /** A comma cannot start a match, so the reader steps over it. */
  lemma {:induction false} AttributesSkipComma(rest: string, acc: map<string, string>)
    ensures AttributesFrom("," + rest, acc) == AttributesFrom(rest, acc)
  {
    assert ("," + rest)[1..] == rest;
    assert KeyRun("," + rest) == 0;
    assert FirstMatch("," + rest) == FirstMatch(rest);
  }

  /** Reading a written attribute list gives its attributes back: quoted values lose their
      quotes and may hold commas, and a repeated key keeps its last value. */
  lemma {:induction false} AttributesOfList(attrs: seq<Attr>, acc: map<string, string>)
    requires forall k :: 0 <= k < |attrs| ==> WellFormedAttr(attrs[k])
    ensures AttributesFrom(AttrListText(attrs), acc) == AttrMap(attrs, acc)
  {
    if |attrs| == 1 {
      AttributesStep(attrs[0], "", acc);
      assert AttrListText(attrs) == AttrText(attrs[0]) + "";
    } else if |attrs| > 1 {
      var rest := AttrListText(attrs[1..]);
      var acc' := acc[attrs[0].key := attrs[0].value];
      AttributesStep(attrs[0], "," + rest, acc);
      assert AttrListText(attrs) == AttrText(attrs[0]) + ("," + rest);
      AttributesSkipComma(rest, acc');
      AttributesOfList(attrs[1..], acc');
    }
  }

  // ---------------------------------------------------------------- renditions

  /** A rendition as the parser keeps it. */
  datatype Track = Track(url: string, language: string, name: string, isDefault: bool)

  /** A GROUP-ID with its renditions, in playlist order. */
  datatype Group = Group(id: string, tracks: seq<Track>)

  /** An `EXT-X-MEDIA` line that names a TYPE, a GROUP-ID and a URI. */
  datatype Rendition = Rendition(kind: string, groupId: string, track: Track)

  const MediaTag := "#EXT-X-MEDIA:"
  const StreamTag := "#EXT-X-STREAM-INF:"

  /** The rendition an `EXT-X-MEDIA` line describes; `None` for other lines and for
      renditions without TYPE, GROUP-ID or URI. */
  function MediaRendition(line: string, baseUrl: string): (r: Option<Rendition>)
    ensures r.Some? ==> StartsWith(line, MediaTag)
    ensures r.Some? ==> r.value.kind != "" && r.value.groupId != "" && r.value.track.language != ""
  {
    if !StartsWith(line, MediaTag) then None
    else
      var attrs := Attributes(line[|MediaTag|..]);
      var kind := Upper(Get(attrs, "TYPE"));
      var groupId := Get(attrs, "GROUP-ID");
      var uri := Get(attrs, "URI");
      var lang := Get(attrs, "LANGUAGE");
      var name := Get(attrs, "NAME");
      var isDefault := Upper(Get(attrs, "DEFAULT")) == "YES";
      if kind == "" || groupId == "" || uri == "" then None
      else
        Some(Rendition(kind, groupId, Track(
          ResolveWithMasterParams(uri, baseUrl),
          if lang == "" then "und" else lang,
          if name != "" then name else if lang != "" then lang else "Default",
          isDefault)))
  }

  /** What a rendition line yields: TYPE upper-cased, GROUP-ID, the URI resolved against
      the manifest, LANGUAGE defaulting to `und`, NAME defaulting to the language and then
      to `Default`, and DEFAULT=YES in any case; a line missing TYPE, GROUP-ID or URI
      yields nothing. */
  lemma MediaRenditionFields(line: string, baseUrl: string)
    requires StartsWith(line, MediaTag)
    ensures var r := MediaRendition(line, baseUrl);
      var attrs := Attributes(line[|MediaTag|..]);
      && (r.None? <==> Get(attrs, "TYPE") == "" || Get(attrs, "GROUP-ID") == "" || Get(attrs, "URI") == "")
      && (r.Some? ==>
        && r.value.groupId == Get(attrs, "GROUP-ID")
        && r.value.kind == Upper(Get(attrs, "TYPE"))
        && r.value.track.language == (if Get(attrs, "LANGUAGE") == "" then "und" else Get(attrs, "LANGUAGE"))
        && r.value.track.name == (if Get(attrs, "NAME") != "" then Get(attrs, "NAME")
                                  else if Get(attrs, "LANGUAGE") != "" then Get(attrs, "LANGUAGE")
                                  else "Default")
        && r.value.track.isDefault == (Upper(Get(attrs, "DEFAULT")) == "YES")
        && r.value.track.url == ResolveWithMasterParams(Get(attrs, "URI"), baseUrl))
  {
  }

  /** The rendition of every line, in playlist order. */
  function Renditions(lines: seq<string>, baseUrl: string): (rs: seq<Option<Rendition>>)
    ensures |rs| == |lines|
    ensures forall k :: 0 <= k < |lines| ==> rs[k] == MediaRendition(lines[k], baseUrl)
  {
    seq(|lines|, k requires 0 <= k < |lines| => MediaRendition(lines[k], baseUrl))
  }

  /** The position of group `id`, or -1. */
  function GroupIndex(groups: seq<Group>, id: string): (r: int)
    ensures r == -1 || (0 <= r < |groups| && groups[r].id == id)
    ensures r == -1 ==> forall k :: 0 <= k < |groups| ==> groups[k].id != id
  {
    if |groups| == 0 then -1
    else if groups[|groups| - 1].id == id then |groups| - 1
    else GroupIndex(groups[..|groups| - 1], id)
  }

  /** The tracks of a group, none when there is no group with that id. */
  function TracksOf(groups: seq<Group>, id: string): seq<Track> {
    var i := GroupIndex(groups, id);
    if i < 0 then [] else groups[i].tracks
  }

  predicate UniqueIds(groups: seq<Group>) {
    forall i, j :: 0 <= i < j < |groups| ==> groups[i].id != groups[j].id
  }

  lemma GroupIndexUnique(groups: seq<Group>, id: string, i: int)
    requires UniqueIds(groups)
    requires 0 <= i < |groups| && groups[i].id == id
    ensures GroupIndex(groups, id) == i
  {
  }

  /** Appending a track to its group, creating the group when it is missing. */
  function AddToGroup(groups: seq<Group>, id: string, t: Track): (r: seq<Group>)
    requires UniqueIds(groups)
    ensures UniqueIds(r)
  {
    var i := GroupIndex(groups, id);
    if i < 0 then groups + [Group(id, [t])]
    else groups[i := Group(id, groups[i].tracks + [t])]
  }

  /** Adding a rendition appends it to its own group and leaves every other group as it
      was. */
  lemma AddToGroupTracks(groups: seq<Group>, id: string, t: Track, other: string)
    requires UniqueIds(groups)
    ensures TracksOf(AddToGroup(groups, id, t), other)
         == TracksOf(groups, other) + (if other == id then [t] else [])
  {
    var r := AddToGroup(groups, id, t);
    var i := GroupIndex(groups, id);
    var j := GroupIndex(groups, other);
    if i < 0 {
      if other == id {
        assert GroupIndex(r, id) == |groups|;
      } else if j >= 0 {
        GroupIndexUnique(r, other, j);
      } else {
        assert forall k :: 0 <= k < |r| ==> r[k].id != other;
      }
    } else {
      if other == id {
        GroupIndexUnique(r, id, i);
      } else if j >= 0 {
        GroupIndexUnique(r, other, j);
      } else {
        assert forall k :: 0 <= k < |r| ==> r[k].id != other;
      }
    }
  }

  /** The groups of type `kind` built from the first `n` renditions. */
  function GroupsOf(rs: seq<Option<Rendition>>, kind: string, n: nat): (r: seq<Group>)
    requires n <= |rs|
    ensures UniqueIds(r)
  {
    if n == 0 then []
    else
      var groups := GroupsOf(rs, kind, n - 1);
      var m := rs[n - 1];
      if m.Some? && m.value.kind == kind then AddToGroup(groups, m.value.groupId, m.value.track)
      else groups
  }

  /** Reference definition: the renditions among the first `n` with the given type and
      GROUP-ID, in playlist order. */
  function RenditionsOf(rs: seq<Option<Rendition>>, kind: string, id: string, n: nat): seq<Track>
    requires n <= |rs|
  {
    if n == 0 then []
    else
      var m := rs[n - 1];
      RenditionsOf(rs, kind, id, n - 1)
      + (if m.Some? && m.value.kind == kind && m.value.groupId == id then [m.value.track] else [])
  }

  /** A group holds exactly the renditions of its type and GROUP-ID, in playlist order;
      renditions of any other type are in no group. */
  lemma {:induction false} GroupsHoldRenditions(rs: seq<Option<Rendition>>, kind: string, id: string, n: nat)
    requires n <= |rs|
    ensures TracksOf(GroupsOf(rs, kind, n), id) == RenditionsOf(rs, kind, id, n)
  {
    if n > 0 {
      GroupsHoldRenditions(rs, kind, id, n - 1);
      var m := rs[n - 1];
      if m.Some? && m.value.kind == kind {
        AddToGroupTracks(GroupsOf(rs, kind, n - 1), m.value.groupId, m.value.track, id);
      }
    }
  }

  /** `for (const line of lines)` over the renditions: AUDIO and SUBTITLES go to their
      groups, other types are dropped. */
  method CollectGroups(rs: seq<Option<Rendition>>) returns (audio: seq<Group>, subtitles: seq<Group>)
    ensures audio == GroupsOf(rs, "AUDIO", |rs|)
    ensures subtitles == GroupsOf(rs, "SUBTITLES", |rs|)
  {
    audio := [];
    subtitles := [];
    var n := 0;
    while n < |rs|
      invariant 0 <= n <= |rs|
      invariant audio == GroupsOf(rs, "AUDIO", n)
      invariant subtitles == GroupsOf(rs, "SUBTITLES", n)
    {
      var m := rs[n];
      if m.Some? {
        if m.value.kind == "AUDIO" {
          audio := AddToGroup(audio, m.value.groupId, m.value.track);
        } else if m.value.kind == "SUBTITLES" {
          subtitles := AddToGroup(subtitles, m.value.groupId, m.value.track);
        }
      }
      n := n + 1;
    }
  }

  // ---------------------------------------------------------------- variants

  datatype Variant = Variant(bandwidth: int, resolution: string, url: string,
                             audioUrl: Option<string>, audioGroupId: Option<string>)

  /** The first line at or after `from` that is a URI line (neither empty nor a tag or
      comment), or -1. */
  function NextUriLine(lines: seq<string>, from: nat): (r: int)
    ensures r == -1 || (from <= r < |lines| && lines[r] != "" && !StartsWith(lines[r], "#"))
    ensures forall j :: from <= j < |lines| && (r == -1 || j < r) ==> lines[j] == "" || StartsWith(lines[j], "#")
    decreases |lines| - from
  {
    if from >= |lines| then -1
    else if lines[from] != "" && !StartsWith(lines[from], "#") then from
    else NextUriLine(lines, from + 1)
  }

  /** The first default-flagged track, else the first track, else nothing. */
  function DefaultTrack(tracks: seq<Track>): (r: Option<Track>)
    ensures r.Some? <==> |tracks| > 0
    ensures r.Some? ==> r.value in tracks
    ensures (exists k :: 0 <= k < |tracks| && tracks[k].isDefault) ==> r.Some? && r.value.isDefault
    ensures r.Some? && !r.value.isDefault ==> r.value == tracks[0]
    ensures r.Some? && r.value.isDefault ==>
              exists k :: 0 <= k < |tracks| && tracks[k] == r.value && forall j :: 0 <= j < k ==> !tracks[j].isDefault
  {
    if |tracks| == 0 then None
    else if tracks[0].isDefault then Some(tracks[0])
    else
      var rest := DefaultTrack(tracks[1..]);
      if rest.Some? && rest.value.isDefault then rest else Some(tracks[0])
  }

  /** BANDWIDTH read as a decimal integer, 0 when it is absent or not a number. */
  function Bandwidth(attrs: map<string, string>): int {
    var text := Get(attrs, "BANDWIDTH");
    ParseIntDecimal(if text == "" then "0" else text).GetOr(0)
  }

  /** An absent or non-numeric BANDWIDTH reads as 0, and a written number reads as itself. */
  lemma BandwidthOf(attrs: map<string, string>)
    ensures Get(attrs, "BANDWIDTH") == "" ==> Bandwidth(attrs) == 0
    ensures DigitPrefix(SignAndRest(Get(attrs, "BANDWIDTH")).1) == "" ==> Bandwidth(attrs) == 0
    ensures forall n: nat :: Get(attrs, "BANDWIDTH") == NatToString(n) ==> Bandwidth(attrs) == n
  {
    ParseIntDecimalOfNat(0);
    forall n: nat | Get(attrs, "BANDWIDTH") == NatToString(n) ensures Bandwidth(attrs) == n {
      ParseIntDecimalOfNat(n);
    }
  }

  function TrackUrls(tracks: seq<Track>): (r: seq<string>)
    ensures |r| == |tracks| && forall k :: 0 <= k < |r| ==> r[k] == tracks[k].url
  {
    seq(|tracks|, k requires 0 <= k < |tracks| => tracks[k].url)
  }

  /** The variant of the stream line `line` once its URI line `uri` is known. */
  function VariantOf(line: string, uri: string, audioGroups: seq<Group>, baseUrl: string): (v: Variant)
    requires StartsWith(line, StreamTag)
    ensures v.url == ResolveWithMasterParams(uri, baseUrl)
  {
    var attrs := Attributes(line[|StreamTag|..]);
    var res := Get(attrs, "RESOLUTION");
    var gid := if Get(attrs, "AUDIO") == "" then None else Some(Get(attrs, "AUDIO"));
    var tracks := if gid.Some? then TracksOf(audioGroups, gid.value) else [];
    var def := DefaultTrack(tracks);
    Variant(Bandwidth(attrs), if res == "" then "unknown" else res,
            ResolveWithMasterParams(uri, baseUrl),
            if def.Some? then Some(def.value.url) else None, gid)
  }

  /** A variant's bandwidth is BANDWIDTH read as a number (0 when absent or not a number),
      its resolution defaults to `unknown`, its audio group is the AUDIO attribute, and its
      audio URL is that of the group's default track: the first default-flagged rendition,
      else the first rendition. */
  lemma VariantOfFields(line: string, uri: string, audioGroups: seq<Group>, baseUrl: string)
    requires StartsWith(line, StreamTag)
    ensures var v := VariantOf(line, uri, audioGroups, baseUrl);
      var attrs := Attributes(line[|StreamTag|..]);
      && v.resolution == (if Get(attrs, "RESOLUTION") == "" then "unknown" else Get(attrs, "RESOLUTION"))
      && (v.audioGroupId.None? <==> Get(attrs, "AUDIO") == "")
      && (v.audioGroupId.Some? ==> v.audioGroupId.value == Get(attrs, "AUDIO"))
      && (v.audioUrl.Some? <==> v.audioGroupId.Some? && |TracksOf(audioGroups, v.audioGroupId.value)| > 0)
      && (v.audioUrl.Some? ==> v.audioUrl.value in TrackUrls(TracksOf(audioGroups, v.audioGroupId.value)))
      && (v.audioUrl.Some? ==> v.audioUrl == Some(DefaultTrack(TracksOf(audioGroups, v.audioGroupId.value)).value.url))
      && (Get(attrs, "BANDWIDTH") == "" ==> v.bandwidth == 0)
      && (DigitPrefix(SignAndRest(Get(attrs, "BANDWIDTH")).1) == "" ==> v.bandwidth == 0)
      && (forall n: nat :: Get(attrs, "BANDWIDTH") == NatToString(n) ==> v.bandwidth == n)
  {
    var attrs := Attributes(line[|StreamTag|..]);
    BandwidthOf(attrs);
    var gid := if Get(attrs, "AUDIO") == "" then None else Some(Get(attrs, "AUDIO"));
    var tracks := if gid.Some? then TracksOf(audioGroups, gid.value) else [];
    var def := DefaultTrack(tracks);
    if def.Some? {
      var k :| 0 <= k < |tracks| && tracks[k] == def.value;
      assert TrackUrls(tracks)[k] == def.value.url;
    }
  }

  /** What the stream line at `i` contributes: a variant when it is a stream line and some
      URI line follows it. */
  function StreamVariant(lines: seq<string>, i: nat, audioGroups: seq<Group>, baseUrl: string): (r: Option<Variant>)
    requires i < |lines|
    ensures r.Some? <==> StartsWith(lines[i], StreamTag) && NextUriLine(lines, i + 1) >= 0
  {
    var j := NextUriLine(lines, i + 1);
    if StartsWith(lines[i], StreamTag) && j >= 0 then Some(VariantOf(lines[i], lines[j], audioGroups, baseUrl))
    else None
  }

  /** The variants present among the first `n` entries, in order. */
  function Present(vs: seq<Option<Variant>>, n: nat): (r: seq<Variant>)
    requires n <= |vs|
    ensures |r| <= n
  {
    if n == 0 then [] else Present(vs, n - 1) + (if vs[n - 1].Some? then [vs[n - 1].value] else [])
  }

  function StreamVariants(lines: seq<string>, audioGroups: seq<Group>, baseUrl: string): (vs: seq<Option<Variant>>)
    ensures |vs| == |lines|
    ensures forall i :: 0 <= i < |lines| ==> vs[i] == StreamVariant(lines, i, audioGroups, baseUrl)
  {
    seq(|lines|, i requires 0 <= i < |lines| => StreamVariant(lines, i, audioGroups, baseUrl))
  }

  /** The number of entries among the first `n` that satisfy a predicate on their line. */
  function StreamInfCount(lines: seq<string>, n: nat): nat
    requires n <= |lines|
  {
    if n == 0 then 0 else StreamInfCount(lines, n - 1) + (if StartsWith(lines[n - 1], StreamTag) then 1 else 0)
  }

  /** Each `EXT-X-STREAM-INF` line yields at most one variant; if every stream line is
      followed by some URI line, each yields exactly one. */
  lemma {:induction false} VariantsPerStreamInf(lines: seq<string>, vs: seq<Option<Variant>>, n: nat)
    requires |vs| == |lines| && n <= |lines|
    requires forall i :: 0 <= i < |lines| ==> (vs[i].Some? ==> StartsWith(lines[i], StreamTag))
    ensures |Present(vs, n)| <= StreamInfCount(lines, n)
    ensures (forall i :: 0 <= i < n && StartsWith(lines[i], StreamTag) ==> vs[i].Some?)
            ==> |Present(vs, n)| == StreamInfCount(lines, n)
  {
    if n > 0 {
      VariantsPerStreamInf(lines, vs, n - 1);
    }
  }

  /** The inner `for (let j = i + 1; ...)`: the first URI line from `from` on, or -1. */
  method FindUriLine(lines: seq<string>, from: nat) returns (j: int)
    ensures j == NextUriLine(lines, from)
  {
    var k := from;
    while k < |lines| && (lines[k] == "" || StartsWith(lines[k], "#"))
      invariant from <= k
      invariant NextUriLine(lines, from) == NextUriLine(lines, k)
      decreases |lines| - k
    {
      k := k + 1;
    }
    j := if k < |lines| then k else -1;
  }

  /** One turn of the stream loop: the variant of line `i`, if it declares one. */
  method LineVariant(lines: seq<string>, i: nat, audioGroups: seq<Group>, baseUrl: string) returns (next: Option<Variant>)
    requires i < |lines|
    ensures next == StreamVariant(lines, i, audioGroups, baseUrl)
  {
    next := None;
    if StartsWith(lines[i], StreamTag) {
      var j := FindUriLine(lines, i + 1);
      if j >= 0 {
        next := Some(VariantOf(lines[i], lines[j], audioGroups, baseUrl));
      }
    }
  }

  /** `for (let i = 0; ...)` over the stream lines. */
  method CollectVariants(lines: seq<string>, audioGroups: seq<Group>, baseUrl: string) returns (variants: seq<Variant>)
    ensures variants == Present(StreamVariants(lines, audioGroups, baseUrl), |lines|)
  {
    ghost var vs := StreamVariants(lines, audioGroups, baseUrl);
    variants := [];
    var i := 0;
    while i < |lines|
      invariant 0 <= i <= |lines|
      invariant variants == Present(vs, i)
    {
      var next := LineVariant(lines, i, audioGroups, baseUrl);
      assert vs[i] == next;
      if next.Some? {
        variants := variants + [next.value];
      }
      i := i + 1;
    }
  }

  // ---------------------------------------------------------------- the whole playlist

  datatype Master = Master(variants: seq<Variant>, audioGroups: seq<Group>, subtitleGroups: seq<Group>)

  /** The playlist's lines, each trimmed, with the empty ones dropped. */
  function PlaylistLines(text: string): (lines: seq<string>)
    ensures forall k :: 0 <= k < |lines| ==> lines[k] != ""
  {
    NonEmpty(TrimAll(Split(text, '\n')))
  }

  function BandwidthKey(v: Variant): int {
    v.bandwidth
  }

  /** The variants in playlist order, before the sort. */
  function DeclaredVariants(text: string, baseUrl: string): seq<Variant> {
    var lines := PlaylistLines(text);
    var audio := GroupsOf(Renditions(lines, baseUrl), "AUDIO", |lines|);
    Present(StreamVariants(lines, audio, baseUrl), |lines|)
  }

  /** What `parseMasterM3U8(text, baseUrl)` returns. */
  function ParseMasterSpec(text: string, baseUrl: string): Master {
    var lines := PlaylistLines(text);
    var rs := Renditions(lines, baseUrl);
    Master(SortDesc(DeclaredVariants(text, baseUrl), BandwidthKey),
           GroupsOf(rs, "AUDIO", |lines|), GroupsOf(rs, "SUBTITLES", |lines|))
  }

  /** `parseMasterM3U8`: the rendition loop, then the stream loop, then the sort. */
  method ParseMaster(text: string, baseUrl: string) returns (result: Master)
    ensures result == ParseMasterSpec(text, baseUrl)
  {
    var lines := PlaylistLines(text);
    var audio, subtitles := CollectGroups(Renditions(lines, baseUrl));
    var variants := CollectVariants(lines, audio, baseUrl);
    variants := SortDesc(variants, BandwidthKey);
    result := Master(variants, audio, subtitles);
  }

  /** The variants come out by non-increasing bandwidth; variants of equal bandwidth keep
      their playlist order; none is lost or added. */
  lemma ParseMasterVariantsOrdered(text: string, baseUrl: string, bandwidth: int)
    ensures var declared := DeclaredVariants(text, baseUrl);
            var variants := ParseMasterSpec(text, baseUrl).variants;
            && SortedDesc(variants, BandwidthKey)
            && WithKey(variants, BandwidthKey, bandwidth) == WithKey(declared, BandwidthKey, bandwidth)
            && multiset(variants) == multiset(declared)
  {
    var declared := DeclaredVariants(text, baseUrl);
    SortDescSorted(declared, BandwidthKey);
    SortDescStable(declared, BandwidthKey, bandwidth);
  }

  /** Each stream line of the playlist yields at most one variant. */
  lemma ParseMasterVariantCount(text: string, baseUrl: string)
    ensures var lines := PlaylistLines(text);
            |ParseMasterSpec(text, baseUrl).variants| <= StreamInfCount(lines, |lines|)
  {
    var lines := PlaylistLines(text);
    var audio := GroupsOf(Renditions(lines, baseUrl), "AUDIO", |lines|);
    VariantsPerStreamInf(lines, StreamVariants(lines, audio, baseUrl), |lines|);
  }
}
