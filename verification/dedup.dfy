/** `mergeDuplicateVideos` (popup.js): the detections of one page are grouped into logical
    videos, and each group is shown once, through the detection that offers the most. */
module VideoDedup {
  import opened Strings
  import opened Numbers
  import opened Optional
  import opened Lists
  import opened StableSort
  import Popup

  /** A detection as the popup holds it. A missing text field is "", a missing or zero
      `durationSeconds` or `fps` is 0; `kind` is the detection's `type`. */
  datatype Video = Video(pageTitle: string, title: string, durationSeconds: nat, duration: string,
                         url: string, src: string, videoType: string, kind: string,
                         quality: string, source: string, format: string, audioUrl: string, fps: nat)

  /** One entry of a YouTube variant list (`streamVariants`). */
  datatype StreamVariant = StreamVariant(url: string, audioUrl: Option<string>, quality: string,
                                         caption: string, fps: Option<nat>, format: string)

  /** A merged entry: a copy of the primary detection, with the variant list of a YouTube group. */
  datatype Entry = Entry(video: Video, variants: Option<seq<StreamVariant>>)

  // ---------------------------------------------------------------------------------------
  // Group keys

  /** `dedupNormalizeText`: lower case, white-space runs as one space, trimmed. */
  function NormalizeText(value: string): string {
    Trim(CollapseSpace(Lower(value)))
  }

  /** Normalised title (page title first) and duration, or the URL when there is no title. */
  function GroupKey(v: Video): string {
    var title := NormalizeText(if v.pageTitle != "" then v.pageTitle else v.title);
    var dur := if v.durationSeconds != 0 then NatToString(v.durationSeconds) else v.duration;
    if title != "" then title + "|" + dur else "url:" + (if v.url != "" then v.url else v.src)
  }

  /** The distinct keys in the order they first appear: the `groups` map's insertion order. */
  function KeyOrder<T>(vs: seq<T>, key: T -> string): seq<string> {
    if |vs| == 0 then []
    else
      var before := KeyOrder(vs[..|vs| - 1], key);
      var k := key(vs[|vs| - 1]);
      if k in before then before else before + [k]
  }

  /** The elements with key `k`, in their order. */
  function Members<T>(vs: seq<T>, key: T -> string, k: string): seq<T> {
    if |vs| == 0 then []
    else Members(vs[..|vs| - 1], key, k) + (if key(vs[|vs| - 1]) == k then [vs[|vs| - 1]] else [])
  }

  /** The order lists each key once, and exactly the keys of the elements. */
  lemma {:induction false} KeyOrderKeys<T>(vs: seq<T>, key: T -> string)
    ensures forall k :: k in KeyOrder(vs, key) <==> exists i :: 0 <= i < |vs| && key(vs[i]) == k
    ensures forall i, j :: 0 <= i < j < |KeyOrder(vs, key)| ==> KeyOrder(vs, key)[i] != KeyOrder(vs, key)[j]
  {
    if |vs| > 0 {
      var before := vs[..|vs| - 1];
      KeyOrderKeys(before, key);
      assert forall i :: 0 <= i < |before| ==> before[i] == vs[i];
    }
  }

  /** A group holds only elements with its key, and a listed key has a non-empty group. */
  lemma {:induction false} MembersOf<T>(vs: seq<T>, key: T -> string, k: string)
    ensures forall x :: x in Members(vs, key, k) ==> x in vs && key(x) == k
    ensures (exists i :: 0 <= i < |vs| && key(vs[i]) == k) ==> |Members(vs, key, k)| > 0
  {
    if |vs| > 0 {
      var before := vs[..|vs| - 1];
      MembersOf(before, key, k);
      assert forall i :: 0 <= i < |before| ==> before[i] == vs[i];
      if exists i :: 0 <= i < |vs| && key(vs[i]) == k {
        var i :| 0 <= i < |vs| && key(vs[i]) == k;
        if i < |before| {
          assert key(before[i]) == k;
        }
      }
    }
  }

  lemma MembersOfListed<T>(vs: seq<T>, key: T -> string, k: string)
    requires k in KeyOrder(vs, key)
    ensures |Members(vs, key, k)| > 0
  {
    KeyOrderKeys(vs, key);
    MembersOf(vs, key, k);
  }

  /** A key not yet seen has an empty group. */
  lemma {:induction false} MembersAbsent<T>(vs: seq<T>, key: T -> string, k: string)
    requires k !in KeyOrder(vs, key)
    ensures Members(vs, key, k) == []
  {
    if |vs| > 0 {
      MembersAbsent(vs[..|vs| - 1], key, k);
    }
  }

  /** Every element sits in the group of its own key. */
  lemma {:induction false} MembersCover<T>(vs: seq<T>, key: T -> string, i: nat)
    requires i < |vs|
    ensures vs[i] in Members(vs, key, key(vs[i]))
  {
    var before := vs[..|vs| - 1];
    if i < |before| {
      assert before[i] == vs[i];
      MembersCover(before, key, i);
    }
  }

  // ---------------------------------------------------------------------------------------
  // The primary of a group

  predicate IsStream(v: Video) { v.videoType == "stream" }
  predicate IsDirect(v: Video) { v.videoType == "direct" }
  predicate IsDash(v: Video) { v.videoType == "stream" && v.kind == "DASH" }
  predicate IsHls(v: Video) { v.videoType == "stream" && v.kind == "HLS" }

  /** An HLS detection that looks like a master playlist. */
  predicate IsHlsMaster(v: Video) {
    IsHls(v) && (Contains(Lower(v.quality), "master") || Contains(Lower(v.url), "master"))
  }

  predicate IsYouTubeStream(v: Video) {
    v.videoType == "stream" && StartsWith(v.source, "youtube-")
    && (v.format == "mp4" || v.format == "webm" || v.kind == "MP4" || v.kind == "WEBM")
  }

  function Height(v: Video): int {
    Popup.QualityHeight(v.quality)
  }

  /** The YouTube comparator as one descending key: taller first, then without audio first. */
  function YouTubeKey(v: Video): int {
    2 * Popup.QualityHeight(v.quality) + (if v.audioUrl == "" then 1 else 0)
  }

  /** `buildYouTubeVariantLabel`. */
  function VariantCaption(v: Video): string {
    Upper(if v.format != "" then v.format else "mp4") + " - " + (if v.quality != "" then v.quality else "Unknown")
    + (if v.fps != 0 then " - " + NatToString(v.fps) + "fps" else "")
    + (if v.audioUrl != "" then " - video-only" else "")
  }

  function VariantOf(v: Video): StreamVariant {
    StreamVariant(v.url, if v.audioUrl != "" then Some(v.audioUrl) else None,
                  if v.quality != "" then v.quality else "Unknown", VariantCaption(v),
                  if v.fps != 0 then Some(v.fps) else None,
                  if v.format != "" then v.format else if Lower(v.kind) == "webm" then "webm" else "mp4")
  }

  function Urls(vs: seq<StreamVariant>): set<string> {
    set x | x in vs :: x.url
  }

  /** The `variantMap` values: the first stream of each URL, in order. */
  function Variants(ys: seq<Video>): seq<StreamVariant> {
    if |ys| == 0 then []
    else
      var before := Variants(ys[..|ys| - 1]);
      var y := ys[|ys| - 1];
      if y.url in Urls(before) then before else before + [VariantOf(y)]
  }

  /** No two variants share a URL, and every stream's URL has one. */
  lemma {:induction false} VariantsDistinct(ys: seq<Video>)
    ensures forall i, j :: 0 <= i < j < |Variants(ys)| ==> Variants(ys)[i].url != Variants(ys)[j].url
    ensures forall i :: 0 <= i < |ys| ==> ys[i].url in Urls(Variants(ys))
  {
    if |ys| > 0 {
      var before := ys[..|ys| - 1];
      VariantsDistinct(before);
      assert forall i :: 0 <= i < |before| ==> before[i] == ys[i];
    }
  }

  /** The group's YouTube streams in the comparator's order. */
  function YouTubeStreams(items: seq<Video>): (r: seq<Video>)
    ensures |r| == |Filter(items, IsYouTubeStream)|
  {
    SortDesc(Filter(items, IsYouTubeStream), YouTubeKey)
  }

  /** The priority rule of the source for one group. */
  function Primary(items: seq<Video>): Entry
    requires |items| > 0
  {
    var youtube := YouTubeStreams(items);
    if |youtube| > 0 && |Filter(items, IsDash)| > 0 then Entry(Filter(items, IsDash)[0], None)
    else if |youtube| > 0 then Entry(youtube[0], Some(Variants(youtube)))
    else Entry(PlainPrimary(items), None)
  }

  /** The rule for a group without YouTube streams: a master playlist, else the tallest HLS
      stream, else the first DASH manifest, stream, direct video, or detection. */
  function PlainPrimary(items: seq<Video>): Video
    requires |items| > 0
  {
    var hls := Filter(items, IsHls);
    var dash := Filter(items, IsDash);
    if |hls| > 0 then
      var master := Find(items, IsHlsMaster);
      if master.Some? then master.value else SortDesc(hls, Height)[0]
    else if |dash| > 0 then dash[0]
    else
      var stream := Find(items, IsStream);
      if stream.Some? then stream.value
      else
        var direct := Find(items, IsDirect);
        if direct.Some? then direct.value else items[0]
  }

  /** The output: one entry per group, in the order the groups were first seen. */
  function Merged(vs: seq<Video>): seq<Entry> {
    var order := KeyOrder(vs, GroupKey);
    seq(|order|, i requires 0 <= i < |order| => GroupPrimary(vs, order[i]))
  }

  /** The entry a listed group keeps. */
  function GroupPrimary(vs: seq<Video>, k: string): Entry
    requires k in KeyOrder(vs, GroupKey)
  {
    MembersOfListed(vs, GroupKey, k);
    Primary(Members(vs, GroupKey, k))
  }

  // ---------------------------------------------------------------------------------------
  // What the rule promises

  /** Outside YouTube, detections rank: HLS master, other HLS, DASH, other stream, direct, rest. */
  function Rank(v: Video): nat {
    if IsHlsMaster(v) then 0
    else if IsHls(v) then 1
    else if IsDash(v) then 2
    else if IsStream(v) then 3
    else if IsDirect(v) then 4
    else 5
  }

  /** A group without YouTube streams follows the plain rule. */
  lemma PrimaryWithoutYouTube(items: seq<Video>)
    requires |items| > 0 && FirstWhere(items, IsYouTubeStream) < 0
    ensures Primary(items) == Entry(PlainPrimary(items), None)
  {
    FilterHead(items, IsYouTubeStream);
  }

  /** The plain rule picks one of the group's detections of least rank. */
  lemma PlainPrimaryLeastRank(items: seq<Video>)
    requires |items| > 0
    ensures PlainPrimary(items) in items
    ensures forall x :: x in items ==> Rank(PlainPrimary(items)) <= Rank(x)
  {
    var hls := Filter(items, IsHls);
    if |hls| > 0 {
      if Find(items, IsHlsMaster).None? {
        HlsFallbackRank(items);
      }
    } else if |Filter(items, IsDash)| > 0 {
      var p := Filter(items, IsDash)[0];
      assert p in items && IsDash(p);
    }
  }

  /** Without a master playlist, the tallest HLS stream is of rank 1, the least present. */
  lemma HlsFallbackRank(items: seq<Video>)
    requires |Filter(items, IsHls)| > 0 && Find(items, IsHlsMaster).None?
    ensures var p := SortDesc(Filter(items, IsHls), Height)[0];
            p in items && Rank(p) == 1
    ensures forall x :: x in items ==> Rank(x) >= 1
  {
    var hls := Filter(items, IsHls);
    var p := SortDesc(hls, Height)[0];
    assert p in hls && IsHls(p) by {
      assert p in multiset(hls);
    }
    NoMasterRank(items);
  }

  lemma NoMasterRank(items: seq<Video>)
    requires Find(items, IsHlsMaster).None?
    ensures forall x :: x in items ==> Rank(x) >= 1
  {
    forall x | x in items ensures Rank(x) >= 1 {
      assert !IsHlsMaster(x);
    }
  }

  /** Unless it is a non-master HLS stream, the plain rule picks the FIRST detection of its
      rank. */
  lemma PlainPrimaryFirstOfRank(items: seq<Video>)
    requires |items| > 0 && Rank(PlainPrimary(items)) != 1
    ensures exists i :: 0 <= i < |items| && items[i] == PlainPrimary(items)
                        && forall j :: 0 <= j < i ==> Rank(items[j]) > Rank(items[i])
  {
    if |Filter(items, IsHls)| > 0 {
      if Find(items, IsHlsMaster).None? {
        HlsFallbackRank(items);
      }
      FirstMasterRank(items);
    } else if |Filter(items, IsDash)| > 0 {
      FirstDashRank(items);
    } else {
      FirstStreamRank(items);
    }
  }

  lemma FirstMasterRank(items: seq<Video>)
    requires |items| > 0 && |Filter(items, IsHls)| > 0 && Find(items, IsHlsMaster).Some?
    ensures var i := FirstWhere(items, IsHlsMaster);
            0 <= i < |items| && items[i] == PlainPrimary(items) && Rank(items[i]) == 0
            && forall j :: 0 <= j < i ==> Rank(items[j]) > 0
  {
    MasterPick(items);
    MastersFirst(items);
  }

  lemma MasterPick(items: seq<Video>)
    requires |items| > 0 && |Filter(items, IsHls)| > 0 && Find(items, IsHlsMaster).Some?
    ensures var i := FirstWhere(items, IsHlsMaster);
            0 <= i < |items| && items[i] == PlainPrimary(items) && Rank(items[i]) == 0
  {
  }

  lemma MastersFirst(items: seq<Video>)
    ensures forall j :: 0 <= j < FirstWhere(items, IsHlsMaster) ==> Rank(items[j]) > 0
  {
    var i := FirstWhere(items, IsHlsMaster);
    forall j | 0 <= j < i ensures Rank(items[j]) > 0 {
      assert !IsHlsMaster(items[j]);
    }
  }

  lemma FirstDashRank(items: seq<Video>)
    requires |items| > 0 && |Filter(items, IsHls)| == 0 && |Filter(items, IsDash)| > 0
    ensures var i := FirstWhere(items, IsDash);
            0 <= i < |items| && items[i] == PlainPrimary(items) && Rank(items[i]) == 2
            && forall j :: 0 <= j < i ==> Rank(items[j]) > 2
  {
    FilterHead(items, IsDash);
    assert forall j :: 0 <= j < |items| ==> !IsHls(items[j]);
  }

  lemma FirstStreamRank(items: seq<Video>)
    requires |items| > 0 && |Filter(items, IsHls)| == 0 && |Filter(items, IsDash)| == 0
    ensures exists i :: 0 <= i < |items| && items[i] == PlainPrimary(items)
                        && forall j :: 0 <= j < i ==> Rank(items[j]) > Rank(items[i])
  {
    assert forall j :: 0 <= j < |items| ==> !IsHls(items[j]) && !IsDash(items[j]);
    var s := FirstWhere(items, IsStream);
    var d := FirstWhere(items, IsDirect);
    if s >= 0 {
      StreamPick(items);
    } else if d >= 0 {
      DirectPick(items);
    } else {
      assert items[0] == PlainPrimary(items);
    }
  }

  lemma StreamPick(items: seq<Video>)
    requires |items| > 0 && |Filter(items, IsHls)| == 0 && |Filter(items, IsDash)| == 0
    requires forall j :: 0 <= j < |items| ==> !IsHls(items[j]) && !IsDash(items[j])
    requires FirstWhere(items, IsStream) >= 0
    ensures var s := FirstWhere(items, IsStream);
            items[s] == PlainPrimary(items) && Rank(items[s]) == 3 && forall j :: 0 <= j < s ==> Rank(items[j]) > 3
  {
  }

  lemma DirectPick(items: seq<Video>)
    requires |items| > 0 && |Filter(items, IsHls)| == 0 && |Filter(items, IsDash)| == 0
    requires forall j :: 0 <= j < |items| ==> !IsHls(items[j]) && !IsDash(items[j])
    requires FirstWhere(items, IsStream) < 0 && FirstWhere(items, IsDirect) >= 0
    ensures var d := FirstWhere(items, IsDirect);
            items[d] == PlainPrimary(items) && Rank(items[d]) == 4 && forall j :: 0 <= j < d ==> Rank(items[j]) > 4
  {
  }

  /** A non-master HLS pick is the tallest HLS detection, and the first of them when several
      are equally tall. */
  lemma PlainPrimaryTallestHls(items: seq<Video>)
    requires |items| > 0 && Rank(PlainPrimary(items)) == 1
    ensures IsHls(PlainPrimary(items))
    ensures forall x :: x in items && IsHls(x) ==> Height(x) <= Height(PlainPrimary(items))
    ensures exists i :: 0 <= i < |items| && items[i] == PlainPrimary(items)
                        && forall j :: 0 <= j < i && IsHls(items[j]) ==> Height(items[j]) < Height(items[i])
  {
    PlainPrimaryLeastRank(items);
    assert |Filter(items, IsHls)| > 0 && Find(items, IsHlsMaster).None?;
    TallestHls(items);
    FirstTallestHls(items);
  }

  /** The head of the height sort of the HLS detections is the first of the tallest. */
  lemma FirstTallestHls(items: seq<Video>)
    requires |Filter(items, IsHls)| > 0
    ensures exists i :: 0 <= i < |items| && items[i] == SortDesc(Filter(items, IsHls), Height)[0]
                        && forall j :: 0 <= j < i && IsHls(items[j]) ==> Height(items[j]) < Height(items[i])
  {
    var hls := Filter(items, IsHls);
    var m := FirstMax(hls, Height);
    SortDescHead(hls, Height);
    FilterSplit(items, IsHls, m);
    var i :| 0 <= i < |items| && items[i] == hls[m] && Filter(items[..i], IsHls) == hls[..m];
    forall j | 0 <= j < i && IsHls(items[j]) ensures Height(items[j]) < Height(items[i]) {
      assert items[j] in items[..i];
      assert items[j] in hls[..m];
    }
  }

  lemma TallestHls(items: seq<Video>)
    requires |Filter(items, IsHls)| > 0
    ensures var p := SortDesc(Filter(items, IsHls), Height)[0];
            IsHls(p) && forall x :: x in items && IsHls(x) ==> Height(x) <= Height(p)
  {
    var hls := Filter(items, IsHls);
    SortDescHead(hls, Height);
    forall x | x in items && IsHls(x) ensures Height(x) <= Height(hls[FirstMax(hls, Height)]) {
      assert x in hls;
      var k :| 0 <= k < |hls| && hls[k] == x;
    }
  }

  /** In a YouTube group, a DASH manifest wins over the individual streams. */
  lemma YouTubePrefersDash(items: seq<Video>)
    requires |items| > 0 && |Filter(items, IsYouTubeStream)| > 0 && FirstWhere(items, IsDash) >= 0
    ensures Primary(items) == Entry(items[FirstWhere(items, IsDash)], None)
  {
    FilterHead(items, IsDash);
  }

  /** The first sorted YouTube stream is one of the group's, with the largest key. */
  lemma YouTubeHead(items: seq<Video>)
    requires |Filter(items, IsYouTubeStream)| > 0
    ensures var p := YouTubeStreams(items)[0];
            p in items && IsYouTubeStream(p)
            && forall x :: x in items && IsYouTubeStream(x) ==> YouTubeKey(x) <= YouTubeKey(p)
  {
    var ys := Filter(items, IsYouTubeStream);
    SortDescHead(ys, YouTubeKey);
    forall x | x in items && IsYouTubeStream(x) ensures YouTubeKey(x) <= YouTubeKey(YouTubeStreams(items)[0]) {
      assert x in ys;
      var k :| 0 <= k < |ys| && ys[k] == x;
    }
  }

  /** The combined key orders by height first, then puts streams without audio first. */
  lemma YouTubeKeyOrder(x: Video, p: Video)
    requires YouTubeKey(x) <= YouTubeKey(p)
    ensures Height(x) <= Height(p)
    ensures Height(x) == Height(p) && x.audioUrl == "" ==> p.audioUrl == ""
  {
  }

  /** Every YouTube stream's URL has a variant. */
  lemma YouTubeVariantsCover(items: seq<Video>)
    ensures forall x :: x in items && IsYouTubeStream(x) ==> x.url in Urls(Variants(YouTubeStreams(items)))
  {
    var sorted := YouTubeStreams(items);
    VariantsDistinct(sorted);
    forall x | x in items && IsYouTubeStream(x) ensures x.url in Urls(Variants(sorted)) {
      assert x in multiset(Filter(items, IsYouTubeStream));
      assert x in multiset(sorted);
      var m :| 0 <= m < |sorted| && sorted[m] == x;
    }
  }

  /** Otherwise the primary is a tallest YouTube stream, one without separate audio when a
      tallest one has none, and it carries one variant per distinct stream URL. */
  lemma YouTubePrimary(items: seq<Video>)
    requires |items| > 0 && |Filter(items, IsYouTubeStream)| > 0 && FirstWhere(items, IsDash) < 0
    ensures var e := Primary(items);
            e.video in items && IsYouTubeStream(e.video) && e.variants.Some?
    ensures var e := Primary(items);
            forall x :: x in items && IsYouTubeStream(x) ==>
              Height(x) <= Height(e.video) && (Height(x) == Height(e.video) && x.audioUrl == "" ==> e.video.audioUrl == "")
    ensures var e := Primary(items);
            forall x :: x in items && IsYouTubeStream(x) ==> x.url in Urls(e.variants.value)
  {
    FilterHead(items, IsDash);
    var p := YouTubeStreams(items)[0];
    assert Primary(items) == Entry(p, Some(Variants(YouTubeStreams(items))));
    YouTubeHead(items);
    YouTubeVariantsCover(items);
    forall x | x in items && IsYouTubeStream(x)
      ensures Height(x) <= Height(p) && (Height(x) == Height(p) && x.audioUrl == "" ==> p.audioUrl == "")
    {
      YouTubeKeyOrder(x, p);
    }
  }

  /** Exactly one entry per distinct group key, each shown through a detection of its group. */
  lemma MergedOnePerKey(vs: seq<Video>)
    ensures |Merged(vs)| == |KeyOrder(vs, GroupKey)|
    ensures forall i :: 0 <= i < |Merged(vs)| ==>
              Merged(vs)[i].video in vs && GroupKey(Merged(vs)[i].video) == KeyOrder(vs, GroupKey)[i]
    ensures forall k :: k in KeyOrder(vs, GroupKey) <==> exists i :: 0 <= i < |vs| && GroupKey(vs[i]) == k
    ensures forall i, j :: 0 <= i < j < |KeyOrder(vs, GroupKey)| ==> KeyOrder(vs, GroupKey)[i] != KeyOrder(vs, GroupKey)[j]
  {
    KeyOrderKeys(vs, GroupKey);
    forall i | 0 <= i < |Merged(vs)|
      ensures Merged(vs)[i].video in vs && GroupKey(Merged(vs)[i].video) == KeyOrder(vs, GroupKey)[i]
    {
      var k := KeyOrder(vs, GroupKey)[i];
      var items := Members(vs, GroupKey, k);
      MembersOfListed(vs, GroupKey, k);
      MembersOf(vs, GroupKey, k);
      PrimaryInGroup(items);
    }
  }

  /** The primary is always one of the group's detections. */
  lemma PrimaryInGroup(items: seq<Video>)
    requires |items| > 0
    ensures Primary(items).video in items
  {
    var ys := Filter(items, IsYouTubeStream);
    FilterHead(items, IsYouTubeStream);
    if |ys| == 0 {
      PrimaryWithoutYouTube(items);
      PlainPrimaryLeastRank(items);
    } else if FirstWhere(items, IsDash) < 0 {
      YouTubePrimary(items);
    } else {
      YouTubePrefersDash(items);
    }
  }

  // ---------------------------------------------------------------------------------------
  // The loops of the source

  /** The `groups` loop: a key is added on its first detection, and each detection is pushed
      onto its group (generic in the key, which keeps the key's definition out of the proof). */
  method GroupBy<T>(videos: seq<T>, groupKey: T -> string) returns (order: seq<string>, groups: map<string, seq<T>>)
    ensures order == KeyOrder(videos, groupKey)
    ensures forall k :: k in groups <==> k in order
    ensures forall k :: k in groups ==> groups[k] == Members(videos, groupKey, k)
  {
    order := [];
    groups := map[];
    for i := 0 to |videos|
      invariant order == KeyOrder(videos[..i], groupKey)
      invariant forall k :: k in groups <==> k in order
      invariant forall k :: k in groups ==> groups[k] == Members(videos[..i], groupKey, k)
    {
      var v := videos[i];
      var key := groupKey(v);
      assert videos[..i + 1][..i] == videos[..i] && videos[..i + 1][i] == v;
      assert forall k :: Members(videos[..i + 1], groupKey, k)
                         == Members(videos[..i], groupKey, k) + (if key == k then [v] else []);
      if key !in groups {
        MembersAbsent(videos[..i], groupKey, key);
        groups := groups[key := []];
        order := order + [key];
      }
      groups := groups[key := groups[key] + [v]];
    }
    assert videos[..|videos|] == videos;
  }

  /** The `variantMap` loop. */
  method CollectVariants(ys: seq<Video>) returns (vs: seq<StreamVariant>)
    ensures vs == Variants(ys)
  {
    vs := [];
    var seen: set<string> := {};
    for i := 0 to |ys|
      invariant vs == Variants(ys[..i]) && seen == Urls(vs)
    {
      assert ys[..i + 1][..i] == ys[..i];
      if ys[i].url !in seen {
        vs := vs + [VariantOf(ys[i])];
        seen := seen + {ys[i].url};
      }
    }
    assert ys[..|ys|] == ys;
  }

  /** The primary of one group, as the body of the loop over the groups picks it. */
  method PickPrimary(items: seq<Video>) returns (e: Entry)
    requires |items| > 0
    ensures e == Primary(items)
  {
    var youtube := YouTubeStreams(items);
    var dash := Filter(items, IsDash);
    if |youtube| > 0 && |dash| > 0 {
      return Entry(dash[0], None);
    } else if |youtube| > 0 {
      var variants := CollectVariants(youtube);
      return Entry(youtube[0], Some(variants));
    }
    var p := PickPlainPrimary(items);
    return Entry(p, None);
  }

  /** The `let primary = null; if (!primary) ...` chain. */
  method PickPlainPrimary(items: seq<Video>) returns (p: Video)
    requires |items| > 0
    ensures p == PlainPrimary(items)
  {
    var hls := Filter(items, IsHls);
    var primary: Option<Video> := None;
    if |hls| > 0 {
      primary := Find(items, IsHlsMaster);
      if primary.None? {
        primary := Some(SortDesc(hls, Height)[0]);
      }
    }
    var dash := Filter(items, IsDash);
    if primary.None? && |dash| > 0 {
      primary := Some(dash[0]);
    }
    if primary.None? {
      primary := Find(items, IsStream);
    }
    if primary.None? {
      primary := Find(items, IsDirect);
    }
    if primary.None? {
      primary := Some(items[0]);
    }
    return primary.value;
  }

  /** `mergeDuplicateVideos`. */
  method MergeDuplicateVideos(videos: seq<Video>) returns (merged: seq<Entry>)
    ensures merged == Merged(videos)
  {
    var order, groups := GroupBy(videos, GroupKey);
    merged := [];
    for i := 0 to |order|
      invariant merged == Merged(videos)[..i]
    {
      var k := order[i];
      MembersOfListed(videos, GroupKey, k);
      var e := PickPrimary(groups[k]);
      assert e == Merged(videos)[i];
      PrefixSnoc(Merged(videos), i);
      merged := merged + [e];
    }
    assert Merged(videos)[..|order|] == Merged(videos);
  }
}
