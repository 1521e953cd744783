/** `parseDashMpd`: walks the AdaptationSet and Representation elements of a DASH MPD
    (sections 5.3.3 and 5.3.5 of ISO/IEC 23009-1) with regular expressions, numbering the
    video Representations and the audio Representations separately in document order, and
    links every video quality to the first audio track. */
module DashMpd {
  import opened Strings
  import opened Numbers
  import opened Optional

  // ---------------------------------------------------------------- tags

  /** `s` starts with `p`, ignoring ASCII case (the `i` flag of a pattern without `u`). */
  predicate StartsWithNoCase(s: string, p: string) {
    |p| <= |s| && Lower(s[..|p|]) == Lower(p)
  }

  /** `s` starts with `<name` followed by a word boundary: the next character is not a word
      character, or there is none. */
  predicate OpensTag(s: string, name: string) {
    StartsWithNoCase(s, "<" + name) && (|s| == |name| + 1 || !IsWordChar(s[|name| + 1]))
  }

  const SetOpen := "AdaptationSet"
  const SetClose := "</adaptationset>"
  const RepOpen := "Representation"

  /** One match of `<AdaptationSet\b([^>]*)>([\s\S]*?)<\/AdaptationSet>`: the attribute
      text, the body up to the first closing tag, and the text after the match. */
  datatype SetMatch = SetMatch(attrs: string, body: string, rest: string)

  /** The leftmost AdaptationSet match in `s`. */
  function NextSet(s: string): (m: Option<SetMatch>)
    ensures m.Some? ==> |m.value.rest| < |s|
  {
    if |s| == 0 then None
    else
      var gt := IndexOfChar(s, '>', |SetOpen| + 1);
      var close := if gt < 0 then -1 else IndexOf(Lower(s), SetClose, gt + 1);
      if OpensTag(s, SetOpen) && gt >= 0 && close >= 0 then
        Some(SetMatch(s[|SetOpen| + 1..gt], s[gt + 1..close], s[close + |SetClose|..]))
      else NextSet(s[1..])
  }

  /** One match of `<Representation\b([^>]*?)\/?>`: the attribute text (without a closing
      `/`) and the text after the match. */
  datatype RepMatch = RepMatch(attrs: string, rest: string)

  /** The leftmost Representation match in `s`. */
  function NextRep(s: string): (m: Option<RepMatch>)
    ensures m.Some? ==> |m.value.rest| < |s|
  {
    if |s| == 0 then None
    else
      var gt := IndexOfChar(s, '>', |RepOpen| + 1);
      if OpensTag(s, RepOpen) && gt >= 0 then
        var inner := s[|RepOpen| + 1..gt];
        var attrs := if |inner| > 0 && inner[|inner| - 1] == '/' then inner[..|inner| - 1] else inner;
        Some(RepMatch(attrs, s[gt + 1..]))
      else NextRep(s[1..])
  }

  // ---------------------------------------------------------------- attributes

  predicate IsNameStart(c: char) {
    IsAsciiLetter(c) || c == '_' || c == ':'
  }

  predicate IsNameChar(c: char) {
    IsNameStart(c) || IsDigit(c) || c == '-' || c == '.'
  }

  function NameRun(s: string): (n: nat)
    ensures n <= |s|
    ensures forall k :: 0 <= k < n ==> IsNameChar(s[k])
    ensures n < |s| ==> !IsNameChar(s[n])
  {
    if |s| > 0 && IsNameChar(s[0]) then 1 + NameRun(s[1..]) else 0
  }

  function SpaceRun(s: string): (n: nat)
    ensures n <= |s|
    ensures forall k :: 0 <= k < n ==> IsSpace(s[k])
    ensures n < |s| ==> !IsSpace(s[n])
  {
    if |s| > 0 && IsSpace(s[0]) then 1 + SpaceRun(s[1..]) else 0
  }

  /** One match of `([A-Za-z_:][-A-Za-z0-9_:.]*)\s*=\s*"([^"]*)"`. */
  datatype XmlAttr = XmlAttr(name: string, value: string, rest: string)

  /** The `"([^"]*)"` part, at the start of `s`. */
  function QuotedValue(name: string, s: string): (m: Option<XmlAttr>)
    ensures m.Some? ==> |m.value.rest| < |s|
  {
    var close := IndexOfChar(s, '"', 1);
    if |s| > 0 && s[0] == '"' && close >= 0 then Some(XmlAttr(name, s[1..close], s[close + 1..]))
    else None
  }

  /** The `\s*=\s*"([^"]*)"` part, at the start of `s`. */
  function AfterName(name: string, s: string): (m: Option<XmlAttr>)
    ensures m.Some? ==> |m.value.rest| < |s|
  {
    var eq := SpaceRun(s);
    if eq < |s| && s[eq] == '=' then
      var t := s[eq + 1..];
      QuotedValue(name, t[SpaceRun(t)..])
    else None
  }

  /** The match starting exactly at the beginning of `s`, if any. */
  function AttrHere(s: string): (m: Option<XmlAttr>)
    ensures m.Some? ==> |m.value.rest| < |s|
  {
    if |s| == 0 || !IsNameStart(s[0]) then None
    else AfterName(s[..NameRun(s)], s[NameRun(s)..])
  }

  /** The leftmost attribute match in `s`. */
  function NextAttr(s: string): (m: Option<XmlAttr>)
    ensures m.Some? ==> |m.value.rest| < |s|
  {
    if |s| == 0 then None
    else
      var here := AttrHere(s);
      if here.Some? then here else NextAttr(s[1..])
  }

  function AttrsFrom(s: string, acc: map<string, string>): map<string, string>
    decreases |s|
  {
    match NextAttr(s)
    case None => acc
    case Some(m) => AttrsFrom(m.rest, acc[m.name := m.value])
  }

  /** What the inner `attrs(s)` helper returns; a repeated name keeps its last value. */
  function XmlAttributes(s: string): map<string, string> {
    AttrsFrom(s, map[])
  }

  /** The `exec` loop of `attrs(s)`. */
  method ParseXmlAttributes(s: string) returns (out: map<string, string>)
    ensures out == XmlAttributes(s)
  {
    out := map[];
    var rest := s;
    while NextAttr(rest).Some?
      invariant AttrsFrom(rest, out) == XmlAttributes(s)
      decreases |rest|
    {
      var m := NextAttr(rest).value;
      out := out[m.name := m.value];
      rest := m.rest;
    }
  }

  /** ` name="value"`, one written attribute. */
  function AttrText(name: string, value: string): string {
    " " + name + "=\"" + value + "\""
  }

  predicate WellFormedName(name: string) {
    |name| > 0 && IsNameStart(name[0]) && forall k :: 0 <= k < |name| ==> IsNameChar(name[k])
  }

  lemma {:induction false} NameRunOf(name: string, rest: string)
    requires forall k :: 0 <= k < |name| ==> IsNameChar(name[k])
    requires |rest| > 0 && !IsNameChar(rest[0])
    ensures NameRun(name + rest) == |name|
  {
    if |name| > 0 {
      assert (name + rest)[1..] == name[1..] + rest;
      NameRunOf(name[1..], rest);
    }
  }

  lemma QuotedValueOf(name: string, value: string, tail: string)
    requires '"' !in value
    ensures QuotedValue(name, "\"" + value + "\"" + tail) == Some(XmlAttr(name, value, tail))
  {
    var s := "\"" + value + "\"" + tail;
    assert s[1 + |value|] == '"';
    assert forall k :: 1 <= k < 1 + |value| ==> s[k] == value[k - 1];
    assert IndexOfChar(s, '"', 1) == 1 + |value|;
    assert s[1..1 + |value|] == value;
    assert s[2 + |value|..] == tail;
  }

  lemma AfterNameOf(name: string, u: string)
    requires |u| > 0 && u[0] == '"'
    ensures AfterName(name, "=" + u) == QuotedValue(name, u)
  {
    var s := "=" + u;
    SpaceRunNone(s);
    assert s[1..] == u;
    SpaceRunNone(u);
    assert u[0..] == u;
  }

  lemma SpaceRunNone(s: string)
    requires |s| > 0 && (s[0] == '=' || s[0] == '"')
    ensures SpaceRun(s) == 0
  {
  }

  /** A written attribute is matched as itself, and the reader carries on after it. */
  lemma AttrHereOf(name: string, value: string, tail: string)
    requires WellFormedName(name) && '"' !in value
    ensures AttrHere(name + "=\"" + value + "\"" + tail) == Some(XmlAttr(name, value, tail))
  {
    var u := "\"" + value + "\"" + tail;
    var s := name + ("=" + u);
    assert name + "=\"" + value + "\"" + tail == s;
    NameRunOf(name, "=" + u);
    assert s[..|name|] == name && s[|name|..] == "=" + u;
    AfterNameOf(name, u);
    QuotedValueOf(name, value, tail);
  }

  /** A list of written attributes. */
  function AttrListText(names: seq<string>, values: seq<string>): string
    requires |names| == |values|
  {
    if |names| == 0 then "" else AttrText(names[0], values[0]) + AttrListText(names[1..], values[1..])
  }

  /** The map the attributes give, entered in order into `acc`. */
  function AttrMapOf(names: seq<string>, values: seq<string>, acc: map<string, string>): map<string, string>
    requires |names| == |values|
  {
    if |names| == 0 then acc else AttrMapOf(names[1..], values[1..], acc[names[0] := values[0]])
  }

  /** Reading a written attribute list gives its attributes back; a repeated name keeps its
      last value. */
  lemma {:induction false} XmlAttributesOfList(names: seq<string>, values: seq<string>, acc: map<string, string>)
    requires |names| == |values|
    requires forall k :: 0 <= k < |names| ==> WellFormedName(names[k]) && '"' !in values[k]
    ensures AttrsFrom(AttrListText(names, values), acc) == AttrMapOf(names, values, acc)
  {
    if |names| > 0 {
      var tail := AttrListText(names[1..], values[1..]);
      NextAttrOfText(names[0], values[0], tail);
      XmlAttributesOfList(names[1..], values[1..], acc[names[0] := values[0]]);
    }
  }

  /** The leftmost match in a written attribute followed by `tail` is that attribute. */
  lemma NextAttrOfText(name: string, value: string, tail: string)
    requires WellFormedName(name) && '"' !in value
    ensures NextAttr(AttrText(name, value) + tail) == Some(XmlAttr(name, value, tail))
  {
    var body := name + "=\"" + value + "\"" + tail;
    assert AttrText(name, value) + tail == " " + body;
    AttrHereOf(name, value, tail);
    NextAttrSkipSpace(body);
  }

  lemma NextAttrSkipSpace(body: string)
    ensures NextAttr(" " + body) == NextAttr(body)
  {
    assert (" " + body)[1..] == body;
  }

  /** An attribute's value, or the empty string when it is absent. */
  function Get(attrs: map<string, string>, key: string): string {
    if key in attrs then attrs[key] else ""
  }

  /** An attribute read as a decimal integer, 0 when it is absent or not a number. */
  function IntAttr(attrs: map<string, string>, key: string): int {
    var text := Get(attrs, key);
    ParseIntDecimal(if text == "" then "0" else text).GetOr(0)
  }

  // ---------------------------------------------------------------- entries

  datatype Kind = Video | Audio

  /** Video when contentType is `video` or the mimeType starts with `video/`; otherwise
      audio on the same test; otherwise neither (the set is skipped). */
  function SetKind(setAttrs: map<string, string>): Option<Kind> {
    var mime := Lower(Get(setAttrs, "mimeType"));
    var contentType := Lower(Get(setAttrs, "contentType"));
    if contentType == "video" || StartsWith(mime, "video/") then Some(Video)
    else if contentType == "audio" || StartsWith(mime, "audio/") then Some(Audio)
    else None
  }

  /** What the loop reads from a Representation and its AdaptationSet: `bandwidth`, `width`
      and `height` through `parseInt(... || '0', 10) || 0`, the `id`, the Representation's
      `mimeType` or else the set's, and the set's `lang`. */
  datatype Facts = Facts(bandwidth: int, width: int, height: int, id: Option<string>,
                         mimeType: string, lang: string)

  function IdOf(rep: map<string, string>): Option<string> {
    if Get(rep, "id") == "" then None else Some(Get(rep, "id"))
  }

  function FactsOf(setAttrs: map<string, string>, rep: map<string, string>): Facts {
    Facts(IntAttr(rep, "bandwidth"), IntAttr(rep, "width"), IntAttr(rep, "height"), IdOf(rep),
          if Get(rep, "mimeType") != "" then Get(rep, "mimeType") else Get(setAttrs, "mimeType"),
          Get(setAttrs, "lang"))
  }

  /** A Representation of a video or audio AdaptationSet. */
  datatype Entry = Entry(kind: Kind, facts: Facts)

  /** The Representations of one set's body, in document order. */
  function RepEntries(kind: Kind, setAttrs: map<string, string>, body: string): seq<Entry>
    decreases |body|
  {
    match NextRep(body)
    case None => []
    case Some(m) => [Entry(kind, FactsOf(setAttrs, XmlAttributes(m.attrs)))] + RepEntries(kind, setAttrs, m.rest)
  }

  function SetEntries(m: SetMatch): seq<Entry> {
    var setAttrs := XmlAttributes(m.attrs);
    match SetKind(setAttrs)
    case None => []
    case Some(kind) => RepEntries(kind, setAttrs, m.body)
  }

  /** Every Representation of every video or audio AdaptationSet, in document order. */
  function Entries(s: string): seq<Entry>
    decreases |s|
  {
    match NextSet(s)
    case None => []
    case Some(m) => SetEntries(m) + Entries(m.rest)
  }

  // ---------------------------------------------------------------- qualities and tracks

  datatype Quality = Quality(caption: string, url: string, bandwidth: int, resolution: string,
                             dashVideoIndex: nat, dashVideoId: Option<string>,
                             dashAudioIndex: Option<nat>, dashAudioId: Option<string>,
                             audioUrl: Option<string>, format: string)

  datatype AudioTrack = AudioTrack(url: string, language: string, name: string, isDefault: bool,
                                   dashAudioIndex: nat, dashAudioId: Option<string>)

  /** The quality of the `index`-th video Representation. */
  function QualityOf(e: Entry, index: nat, mpdUrl: string): (q: Quality)
    ensures q.dashVideoIndex == index && q.url == mpdUrl && q.dashAudioIndex.None?
  {
    var f := e.facts;
    var heightText := if f.height != 0 then IntToString(f.height) + "p" else "Unknown";
    Quality("DASH " + heightText + " (" + IntToString(RoundDiv(f.bandwidth, 1000)) + " kbps)", mpdUrl, f.bandwidth,
            if f.width != 0 && f.height != 0 then IntToString(f.width) + "x" + IntToString(f.height) else "unknown",
            index, f.id, None, None, None,
            if Contains(f.mimeType, "webm") then "webm" else "mp4")
  }

  /** The track of the `index`-th audio Representation. */
  function AudioOf(e: Entry, index: nat, mpdUrl: string): (t: AudioTrack)
    ensures t.dashAudioIndex == index && t.url == mpdUrl && (t.isDefault <==> index == 0)
  {
    var lang := e.facts.lang;
    AudioTrack(mpdUrl, if lang == "" then "und" else lang, Upper(if lang == "" then "audio" else lang),
               index == 0, index, e.facts.id)
  }

  /** Reference definition: the entries of one kind, in document order. */
  function OfKind(es: seq<Entry>, kind: Kind): (r: seq<Entry>)
    ensures |r| <= |es|
  {
    if |es| == 0 then []
    else (if es[0].kind == kind then [es[0]] else []) + OfKind(es[1..], kind)
  }

  lemma {:induction false} OfKindAppend(xs: seq<Entry>, ys: seq<Entry>, kind: Kind)
    ensures OfKind(xs + ys, kind) == OfKind(xs, kind) + OfKind(ys, kind)
  {
    if |xs| > 0 {
      assert (xs + ys)[0] == xs[0];
      assert (xs + ys)[1..] == xs[1..] + ys;
      OfKindAppend(xs[1..], ys, kind);
    } else {
      assert xs + ys == ys;
    }
  }

  /** Every entry of one set has the set's kind. */
  lemma {:induction false} RepEntriesKind(kind: Kind, setAttrs: map<string, string>, body: string)
    ensures OfKind(RepEntries(kind, setAttrs, body), kind) == RepEntries(kind, setAttrs, body)
    ensures forall other :: other != kind ==> OfKind(RepEntries(kind, setAttrs, body), other) == []
    decreases |body|
  {
    match NextRep(body)
    case None =>
    case Some(m) =>
      var e := Entry(kind, FactsOf(setAttrs, XmlAttributes(m.attrs)));
      RepEntriesKind(kind, setAttrs, m.rest);
      OfKindAppend([e], RepEntries(kind, setAttrs, m.rest), kind);
      forall other | other != kind
        ensures OfKind(RepEntries(kind, setAttrs, body), other) == []
      {
        OfKindAppend([e], RepEntries(kind, setAttrs, m.rest), other);
      }
  }

  /** `f` applied to each element of `xs` with its number, counting from `first`. */
  function Numbered<T, C, U>(xs: seq<T>, first: nat, ctx: C, f: (T, nat, C) -> U): (r: seq<U>)
    ensures |r| == |xs|
  {
    if |xs| == 0 then [] else [f(xs[0], first, ctx)] + Numbered(xs[1..], first + 1, ctx, f)
  }

  /** The `k`-th element is numbered `first + k`. */
  lemma {:induction false} NumberedAt<T, C, U>(xs: seq<T>, first: nat, ctx: C, f: (T, nat, C) -> U, k: nat)
    requires k < |xs|
    ensures Numbered(xs, first, ctx, f)[k] == f(xs[k], first + k, ctx)
  {
    if k > 0 {
      NumberedAt(xs[1..], first + 1, ctx, f, k - 1);
    }
  }

  /** Numbering two runs one after the other numbers their concatenation. */
  lemma {:induction false} NumberedAppend<T, C, U>(xs: seq<T>, ys: seq<T>, first: nat, ctx: C, f: (T, nat, C) -> U)
    ensures Numbered(xs + ys, first, ctx, f) == Numbered(xs, first, ctx, f) + Numbered(ys, first + |xs|, ctx, f)
  {
    if |xs| == 0 {
      assert xs + ys == ys;
    } else {
      assert (xs + ys)[0] == xs[0];
      assert (xs + ys)[1..] == xs[1..] + ys;
      NumberedAppend(xs[1..], ys, first + 1, ctx, f);
    }
  }

  lemma NumberedSnoc<T, C, U>(xs: seq<T>, x: T, first: nat, ctx: C, f: (T, nat, C) -> U)
    ensures Numbered(xs + [x], first, ctx, f) == Numbered(xs, first, ctx, f) + [f(x, first + |xs|, ctx)]
  {
    NumberedAppend(xs, [x], first, ctx, f);
    assert Numbered([x], first + |xs|, ctx, f) == [f(x, first + |xs|, ctx)];
  }

  /** One more entry of kind `kind` joins the entries of that kind and no other. */
  lemma OfKindSnoc(done: seq<Entry>, e: Entry)
    ensures OfKind(done + [e], e.kind) == OfKind(done, e.kind) + [e]
    ensures forall other :: other != e.kind ==> OfKind(done + [e], other) == OfKind(done, other)
  {
    OfKindAppend(done, [e], Video);
    OfKindAppend(done, [e], Audio);
    assert OfKind([e], e.kind) == [e];
  }

  /** The qualities of the video entries `vs`, numbered from `first`. */
  function QualitiesOf(vs: seq<Entry>, first: nat, mpdUrl: string): seq<Quality> {
    Numbered(vs, first, mpdUrl, QualityOf)
  }

  /** The tracks of the audio entries `as_`, numbered from `first`. */
  function AudiosOf(as_: seq<Entry>, first: nat, mpdUrl: string): seq<AudioTrack> {
    Numbered(as_, first, mpdUrl, AudioOf)
  }

  /** The final loop: with at least one audio track, every quality gets the first track's
      index and id. */
  function LinkAudio(qs: seq<Quality>, tracks: seq<AudioTrack>): (r: seq<Quality>)
    ensures |r| == |qs|
  {
    if |tracks| == 0 then qs
    else
      seq(|qs|, k requires 0 <= k < |qs| =>
        qs[k].(dashAudioIndex := Some(tracks[0].dashAudioIndex), dashAudioId := tracks[0].dashAudioId))
  }

  datatype Dash = Dash(qualities: seq<Quality>, audioTracks: seq<AudioTrack>)

  /** What `parseDashMpd(text, mpdUrl)` returns. */
  function ParseDashSpec(text: string, mpdUrl: string): Dash {
    var es := Entries(text);
    var tracks := AudiosOf(OfKind(es, Audio), 0, mpdUrl);
    Dash(LinkAudio(QualitiesOf(OfKind(es, Video), 0, mpdUrl), tracks), tracks)
  }

  /** Numbering two runs of video entries one after the other numbers their concatenation. */
  lemma QualitiesAppend(vs: seq<Entry>, ws: seq<Entry>, first: nat, mpdUrl: string)
    ensures QualitiesOf(vs + ws, first, mpdUrl) == QualitiesOf(vs, first, mpdUrl) + QualitiesOf(ws, first + |vs|, mpdUrl)
  {
    NumberedAppend(vs, ws, first, mpdUrl, QualityOf);
  }

  lemma AudiosAppend(as_: seq<Entry>, bs: seq<Entry>, first: nat, mpdUrl: string)
    ensures AudiosOf(as_ + bs, first, mpdUrl) == AudiosOf(as_, first, mpdUrl) + AudiosOf(bs, first + |as_|, mpdUrl)
  {
    NumberedAppend(as_, bs, first, mpdUrl, AudioOf);
  }

  /** Appending a quality with the next video index. */
  lemma PushQuality(vs: seq<Entry>, e: Entry, qualities: seq<Quality>, first: nat, mpdUrl: string)
    requires qualities == QualitiesOf(vs, first, mpdUrl)
    ensures qualities + [QualityOf(e, first + |qualities|, mpdUrl)] == QualitiesOf(vs + [e], first, mpdUrl)
  {
    NumberedSnoc(vs, e, first, mpdUrl, QualityOf);
  }

  /** Appending an audio track with the next audio index. */
  lemma PushTrack(as_: seq<Entry>, e: Entry, tracks: seq<AudioTrack>, first: nat, mpdUrl: string)
    requires tracks == AudiosOf(as_, first, mpdUrl)
    ensures tracks + [AudioOf(e, first + |tracks|, mpdUrl)] == AudiosOf(as_ + [e], first, mpdUrl)
  {
    NumberedSnoc(as_, e, first, mpdUrl, AudioOf);
  }

  /** The `k`-th of `n` numbered qualities carries video index `first + k` and no audio
      link yet. */
  lemma QualitiesOfIndexed(vs: seq<Entry>, first: nat, mpdUrl: string)
    ensures forall k :: 0 <= k < |vs| ==>
      QualitiesOf(vs, first, mpdUrl)[k] == QualityOf(vs[k], first + k, mpdUrl)
  {
    forall k | 0 <= k < |vs| ensures QualitiesOf(vs, first, mpdUrl)[k] == QualityOf(vs[k], first + k, mpdUrl) {
      NumberedAt(vs, first, mpdUrl, QualityOf, k);
    }
  }

  lemma AudiosOfIndexed(as_: seq<Entry>, first: nat, mpdUrl: string)
    ensures forall k :: 0 <= k < |as_| ==>
      AudiosOf(as_, first, mpdUrl)[k] == AudioOf(as_[k], first + k, mpdUrl)
  {
    forall k | 0 <= k < |as_| ensures AudiosOf(as_, first, mpdUrl)[k] == AudioOf(as_[k], first + k, mpdUrl) {
      NumberedAt(as_, first, mpdUrl, AudioOf, k);
    }
  }

  /** N video Representations give N qualities whose video indices are 0..N-1 in document
      order, each built from its Representation. */
  lemma ParseDashVideoIndices(text: string, mpdUrl: string)
    ensures var d := ParseDashSpec(text, mpdUrl);
            var vs := OfKind(Entries(text), Video);
      && |d.qualities| == |vs|
      && forall k :: 0 <= k < |d.qualities| ==>
           d.qualities[k].dashVideoIndex == k
           && d.qualities[k].(dashAudioIndex := None, dashAudioId := None) == QualityOf(vs[k], k, mpdUrl)
  {
    QualitiesOfIndexed(OfKind(Entries(text), Video), 0, mpdUrl);
  }

  /** M audio Representations give M tracks whose audio indices are 0..M-1 in document
      order, and only the first of them is the default. */
  lemma ParseDashAudioIndices(text: string, mpdUrl: string)
    ensures var d := ParseDashSpec(text, mpdUrl);
            var as_ := OfKind(Entries(text), Audio);
      && |d.audioTracks| == |as_|
      && forall k :: 0 <= k < |d.audioTracks| ==>
           d.audioTracks[k] == AudioOf(as_[k], k, mpdUrl)
           && d.audioTracks[k].dashAudioIndex == k
           && (d.audioTracks[k].isDefault <==> k == 0)
  {
    AudiosOfIndexed(OfKind(Entries(text), Audio), 0, mpdUrl);
  }

  /** With at least one audio track every quality is linked to the first one (audio index 0
      and its id); with none, no quality carries an audio index. */
  lemma ParseDashAudioLink(text: string, mpdUrl: string)
    ensures var d := ParseDashSpec(text, mpdUrl);
      && (|d.audioTracks| > 0 ==> forall k :: 0 <= k < |d.qualities| ==>
            d.qualities[k].dashAudioIndex == Some(0) && d.qualities[k].dashAudioId == d.audioTracks[0].dashAudioId)
      && (|d.audioTracks| == 0 ==> forall k :: 0 <= k < |d.qualities| ==> d.qualities[k].dashAudioIndex.None?)
  {
    var as_ := OfKind(Entries(text), Audio);
    AudiosOfIndexed(as_, 0, mpdUrl);
    QualitiesOfIndexed(OfKind(Entries(text), Video), 0, mpdUrl);
  }

  // ---------------------------------------------------------------- the loops

  /** One Representation of the inner loop: the counter of its kind goes up by one. */
  method ScanRep(e: Entry, mpdUrl: string, qualities: seq<Quality>, tracks: seq<AudioTrack>,
                 ghost done: seq<Entry>, videoIdx: nat, audioIdx: nat)
    returns (qualities': seq<Quality>, tracks': seq<AudioTrack>)
    requires qualities == QualitiesOf(OfKind(done, Video), videoIdx, mpdUrl)
    requires tracks == AudiosOf(OfKind(done, Audio), audioIdx, mpdUrl)
    ensures qualities' == QualitiesOf(OfKind(done + [e], Video), videoIdx, mpdUrl)
    ensures tracks' == AudiosOf(OfKind(done + [e], Audio), audioIdx, mpdUrl)
  {
    OfKindSnoc(done, e);
    if e.kind == Video {
      PushQuality(OfKind(done, Video), e, qualities, videoIdx, mpdUrl);
      qualities' := qualities + [QualityOf(e, videoIdx + |qualities|, mpdUrl)];
      tracks' := tracks;
    } else {
      PushTrack(OfKind(done, Audio), e, tracks, audioIdx, mpdUrl);
      qualities' := qualities;
      tracks' := tracks + [AudioOf(e, audioIdx + |tracks|, mpdUrl)];
    }
  }

  lemma RepEntriesStep(kind: Kind, setAttrs: map<string, string>, done: seq<Entry>, rest: string)
    requires NextRep(rest).Some?
    ensures done + RepEntries(kind, setAttrs, rest)
         == (done + [Entry(kind, FactsOf(setAttrs, XmlAttributes(NextRep(rest).value.attrs)))])
            + RepEntries(kind, setAttrs, NextRep(rest).value.rest)
  {
  }

  /** The inner `while ((r = repRe.exec(body)) !== null)` of one AdaptationSet, carrying the
      `videoIdx` and `audioIdx` counters. */
  method ScanSet(kind: Kind, setAttrs: map<string, string>, body: string, mpdUrl: string,
                 videoIdx: nat, audioIdx: nat)
    returns (qualities: seq<Quality>, tracks: seq<AudioTrack>)
    ensures qualities == QualitiesOf(OfKind(RepEntries(kind, setAttrs, body), Video), videoIdx, mpdUrl)
    ensures tracks == AudiosOf(OfKind(RepEntries(kind, setAttrs, body), Audio), audioIdx, mpdUrl)
  {
    qualities := [];
    tracks := [];
    var rest := body;
    ghost var done: seq<Entry> := [];
    while NextRep(rest).Some?
      invariant RepEntries(kind, setAttrs, body) == done + RepEntries(kind, setAttrs, rest)
      invariant qualities == QualitiesOf(OfKind(done, Video), videoIdx, mpdUrl)
      invariant tracks == AudiosOf(OfKind(done, Audio), audioIdx, mpdUrl)
      decreases |rest|
    {
      var m := NextRep(rest).value;
      var rep := ParseXmlAttributes(m.attrs);
      RepEntriesStep(kind, setAttrs, done, rest);
      var e := Entry(kind, FactsOf(setAttrs, rep));
      qualities, tracks := ScanRep(e, mpdUrl, qualities, tracks, done, videoIdx, audioIdx);
      done := done + [e];
      rest := m.rest;
    }
    assert done + [] == done;
  }

  /** One step of the outer loop: the set's attributes, its kind, and its inner loop. */
  method ScanOneSet(m: SetMatch, mpdUrl: string, videoIdx: nat, audioIdx: nat)
    returns (qualities: seq<Quality>, tracks: seq<AudioTrack>)
    ensures qualities == QualitiesOf(OfKind(SetEntries(m), Video), videoIdx, mpdUrl)
    ensures tracks == AudiosOf(OfKind(SetEntries(m), Audio), audioIdx, mpdUrl)
  {
    var setAttrs := ParseXmlAttributes(m.attrs);
    var kind := SetKind(setAttrs);
    if kind.Some? {
      qualities, tracks := ScanSet(kind.value, setAttrs, m.body, mpdUrl, videoIdx, audioIdx);
    } else {
      qualities, tracks := [], [];
    }
  }

  /** What one AdaptationSet adds to the numbered qualities and tracks. */
  lemma ScanStep(done: seq<Entry>, more: seq<Entry>, qualities: seq<Quality>, newQualities: seq<Quality>,
                 tracks: seq<AudioTrack>, newTracks: seq<AudioTrack>, mpdUrl: string)
    requires qualities == QualitiesOf(OfKind(done, Video), 0, mpdUrl)
    requires tracks == AudiosOf(OfKind(done, Audio), 0, mpdUrl)
    requires newQualities == QualitiesOf(OfKind(more, Video), |qualities|, mpdUrl)
    requires newTracks == AudiosOf(OfKind(more, Audio), |tracks|, mpdUrl)
    ensures qualities + newQualities == QualitiesOf(OfKind(done + more, Video), 0, mpdUrl)
    ensures tracks + newTracks == AudiosOf(OfKind(done + more, Audio), 0, mpdUrl)
  {
    OfKindAppend(done, more, Video);
    OfKindAppend(done, more, Audio);
    QualitiesAppend(OfKind(done, Video), OfKind(more, Video), 0, mpdUrl);
    AudiosAppend(OfKind(done, Audio), OfKind(more, Audio), 0, mpdUrl);
  }

  /** One AdaptationSet of the outer loop, appended to what the earlier sets gave. */
  method ScanNextSet(m: SetMatch, mpdUrl: string, qualities: seq<Quality>, tracks: seq<AudioTrack>,
                     ghost done: seq<Entry>)
    returns (qualities': seq<Quality>, tracks': seq<AudioTrack>)
    requires qualities == QualitiesOf(OfKind(done, Video), 0, mpdUrl)
    requires tracks == AudiosOf(OfKind(done, Audio), 0, mpdUrl)
    ensures qualities' == QualitiesOf(OfKind(done + SetEntries(m), Video), 0, mpdUrl)
    ensures tracks' == AudiosOf(OfKind(done + SetEntries(m), Audio), 0, mpdUrl)
  {
    var newQualities, newTracks := ScanOneSet(m, mpdUrl, |qualities|, |tracks|);
    ScanStep(done, SetEntries(m), qualities, newQualities, tracks, newTracks, mpdUrl);
    qualities', tracks' := qualities + newQualities, tracks + newTracks;
  }

  lemma EntriesStep(done: seq<Entry>, rest: string)
    requires NextSet(rest).Some?
    ensures done + Entries(rest) == (done + SetEntries(NextSet(rest).value)) + Entries(NextSet(rest).value.rest)
  {
  }

  /** The outer loop over the AdaptationSet matches of the document. */
  method ScanSets(text: string, mpdUrl: string) returns (qualities: seq<Quality>, tracks: seq<AudioTrack>)
    ensures qualities == QualitiesOf(OfKind(Entries(text), Video), 0, mpdUrl)
    ensures tracks == AudiosOf(OfKind(Entries(text), Audio), 0, mpdUrl)
  {
    qualities := [];
    tracks := [];
    var rest := text;
    ghost var done: seq<Entry> := [];
    while NextSet(rest).Some?
      invariant Entries(text) == done + Entries(rest)
      invariant qualities == QualitiesOf(OfKind(done, Video), 0, mpdUrl)
      invariant tracks == AudiosOf(OfKind(done, Audio), 0, mpdUrl)
      decreases |rest|
    {
      var m := NextSet(rest).value;
      EntriesStep(done, rest);
      qualities, tracks := ScanNextSet(m, mpdUrl, qualities, tracks, done);
      done := done + SetEntries(m);
      rest := m.rest;
    }
    assert done + [] == done;
  }

  /** The cross-linking loop that gives every quality the first audio track. */
  method LinkLoop(qualities: seq<Quality>, tracks: seq<AudioTrack>) returns (linked: seq<Quality>)
    requires |tracks| > 0
    ensures linked == LinkAudio(qualities, tracks)
  {
    var i := 0;
    linked := qualities;
    while i < |linked|
      invariant 0 <= i <= |linked| && |linked| == |qualities|
      invariant forall k :: 0 <= k < i ==>
        linked[k] == qualities[k].(dashAudioIndex := Some(tracks[0].dashAudioIndex), dashAudioId := tracks[0].dashAudioId)
      invariant forall k :: i <= k < |linked| ==> linked[k] == qualities[k]
    {
      linked := linked[i := linked[i].(dashAudioIndex := Some(tracks[0].dashAudioIndex), dashAudioId := tracks[0].dashAudioId)];
      i := i + 1;
    }
  }

  /** `parseDashMpd`: the scan, then the cross-linking loop. */
  method ParseDash(text: string, mpdUrl: string) returns (d: Dash)
    ensures d == ParseDashSpec(text, mpdUrl)
  {
    var qualities, tracks := ScanSets(text, mpdUrl);
    if |tracks| > 0 {
      qualities := LinkLoop(qualities, tracks);
    }
    d := Dash(qualities, tracks);
  }
}
