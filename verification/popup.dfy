/** The popup's choices over the server's catalog: which quality and which language the
    user's preferences pick, when a quality list is too poor to show, which audio URL a
    download uses, and the file name it is saved under (popup.js). */
module Popup {
  import opened Strings
  import opened Numbers
  import opened Optional
  import QualityCatalog
  import HlsMaster

  /** A quality as the popup receives it from `/qualities`. */
  datatype Offer = Offer(caption: string, url: string, audioUrl: Option<string>, audioGroupId: Option<string>)

  /** An audio or subtitle track as the popup receives it; a missing field is "". */
  datatype TrackInfo = TrackInfo(language: string, name: string, url: string)

  // ---------------------------------------------------------------------------------------
  // The height in a label: the first match of /(\d{3,4})p/ (or /(\d{3,4})p/i)

  predicate IsP(c: char, caseless: bool) {
    c == 'p' || (caseless && c == 'P')
  }

  /** `n` digits start at `i`. */
  predicate DigitRun(s: string, i: int, n: nat) {
    0 <= i && i + n <= |s| && forall k :: i <= k < i + n ==> IsDigit(s[k])
  }

  /** Four digits and a `p` at `i`: the greedy alternative the regular expression tries first. */
  predicate FourThenP(s: string, i: int, caseless: bool) {
    DigitRun(s, i, 4) && i + 4 < |s| && IsP(s[i + 4], caseless)
  }

  predicate ThreeThenP(s: string, i: int, caseless: bool) {
    DigitRun(s, i, 3) && i + 3 < |s| && IsP(s[i + 3], caseless)
  }

  /** The pattern matches at `i`. */
  predicate HeightAt(s: string, i: int, caseless: bool) {
    FourThenP(s, i, caseless) || ThreeThenP(s, i, caseless)
  }

  lemma DigitRunSlice(s: string, i: int, n: nat)
    requires DigitRun(s, i, n)
    ensures AllDigits(s[i..i + n])
  {
    var t := s[i..i + n];
    assert forall k :: 0 <= k < |t| ==> t[k] == s[i + k];
  }

  /** The captured number of a match at `i`. */
  function HeightValueAt(s: string, i: int, caseless: bool): (h: nat)
    requires HeightAt(s, i, caseless)
  {
    if FourThenP(s, i, caseless) then
      DigitRunSlice(s, i, 4);
      DigitsValue(s[i..i + 4])
    else
      DigitRunSlice(s, i, 3);
      DigitsValue(s[i..i + 3])
  }

  /** The leftmost match at or after `from`, or -1. */
  function FirstHeightIndex(s: string, from: nat, caseless: bool): (r: int)
    ensures r == -1 || (from <= r && HeightAt(s, r, caseless))
    ensures forall j :: from <= j < |s| && (r == -1 || j < r) ==> !HeightAt(s, j, caseless)
    decreases |s| - from
  {
    if from >= |s| then -1
    else if HeightAt(s, from, caseless) then from
    else FirstHeightIndex(s, from + 1, caseless)
  }

  /** The height a label names, if any. */
  function LabelHeight(s: string, caseless: bool): Option<nat> {
    var i := FirstHeightIndex(s, 0, caseless);
    if i < 0 then None else Some(HeightValueAt(s, i, caseless))
  }

  /** `getQualityHeight`: the case-insensitive match, 0 without one. */
  function QualityHeight(value: string): nat {
    LabelHeight(value, true).GetOr(0)
  }

  /** A label that starts with a printed height of three or four digits and a `p`, as every
      bucketed caption of the server does, names that height. */
  lemma CaptionHeight(t: nat, rest: string, caseless: bool)
    requires 100 <= t <= 9999
    ensures LabelHeight(NatToString(t) + "p" + rest, caseless) == Some(t)
  {
    var d := NatToString(t);
    var s := d + "p" + rest;
    DigitsValueOfNatToString(t);
    NatToStringWidth(t);
    assert forall k :: 0 <= k < |d| ==> s[k] == d[k];
    assert s[|d|] == 'p';
    assert HeightAt(s, 0, caseless);
    assert FirstHeightIndex(s, 0, caseless) == 0;
    if |d| == 4 {
      assert FourThenP(s, 0, caseless);
      assert s[0..4] == d;
    } else {
      assert !FourThenP(s, 0, caseless);
      assert s[0..3] == d;
    }
  }

  lemma NatToStringWidth(t: nat)
    requires 100 <= t <= 9999
    ensures |NatToString(t)| == if t < 1000 then 3 else 4
  {
    assert NatToString(t) == NatToString(t / 10) + [DigitChar(t % 10)];
    assert NatToString(t / 10) == NatToString(t / 100) + [DigitChar(t / 10 % 10)];
    if t >= 1000 {
      assert NatToString(t / 100) == NatToString(t / 1000) + [DigitChar(t / 100 % 10)];
    }
  }

  /** In particular the captions `StreamCaption` gives a bucketed variant. */
  lemma ServerCaptionHeight(v: HlsMaster.Variant, t: nat)
    requires t in QualityCatalog.Thresholds
    ensures LabelHeight(NatToString(t) + "p" + " (" + IntToString(RoundDiv(v.bandwidth, 1000)) + " kbps)", false) == Some(t)
  {
    CaptionHeight(t, " (" + IntToString(RoundDiv(v.bandwidth, 1000)) + " kbps)", false);
    assert NatToString(t) + "p" + " (" + IntToString(RoundDiv(v.bandwidth, 1000)) + " kbps)"
        == NatToString(t) + "p" + (" (" + IntToString(RoundDiv(v.bandwidth, 1000)) + " kbps)");
  }

  // ---------------------------------------------------------------------------------------
  // findBestQualityIndex

  function Distance(h: int, target: int): nat {
    if h >= target then h - target else target - h
  }

  predicate HasHeight(q: Offer) {
    LabelHeight(q.caption, false).Some?
  }

  function DistanceOf(q: Offer, target: int): nat
    requires HasHeight(q)
  {
    Distance(LabelHeight(q.caption, false).value, target)
  }

  /** `r` is the first index whose height is nearest to `target`, or 0 when no label has one. */
  predicate IsNearest(qs: seq<Offer>, target: int, r: int) {
    if forall j :: 0 <= j < |qs| ==> !HasHeight(qs[j]) then r == 0
    else
      0 <= r < |qs| && HasHeight(qs[r])
      && (forall j :: 0 <= j < |qs| && HasHeight(qs[j]) ==> DistanceOf(qs[r], target) <= DistanceOf(qs[j], target))
      && (forall j :: 0 <= j < r && HasHeight(qs[j]) ==> DistanceOf(qs[r], target) < DistanceOf(qs[j], target))
  }

  /** `findBestQualityIndex`: the list is sorted best first, so "highest" (or no preference)
      is 0, "lowest" the last index, and a number the nearest labelled height. */
  method FindBestQualityIndex(qualities: seq<Offer>, pref: string) returns (r: int)
    ensures pref == "" || pref == "highest" ==> r == 0
    ensures pref == "lowest" ==> r == |qualities| - 1
    ensures pref != "" && pref != "highest" && pref != "lowest" && ParseIntAuto(pref).None? ==> r == 0
    ensures pref != "" && pref != "highest" && pref != "lowest" && ParseIntAuto(pref).Some?
            ==> IsNearest(qualities, ParseIntAuto(pref).value, r)
  {
    if pref == "" || pref == "highest" {
      return 0;
    }
    if pref == "lowest" {
      return |qualities| - 1;
    }
    var target := ParseIntAuto(pref);
    if target.None? {
      return 0;
    }
    var t := target.value;
    r := 0;
    var found := false;
    var bestDiff: nat := 0;
    for i := 0 to |qualities|
      invariant !found <==> forall j :: 0 <= j < i ==> !HasHeight(qualities[j])
      invariant !found ==> r == 0
      invariant found ==> 0 <= r < i && HasHeight(qualities[r]) && bestDiff == DistanceOf(qualities[r], t)
      invariant found ==> forall j :: 0 <= j < i && HasHeight(qualities[j]) ==> bestDiff <= DistanceOf(qualities[j], t)
      invariant found ==> forall j :: 0 <= j < r && HasHeight(qualities[j]) ==> bestDiff < DistanceOf(qualities[j], t)
    {
      var m := LabelHeight(qualities[i].caption, false);
      if m.Some? {
        var diff := Distance(m.value, t);
        if !found || diff < bestDiff {
          bestDiff := diff;
          r := i;
          found := true;
        }
      }
    }
  }

  // ---------------------------------------------------------------------------------------
  // findBestLangIndex

  /** The lower-cased language equals or starts with the preference, or the name contains it. */
  predicate LangMatches(t: TrackInfo, lc: string) {
    var tl := Lower(t.language);
    var tn := Lower(t.name);
    tl == lc || StartsWith(tl, lc) || Contains(tn, lc)
  }

  /** `findBestLangIndex`: the first matching track, -1 without a preference or a match. */
  method FindBestLangIndex(tracks: seq<TrackInfo>, prefLang: string) returns (r: int)
    ensures prefLang == "" ==> r == -1
    ensures prefLang != "" ==> (r == -1 <==> forall i :: 0 <= i < |tracks| ==> !LangMatches(tracks[i], Lower(prefLang)))
    ensures r != -1 ==> 0 <= r < |tracks| && LangMatches(tracks[r], Lower(prefLang))
    ensures r != -1 ==> forall j :: 0 <= j < r ==> !LangMatches(tracks[j], Lower(prefLang))
  {
    if prefLang == "" {
      return -1;
    }
    var lc := Lower(prefLang);
    for i := 0 to |tracks|
      invariant forall j :: 0 <= j < i ==> !LangMatches(tracks[j], lc)
    {
      var tl := Lower(tracks[i].language);
      var tn := Lower(tracks[i].name);
      if tl == lc || StartsWith(tl, lc) || Contains(tn, lc) {
        return i;
      }
    }
    return -1;
  }

  // ---------------------------------------------------------------------------------------
  // isWeakQualityList

  /** A label that tells qualities apart: non-empty and neither "default" nor "unknown". */
  predicate Useful(caption: string) {
    var l := Lower(caption);
    l != "" && !Contains(l, "default") && !Contains(l, "unknown")
  }

  function UsefulCount(qs: seq<Offer>): (n: nat)
    ensures n <= |qs|
  {
    if |qs| == 0 then 0 else UsefulCount(qs[..|qs| - 1]) + (if Useful(qs[|qs| - 1].caption) then 1 else 0)
  }

  /** `isWeakQualityList`: at most one entry, or at most one useful label. */
  predicate IsWeakQualityList(qs: seq<Offer>) {
    |qs| <= 1 || UsefulCount(qs) <= 1
  }

  /** No useful label at all exactly when the count is zero. */
  lemma {:induction false} UsefulCountZero(qs: seq<Offer>)
    ensures UsefulCount(qs) == 0 <==> forall i :: 0 <= i < |qs| ==> !Useful(qs[i].caption)
  {
    if |qs| > 0 {
      var before := qs[..|qs| - 1];
      UsefulCountZero(before);
      assert forall i :: 0 <= i < |before| ==> before[i] == qs[i];
    }
  }

  /** Two or more useful labels exactly when two different entries carry one. */
  lemma {:induction false} UsefulCountTwo(qs: seq<Offer>)
    ensures UsefulCount(qs) >= 2 <==>
            exists i, j :: 0 <= i < j < |qs| && Useful(qs[i].caption) && Useful(qs[j].caption)
  {
    if |qs| > 0 {
      var before := qs[..|qs| - 1];
      var last := |qs| - 1;
      UsefulCountTwo(before);
      UsefulCountZero(before);
      assert forall i :: 0 <= i < |before| ==> before[i] == qs[i];
      if UsefulCount(qs) >= 2 {
        if UsefulCount(before) >= 2 {
          var i, j :| 0 <= i < j < |before| && Useful(before[i].caption) && Useful(before[j].caption);
          assert Useful(qs[i].caption) && Useful(qs[j].caption);
        } else {
          assert Useful(qs[last].caption) && UsefulCount(before) == 1;
          var i :| 0 <= i < |before| && Useful(before[i].caption);
          assert Useful(qs[i].caption) && i < last;
        }
      }
      if exists i, j :: 0 <= i < j < |qs| && Useful(qs[i].caption) && Useful(qs[j].caption) {
        var i, j :| 0 <= i < j < |qs| && Useful(qs[i].caption) && Useful(qs[j].caption);
        if j < last {
          assert Useful(before[i].caption) && Useful(before[j].caption);
        } else {
          assert Useful(before[i].caption);
        }
      }
    }
  }

  /** A list is strong (worth showing) exactly when two different entries have useful labels. */
  lemma WeakIff(qs: seq<Offer>)
    ensures !IsWeakQualityList(qs) <==>
            exists i, j :: 0 <= i < j < |qs| && Useful(qs[i].caption) && Useful(qs[j].caption)
  {
    UsefulCountTwo(qs);
  }

  // ---------------------------------------------------------------------------------------
  // The audio URL of a download

  /** The language, or the name when the language is empty: the key of the server's group map. */
  function LangKey(t: TrackInfo): string {
    if t.language != "" then t.language else t.name
  }

  /** The audio URL after the audio selector is read: `current` is the one the chosen quality
      carried; `qualities` is absent when the quality selector has none, `groupMap` when the
      server sent none; an index is `None` when `parseInt` gives `NaN`. */
  function ResolveAudioUrl(current: Option<string>, qualities: Option<seq<Offer>>, vidIdx: Option<int>,
                           tracks: seq<TrackInfo>, aidx: Option<int>,
                           groupMap: Option<map<string, map<string, string>>>): Option<string>
  {
    if aidx.None? || !(0 <= aidx.value < |tracks|) then current
    else
      var t := tracks[aidx.value];
      if groupMap.Some? && qualities.Some? then
        var qs := qualities.value;
        var gm := groupMap.value;
        var gid := if vidIdx.Some? && 0 <= vidIdx.value < |qs| then qs[vidIdx.value].audioGroupId else None;
        var key := LangKey(t);
        if gid.Some? && gid.value != "" && gid.value in gm && key in gm[gid.value] && gm[gid.value][key] != ""
        then Some(gm[gid.value][key])
        else Some(t.url)
      else Some(t.url)
  }

  /** The group table the chosen variant points at, when the variant exists, names a non-empty
      group id and the map has a table for it. */
  function ChosenTable(qs: seq<Offer>, vidIdx: Option<int>, gm: map<string, map<string, string>>)
    : Option<map<string, string>>
  {
    if vidIdx.Some? && 0 <= vidIdx.value < |qs| && qs[vidIdx.value].audioGroupId.Some?
       && qs[vidIdx.value].audioGroupId.value != "" && qs[vidIdx.value].audioGroupId.value in gm
    then Some(gm[qs[vidIdx.value].audioGroupId.value])
    else None
  }

  /** The group's URL is used exactly when the chosen variant names a group whose table has a
      non-empty URL under the track's key; otherwise the track's own URL; and without a
      chosen track nothing changes. */
  lemma ResolveAudioUrlCases(current: Option<string>, qualities: Option<seq<Offer>>, vidIdx: Option<int>,
                             tracks: seq<TrackInfo>, aidx: Option<int>,
                             groupMap: Option<map<string, map<string, string>>>)
    ensures var r := ResolveAudioUrl(current, qualities, vidIdx, tracks, aidx, groupMap);
            (aidx.None? || !(0 <= aidx.value < |tracks|)) ==> r == current
    ensures var r := ResolveAudioUrl(current, qualities, vidIdx, tracks, aidx, groupMap);
            aidx.Some? && 0 <= aidx.value < |tracks| && (groupMap.None? || qualities.None?) ==>
              r == Some(tracks[aidx.value].url)
    ensures var r := ResolveAudioUrl(current, qualities, vidIdx, tracks, aidx, groupMap);
            aidx.Some? && 0 <= aidx.value < |tracks| && groupMap.Some? && qualities.Some? ==>
              var key := LangKey(tracks[aidx.value]);
              var table := ChosenTable(qualities.value, vidIdx, groupMap.value);
              if table.Some? && key in table.value && table.value[key] != ""
              then r == Some(table.value[key])
              else r == Some(tracks[aidx.value].url)
  {
  }

  /** With the server's own group map, the chosen track's URL is taken from the group of the
      chosen variant: from its last rendition with the track's key. */
  lemma {:induction false} ResolveFromServerGroups(current: Option<string>, qs: seq<Offer>, v: nat,
                                                  tracks: seq<TrackInfo>, a: nat,
                                                  gs: seq<HlsMaster.Group>, g: nat, k: nat)
    requires v < |qs| && a < |tracks| && g < |gs| && k < |gs[g].tracks|
    requires qs[v].audioGroupId == Some(gs[g].id) && gs[g].id != ""
    requires forall j :: g < j < |gs| ==> gs[j].id != gs[g].id
    requires LangKey(tracks[a]) == QualityCatalog.Key(gs[g].tracks[k])
    requires forall j :: k < j < |gs[g].tracks| ==> QualityCatalog.Key(gs[g].tracks[j]) != QualityCatalog.Key(gs[g].tracks[k])
    requires gs[g].tracks[k].url != ""
    ensures ResolveAudioUrl(current, Some(qs), Some(v), tracks, Some(a), Some(QualityCatalog.GroupMap(gs)))
            == Some(gs[g].tracks[k].url)
  {
    QualityCatalog.GroupMapLastWins(gs, g);
    QualityCatalog.TrackMapLastWins(gs[g].tracks, k);
  }

  // ---------------------------------------------------------------------------------------
  // sanitizeFilename

  /** The characters of `[a-zA-Z0-9._\-()\[\]]`. */
  predicate Allowed(c: char) {
    IsAsciiLetter(c) || IsDigit(c) || c == '.' || c == '_' || c == '-'
    || c == '(' || c == ')' || c == '[' || c == ']'
  }

  predicate AllAllowed(s: string) {
    forall i :: 0 <= i < |s| ==> Allowed(s[i])
  }

  predicate NoDoubleUnderscore(s: string) {
    forall i :: 0 <= i < |s| - 1 ==> !(s[i] == '_' && s[i + 1] == '_')
  }

  /** `/['"` ]/g` to `_`. */
  function QuotesToUnderscore(s: string): (r: string)
    ensures |r| == |s|
    ensures forall i :: 0 <= i < |s| ==> r[i] == if s[i] in "'\"` " then '_' else s[i]
  {
    seq(|s|, i requires 0 <= i < |s| => if s[i] in "'\"` " then '_' else s[i])
  }

  /** `/[<>:"/\\|?*]/g` removed. */
  function DropForbidden(s: string): (r: string)
    ensures forall c :: c in r <==> c in s && c !in "<>:\"/\\|?*"
  {
    if |s| == 0 then ""
    else (if s[0] in "<>:\"/\\|?*" then "" else [s[0]]) + DropForbidden(s[1..])
  }

  /** Every other character outside the allowed class to `_`. */
  function DisallowedToUnderscore(s: string): (r: string)
    ensures |r| == |s| && AllAllowed(r)
    ensures forall i :: 0 <= i < |s| ==> r[i] == if Allowed(s[i]) then s[i] else '_'
  {
    seq(|s|, i requires 0 <= i < |s| => if Allowed(s[i]) then s[i] else '_')
  }

  /** `/_+/g` to `_`: a run of underscores keeps one. */
  function CollapseUnderscores(s: string): (r: string)
    ensures |r| <= |s| && (r == "" <==> s == "")
    ensures s != "" ==> r[0] == s[0] && r[|r| - 1] == s[|s| - 1]
    ensures forall c :: c in r ==> c in s
    ensures NoDoubleUnderscore(r)
  {
    if |s| == 0 then ""
    else if |s| > 1 && s[0] == '_' && s[1] == '_' then CollapseUnderscores(s[1..])
    else [s[0]] + CollapseUnderscores(s[1..])
  }

  /** `/^_|_$/g` removed: one underscore at the start and one at the end. */
  function StripEdgeUnderscores(s: string): (r: string)
    ensures var a := if |s| > 0 && s[0] == '_' then 1 else 0;
            a + |r| <= |s| && r == s[a..a + |r|]
  {
    var t := if |s| > 0 && s[0] == '_' then s[1..] else s;
    if |t| > 0 && t[|t| - 1] == '_' then t[..|t| - 1] else t
  }

  /** What the chain of replacements leaves, before the cut to 100 characters. */
  function Cleaned(filename: string): string {
    StripEdgeUnderscores(CollapseUnderscores(DisallowedToUnderscore(DropForbidden(QuotesToUnderscore(filename)))))
  }

  function FallbackFilename(now: nat): string {
    "video_" + NatToString(now)
  }

  /** `sanitizeFilename`; `now` stands for `Date.now()`. */
  function SanitizeFilename(filename: string, now: nat): string {
    var c := Cleaned(filename);
    var r := c[..if |c| < 100 then |c| else 100];
    if r == "" then FallbackFilename(now) else r
  }

  /** A name fit for every file system: allowed characters only, no doubled underscore, no
      leading underscore, not empty. */
  predicate SafeFilename(s: string) {
    s != "" && AllAllowed(s) && NoDoubleUnderscore(s) && s[0] != '_'
  }

  /** Cutting one underscore off each end of a collapsed name leaves no underscore at
      either end. */
  lemma StripEdgeSafe(u: string)
    requires AllAllowed(u) && NoDoubleUnderscore(u)
    ensures var c := StripEdgeUnderscores(u);
            AllAllowed(c) && NoDoubleUnderscore(c) && (c != "" ==> c[0] != '_' && c[|c| - 1] != '_')
  {
    var c := StripEdgeUnderscores(u);
    var a := if |u| > 0 && u[0] == '_' then 1 else 0;
    assert forall i :: 0 <= i < |c| ==> c[i] == u[a + i];
    if c != "" && a == 1 {
      assert u[1] != '_';
    }
  }

  lemma CleanedSafe(filename: string)
    ensures var c := Cleaned(filename);
            AllAllowed(c) && NoDoubleUnderscore(c) && (c != "" ==> c[0] != '_' && c[|c| - 1] != '_')
  {
    var d := DisallowedToUnderscore(DropForbidden(QuotesToUnderscore(filename)));
    var u := CollapseUnderscores(d);
    assert forall i :: 0 <= i < |u| ==> u[i] in d;
    StripEdgeSafe(u);
  }

  lemma {:induction false} FallbackSafe(now: nat)
    ensures SafeFilename(FallbackFilename(now))
  {
    var d := NatToString(now);
    var r := FallbackFilename(now);
    assert forall i :: 6 <= i < |r| ==> r[i] == d[i - 6];
  }

  /** Every result is safe, and at most 100 characters unless it is the fallback name. */
  lemma SanitizeFilenameSafe(filename: string, now: nat)
    ensures var r := SanitizeFilename(filename, now);
            SafeFilename(r) && (|r| <= 100 || r == FallbackFilename(now))
  {
    CleanedSafe(filename);
    FallbackSafe(now);
  }

  /** A name that is already clean comes back unchanged. */
  predicate CleanName(s: string) {
    SafeFilename(s) && |s| <= 100 && s[|s| - 1] != '_'
  }

  lemma {:induction false} CollapseOfSingle(s: string)
    requires NoDoubleUnderscore(s)
    ensures CollapseUnderscores(s) == s
  {
    if |s| > 0 {
      CollapseOfSingle(s[1..]);
    }
  }

  lemma {:induction false} DropForbiddenOfAllowed(s: string)
    requires AllAllowed(s)
    ensures DropForbidden(s) == s
  {
    if |s| > 0 {
      DropForbiddenOfAllowed(s[1..]);
    }
  }

  lemma SanitizeFilenameFixed(s: string, now: nat)
    requires CleanName(s)
    ensures SanitizeFilename(s, now) == s
  {
    assert QuotesToUnderscore(s) == s;
    DropForbiddenOfAllowed(s);
    assert DisallowedToUnderscore(s) == s;
    CollapseOfSingle(s);
    assert StripEdgeUnderscores(s) == s;
  }

  // ---------------------------------------------------------------------------------------
  // formatDurationPopup

  /** `formatDurationPopup`: "" for no positive duration, else the clock text of the floor. */
  function FormatDurationPopup(seconds: real): (r: string)
    ensures r == "" <==> seconds <= 0.0
  {
    if seconds <= 0.0 then "" else ClockText(seconds.Floor)
  }
}
