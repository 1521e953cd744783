/** The content script's duration helpers (content.js): `formatDuration`, the ISO 8601
    reader `parseISO8601Duration`, and the plain `h:mm:ss` / `m:ss` reader of `getMetaDuration`.
    Both readers search the text the way a JavaScript regular expression does: the leftmost
    match, the first alternative first. */
module PageDuration {
  import opened Strings
  import opened Numbers
  import opened Optional

  /** `formatDuration`: "N/A" for 0, otherwise the clock text of the floored seconds. */
  function FormatDuration(seconds: real): (r: string)
    ensures r == "N/A" <==> seconds == 0.0
    ensures seconds != 0.0 ==> r == ClockText(seconds.Floor)
  {
    if seconds == 0.0 then "N/A" else ClockText(seconds.Floor)
  }

  /** The `{ seconds, formatted }` record the readers return. */
  datatype Duration = Duration(seconds: nat, formatted: string)

  function DurationOf(total: nat): Duration {
    Duration(total, FormatDuration(total as real))
  }

  // ---------------------------------------------------------------------------------------
  // `/PT(?:(\d+)H)?(?:(\d+)M)?(?:(\d+)S)?/i`

  /** An optional `(\d+)u` group at the front of `s` (already lower-cased): the digits it
      captured ("" when it is skipped) and what follows. */
  function UnitGroup(s: string, u: char): (r: (string, string))
    ensures AllDigits(r.0)
    ensures r.0 == "" ==> r.1 == s
    ensures r.0 != "" ==> s == r.0 + [u] + r.1
  {
    var d := DigitPrefix(s);
    if |d| > 0 && |d| < |s| && s[|d|] == u then
      assert s == d + [u] + s[|d| + 1..] by {
        assert s[..|d|] == d;
      }
      (d, s[|d| + 1..])
    else ("", s)
  }

  /** A matched digit group read as a number, 0 when the group is absent. */
  function GroupValue(d: string): nat
    requires AllDigits(d)
  {
    if d == "" then 0 else DigitsValue(d)
  }

  /** The total of the optional hour, minute and second groups after `pt`. */
  function UnitsTotal(body: string): nat {
    var hours := UnitGroup(body, 'h');
    var minutes := UnitGroup(hours.1, 'm');
    var seconds := UnitGroup(minutes.1, 's');
    GroupValue(hours.0) * 3600 + GroupValue(minutes.0) * 60 + GroupValue(seconds.0)
  }

  /** The total the ISO reader computes, when the text holds `PT` in any case. */
  function IsoTotal(str: string): Option<nat> {
    var low := Lower(str);
    var i := IndexOf(low, "pt", 0);
    if i < 0 then None else Some(UnitsTotal(low[i + 2..]))
  }

  /** `parseISO8601Duration`: nothing for empty text, text without `PT`, or a zero total. */
  function ParseIso8601Duration(str: string): (r: Option<Duration>)
    ensures r.Some? ==> r.value.seconds > 0 && r.value.formatted == ClockText(r.value.seconds)
    ensures r.Some? <==> IsoTotal(str).Some? && IsoTotal(str).value > 0 && str != ""
  {
    if str == "" then None
    else match IsoTotal(str)
      case None => None
      case Some(total) => if total == 0 then None else Some(DurationOf(total))
  }

  lemma {:induction false} DigitPrefixStops(d: string, c: char, rest: string)
    requires AllDigits(d) && !IsDigit(c)
    ensures DigitPrefix(d + [c] + rest) == d
  {
    if |d| > 0 {
      DigitPrefixStops(d[1..], c, rest);
      assert (d + [c] + rest)[1..] == d[1..] + [c] + rest;
    } else {
      assert (d + [c] + rest)[0] == c;
    }
  }

  lemma UnitGroupOf(n: nat, u: char, rest: string)
    requires !IsDigit(u)
    ensures UnitGroup(NatToString(n) + ([u] + rest), u) == (NatToString(n), rest)
  {
    var d := NatToString(n);
    var s := d + ([u] + rest);
    assert s == d + [u] + rest;
    DigitPrefixStops(d, u, rest);
    assert s[|d|] == u;
    assert s[|d| + 1..] == rest;
  }

  lemma LowerOfDigits(d: string)
    requires AllDigits(d)
    ensures Lower(d) == d
  {
  }

  lemma LowerAppend(a: string, b: string)
    ensures Lower(a + b) == Lower(a) + Lower(b)
  {
  }

  /** The lower-cased form of `PT<h>H<m>M<s>S`. */
  lemma LowerIsoText(hs: string, ms: string, ss: string)
    requires AllDigits(hs) && AllDigits(ms) && AllDigits(ss)
    ensures Lower("PT" + hs + "H" + ms + "M" + ss + "S") == "pt" + (hs + ("h" + (ms + ("m" + (ss + "s")))))
  {
    assert "pt" + hs + "h" + ms + "m" + ss + "s" == "pt" + (hs + ("h" + (ms + ("m" + (ss + "s")))));
    LowerOfDigits(hs);
    LowerOfDigits(ms);
    LowerOfDigits(ss);
    assert Lower("PT") == "pt" && Lower("H") == "h" && Lower("M") == "m" && Lower("S") == "s";
    LowerAppend("PT", hs);
    LowerAppend("PT" + hs, "H");
    LowerAppend("PT" + hs + "H", ms);
    LowerAppend("PT" + hs + "H" + ms, "M");
    LowerAppend("PT" + hs + "H" + ms + "M", ss);
    LowerAppend("PT" + hs + "H" + ms + "M" + ss, "S");
  }

  /** Lower-cased text starting with `pt` is read from index 2 on. */
  lemma IsoTotalAtFront(str: string, body: string)
    requires Lower(str) == "pt" + body
    ensures IsoTotal(str) == Some(UnitsTotal(body))
  {
    var low := Lower(str);
    assert low[..2] == "pt";
    assert OccursAt(low, "pt", 0);
    assert low[2..] == body;
  }

  lemma UnitsTotalOf(body: string, hs: string, t1: string, ms: string, t2: string, ss: string, t3: string)
    requires AllDigits(hs) && AllDigits(ms) && AllDigits(ss)
    requires UnitGroup(body, 'h') == (hs, t1) && UnitGroup(t1, 'm') == (ms, t2) && UnitGroup(t2, 's') == (ss, t3)
    ensures UnitsTotal(body) == GroupValue(hs) * 3600 + GroupValue(ms) * 60 + GroupValue(ss)
  {
  }

  lemma GroupValueOf(n: nat)
    ensures GroupValue(NatToString(n)) == n
  {
    DigitsValueOfNatToString(n);
  }

  /** The units of `<h>h<m>m<s>s` are read as `h`, `m` and `s`. */
  lemma UnitsOf(h: nat, m: nat, s: nat)
    ensures UnitsTotal(NatToString(h) + (['h'] + (NatToString(m) + (['m'] + (NatToString(s) + ['s']))))) == h * 3600 + m * 60 + s
  {
    var hs, ms, ss := NatToString(h), NatToString(m), NatToString(s);
    var t2 := ss + ['s'];
    var t1 := ms + (['m'] + t2);
    UnitGroupOf(h, 'h', t1);
    UnitGroupOf(m, 'm', t2);
    UnitGroupOf(s, 's', "");
    assert ss + (['s'] + "") == t2;
    UnitsTotalOf(hs + (['h'] + t1), hs, t1, ms, t2, ss, "");
    GroupValueOf(h);
    GroupValueOf(m);
    GroupValueOf(s);
  }

  /** Reading `PT<h>H<m>M<s>S` back gives `3600·h + 60·m + s`. */
  lemma IsoRoundTrip(h: nat, m: nat, s: nat)
    requires h * 3600 + m * 60 + s > 0
    ensures var text := "PT" + NatToString(h) + "H" + NatToString(m) + "M" + NatToString(s) + "S";
            ParseIso8601Duration(text) == Some(DurationOf(h * 3600 + m * 60 + s))
  {
    var hs, ms, ss := NatToString(h), NatToString(m), NatToString(s);
    var text := "PT" + hs + "H" + ms + "M" + ss + "S";
    var body := hs + ("h" + (ms + ("m" + (ss + "s"))));
    LowerIsoText(hs, ms, ss);
    IsoTotalAtFront(text, body);
    UnitsOf(h, m, s);
    assert IsoTotal(text) == Some(h * 3600 + m * 60 + s);
    assert text != "";
  }

  lemma NoPtAt(low: string, j: int)
    requires 0 <= j && (j + 1 < |low| ==> !(low[j] == 'p' && low[j + 1] == 't'))
    ensures !OccursAt(low, "pt", j)
  {
    if j + 2 <= |low| {
      assert low[j..j + 2][0] == low[j] && low[j..j + 2][1] == low[j + 1];
    }
  }

  /** Text without `PT`, in any case, is not a duration. */
  lemma IsoNeedsPt(str: string)
    requires forall i :: 0 <= i < |str| - 1 ==> !(LowerChar(str[i]) == 'p' && LowerChar(str[i + 1]) == 't')
    ensures ParseIso8601Duration(str).None?
  {
    var low := Lower(str);
    var r := IndexOf(low, "pt", 0);
    if r >= 0 {
      NoPtAt(low, r);
    }
    assert r == -1;
  }

  // ---------------------------------------------------------------------------------------
  // `/(\d{1,2}):(\d{2})(?::(\d{2}))?/`

  /** The groups of one match: two or three numbers. */
  datatype ClockGroups = ClockGroups(first: nat, second: nat, third: Option<nat>)

  predicate TwoDigitsAt(s: string, i: int) {
    0 <= i && i + 2 <= |s| && IsDigit(s[i]) && IsDigit(s[i + 1])
  }

  /** The value of two digits. */
  function Pair(a: char, b: char): nat
    requires IsDigit(a) && IsDigit(b)
  {
    DigitValue(a) * 10 + DigitValue(b)
  }

  /** A match at `i` whose first group is `w` digits wide. */
  function MatchWidth(s: string, i: nat, w: nat): Option<ClockGroups>
    requires w == 1 || w == 2
  {
    if i + w + 3 <= |s| && IsDigit(s[i]) && (w == 1 || IsDigit(s[i + 1]))
       && s[i + w] == ':' && TwoDigitsAt(s, i + w + 1) then
      var a := if w == 1 then DigitValue(s[i]) else Pair(s[i], s[i + 1]);
      var b := Pair(s[i + w + 1], s[i + w + 2]);
      var j := i + w + 3;
      if j < |s| && s[j] == ':' && TwoDigitsAt(s, j + 1) then Some(ClockGroups(a, b, Some(Pair(s[j + 1], s[j + 2]))))
      else Some(ClockGroups(a, b, None))
    else None
  }

  /** A match at `i`: the greedy `\d{1,2}` tries two digits before one. */
  function MatchAt(s: string, i: nat): Option<ClockGroups> {
    var two := MatchWidth(s, i, 2);
    if two.Some? then two else MatchWidth(s, i, 1)
  }

  /** The leftmost match from `i` on. */
  function FirstMatch(s: string, i: nat): (r: Option<ClockGroups>)
    ensures r.None? ==> forall k :: i <= k < |s| ==> MatchAt(s, k).None?
    decreases |s| - i
  {
    if i >= |s| then None
    else if MatchAt(s, i).Some? then MatchAt(s, i)
    else FirstMatch(s, i + 1)
  }

  /** Three groups are hours, minutes and seconds; two are minutes and seconds. */
  function GroupsTotal(g: ClockGroups): nat {
    match g.third
    case Some(c) => g.first * 3600 + g.second * 60 + c
    case None => g.first * 60 + g.second
  }

  /** The plain reader of `getMetaDuration`: only a positive total counts. */
  function PlainDuration(val: string): (r: Option<Duration>)
    ensures r.Some? ==> r.value.seconds > 0
  {
    match FirstMatch(val, 0)
    case None => None
    case Some(g) => if GroupsTotal(g) > 0 then Some(DurationOf(GroupsTotal(g))) else None
  }

  /** The two digits `padStart(2, '0')` makes of a number below 100. */
  function Two(x: nat): string
    requires x < 100
  {
    [DigitChar(x / 10), DigitChar(x % 10)]
  }

  lemma Pad2OfSmall(x: nat)
    requires x < 100
    ensures Pad2(NatToString(x)) == Two(x)
  {
    if x < 10 {
      assert NatToString(x) == [DigitChar(x)];
      assert DigitChar(0) == '0';
    } else {
      assert NatToString(x / 10) == [DigitChar(x / 10)];
    }
  }

  /** The text starts with the number `a` below 100, a colon and the two digits of `b`. */
  lemma MatchOfLayout(a: nat, b: nat, rest: string)
    requires a < 100 && b < 100
    requires |rest| == 0 || rest[0] != ':'
    ensures MatchAt(NatToString(a) + ":" + Two(b) + rest, 0) == Some(ClockGroups(a, b, None))
  {
    var s := NatToString(a) + ":" + Two(b) + rest;
    if a < 10 {
      assert NatToString(a) == [DigitChar(a)];
      assert s[1] == ':';
    } else {
      assert NatToString(a) == [DigitChar(a / 10), DigitChar(a % 10)];
      assert s[2] == ':';
    }
  }

  lemma MatchOfLongLayout(a: nat, b: nat, c: nat)
    requires a < 100 && b < 100 && c < 100
    ensures MatchAt(NatToString(a) + ":" + Two(b) + ":" + Two(c), 0) == Some(ClockGroups(a, b, Some(c)))
  {
    var s := NatToString(a) + ":" + Two(b) + ":" + Two(c);
    if a < 10 {
      assert NatToString(a) == [DigitChar(a)];
      assert s[1] == ':' && s[4] == ':';
    } else {
      assert NatToString(a) == [DigitChar(a / 10), DigitChar(a % 10)];
      assert s[2] == ':' && s[5] == ':';
    }
  }

  /** At least an hour prints as `h:mm:ss`. */
  lemma ClockTextLong(n: nat)
    requires n >= 3600
    ensures ClockText(n) == NatToString(n / 3600) + ":" + Pad2(NatToString(n % 3600 / 60)) + ":" + Pad2(NatToString(n % 60))
  {
  }

  /** Less prints as `m:ss`. */
  lemma ClockTextShort(n: nat)
    requires n < 3600
    ensures ClockText(n) == NatToString(n / 60) + ":" + Pad2(NatToString(n % 60))
  {
    assert n / 3600 == 0 && n % 3600 == n;
  }

  lemma ClockParts(n: nat)
    ensures n / 3600 * 3600 + n % 3600 / 60 * 60 + n % 60 == n
    ensures n < 3600 ==> n / 60 * 60 + n % 60 == n
  {
  }

  /** What `formatDuration` prints for a positive whole number of seconds below 100 hours,
      the plain reader reads back. */
  lemma PlainRoundTrip(n: nat)
    requires 0 < n < 360000
    ensures PlainDuration(FormatDuration(n as real)) == Some(DurationOf(n))
  {
    assert (n as real).Floor == n;
    if n >= 3600 {
      PlainRoundTripLong(n);
    } else {
      PlainRoundTripShort(n);
    }
  }

  lemma PlainRoundTripLong(n: nat)
    requires 3600 <= n < 360000
    ensures PlainDuration(ClockText(n)) == Some(DurationOf(n))
  {
    var h, m, s := n / 3600, n % 3600 / 60, n % 60;
    Pad2OfSmall(m);
    Pad2OfSmall(s);
    ClockParts(n);
    ClockTextLong(n);
    assert ClockText(n) == NatToString(h) + ":" + Two(m) + ":" + Two(s);
    MatchOfLongLayout(h, m, s);
    assert GroupsTotal(ClockGroups(h, m, Some(s))) == n;
    PlainOfMatch(ClockText(n), ClockGroups(h, m, Some(s)));
  }

  lemma PlainRoundTripShort(n: nat)
    requires 0 < n < 3600
    ensures PlainDuration(ClockText(n)) == Some(DurationOf(n))
  {
    var s := n % 60;
    Pad2OfSmall(s);
    ClockParts(n);
    ClockTextShort(n);
    assert ClockText(n) == NatToString(n / 60) + ":" + Two(s) + "";
    MatchOfLayout(n / 60, s, "");
    assert GroupsTotal(ClockGroups(n / 60, s, None)) == n;
    PlainOfMatch(ClockText(n), ClockGroups(n / 60, s, None));
  }

  /** A match at the front is the one the reader takes. */
  lemma PlainOfMatch(text: string, g: ClockGroups)
    requires |text| > 0 && MatchAt(text, 0) == Some(g) && GroupsTotal(g) > 0
    ensures PlainDuration(text) == Some(DurationOf(GroupsTotal(g)))
  {
  }
}
