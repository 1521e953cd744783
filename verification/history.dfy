/** The download-history page (history.js): the search filter and newest-first order of
    `renderHistory`, the delete action of `handleAction`, `escapeAttr`, and the relative
    buckets of `formatDate`. The history entries themselves are written by the background
    worker's `recordHistory`. */
module History {
  import opened Strings
  import opened Numbers
  import opened Optional
  import opened Lists
  import opened StableSort

  /** A stored history entry; a missing field is "" or 0. */
  datatype Item = Item(id: string, filename: string, source: string, size: string, timestamp: nat)

  // ---------------------------------------------------------------------------------------
  // Filter and order

  /** The search box's value, lower-cased and trimmed. */
  function SearchTerm(input: string): string {
    Trim(Lower(input))
  }

  /** The item's lower-cased file name or source contains the search. */
  predicate Matches(item: Item, search: string) {
    Contains(Lower(item.filename), search) || Contains(Lower(item.source), search)
  }

  /** An empty search keeps every item; otherwise only the matching ones survive. */
  function Filtered(history: seq<Item>, search: string): (r: seq<Item>)
    ensures search == "" ==> r == history
    ensures search != "" ==> forall x :: x in r <==> x in history && Matches(x, search)
  {
    if search == "" then history else Filter(history, (x: Item) => Matches(x, search))
  }

  function Timestamp(item: Item): int { item.timestamp }

  /** The list `renderHistory` shows. */
  function Shown(history: seq<Item>, input: string): seq<Item> {
    SortDesc(Filtered(history, SearchTerm(input)), Timestamp)
  }

  /** The shown list is newest first, holds exactly the filtered items, and keeps the stored
      order among items of one timestamp. */
  lemma ShownOrder(history: seq<Item>, input: string)
    ensures SortedDesc(Shown(history, input), Timestamp)
    ensures multiset(Shown(history, input)) == multiset(Filtered(history, SearchTerm(input)))
    ensures forall t :: WithKey(Shown(history, input), Timestamp, t) == WithKey(Filtered(history, SearchTerm(input)), Timestamp, t)
  {
    var f := Filtered(history, SearchTerm(input));
    SortDescSorted(f, Timestamp);
    forall t ensures WithKey(Shown(history, input), Timestamp, t) == WithKey(f, Timestamp, t) {
      SortDescStable(f, Timestamp, t);
    }
  }

  /** The title of the empty state. */
  function EmptyTitle(search: string): (r: string)
    ensures r == "No results found" <==> search != ""
  {
    if search != "" then "No results found" else "No download history"
  }

  // ---------------------------------------------------------------------------------------
  // Delete

  /** `handleAction('delete', id)`: no action when no entry has the id, otherwise the list
      without the entries that have it. */
  function Delete(history: seq<Item>, id: string): (r: Option<seq<Item>>)
    ensures r.None? <==> forall x :: x in history ==> x.id != id
    ensures r.Some? ==> forall x :: x in r.value <==> x in history && x.id != id
  {
    match Find(history, HasId(id))
    case None => None
    case Some(_) => Some(Filter(history, OtherId(id)))
  }

  function HasId(id: string): Item -> bool { (x: Item) => x.id == id }
  function OtherId(id: string): Item -> bool { (x: Item) => x.id != id }

  lemma DeleteFound(history: seq<Item>, i: nat)
    requires i < |history|
    ensures Delete(history, history[i].id) == Some(Filter(history, OtherId(history[i].id)))
  {
    assert history[i] in history;
  }

  /** Deleting one entry from the middle of the list keeps the others in their order. */
  lemma DeleteOne(before: seq<Item>, x: Item, after: seq<Item>)
    requires forall i :: 0 <= i < |before| ==> before[i].id != x.id
    requires forall i :: 0 <= i < |after| ==> after[i].id != x.id
    ensures Delete(before + [x] + after, x.id) == Some(before + after)
  {
    var p := OtherId(x.id);
    DeleteFound(before + [x] + after, |before|);
    assert (before + [x] + after)[|before|] == x;
    FilterAll(before, p);
    FilterAll(after, p);
    assert Filter([x], p) == [];
    FilterAppend(before, [x], p);
    assert Filter(before + [x], p) == before;
    FilterAppend(before + [x], after, p);
  }

  // ---------------------------------------------------------------------------------------
  // `escapeAttr`

  /** Every `c` in `s` replaced by `rep`: `replace(/c/g, rep)`. */
  function ReplaceAll(s: string, c: char, rep: string): (r: string)
    ensures c !in rep ==> c !in r
    ensures forall d :: d in r && d != c ==> d in s || d in rep
  {
    if |s| == 0 then "" else (if s[0] == c then rep else [s[0]]) + ReplaceAll(s[1..], c, rep)
  }

  /** `escapeAttr`: empty text gives "", otherwise the five replacements, `&` first. */
  function EscapeAttr(text: string): string {
    if text == "" then ""
    else ReplaceAll(ReplaceAll(ReplaceAll(ReplaceAll(ReplaceAll(text, '&', "&amp;"), '"', "&quot;"), '\'', "&#39;"), '<', "&lt;"), '>', "&gt;")
  }

  /** The entity one character becomes. */
  function EscapeChar(c: char): string {
    if c == '&' then "&amp;"
    else if c == '"' then "&quot;"
    else if c == '\'' then "&#39;"
    else if c == '<' then "&lt;"
    else if c == '>' then "&gt;"
    else [c]
  }

  /** The text escaped one character at a time. */
  function EscapeEach(s: string): string {
    if |s| == 0 then "" else EscapeChar(s[0]) + EscapeEach(s[1..])
  }

  lemma {:induction false} ReplaceAllAppend(a: string, b: string, c: char, rep: string)
    ensures ReplaceAll(a + b, c, rep) == ReplaceAll(a, c, rep) + ReplaceAll(b, c, rep)
  {
    if |a| > 0 {
      ReplaceAllAppend(a[1..], b, c, rep);
      assert (a + b)[1..] == a[1..] + b;
    } else {
      assert a + b == b;
    }
  }

  lemma {:induction false} ReplaceAllAbsent(s: string, c: char, rep: string)
    requires c !in s
    ensures ReplaceAll(s, c, rep) == s
  {
    if |s| > 0 {
      ReplaceAllAbsent(s[1..], c, rep);
    }
  }

  /** The last four replacements applied to `s`. */
  function Later(s: string): string {
    ReplaceAll(ReplaceAll(ReplaceAll(ReplaceAll(s, '"', "&quot;"), '\'', "&#39;"), '<', "&lt;"), '>', "&gt;")
  }

  lemma LaterAppend(a: string, b: string)
    ensures Later(a + b) == Later(a) + Later(b)
  {
    ReplaceAllAppend(a, b, '"', "&quot;");
    var a1, b1 := ReplaceAll(a, '"', "&quot;"), ReplaceAll(b, '"', "&quot;");
    ReplaceAllAppend(a1, b1, '\'', "&#39;");
    var a2, b2 := ReplaceAll(a1, '\'', "&#39;"), ReplaceAll(b1, '\'', "&#39;");
    ReplaceAllAppend(a2, b2, '<', "&lt;");
    var a3, b3 := ReplaceAll(a2, '<', "&lt;"), ReplaceAll(b2, '<', "&lt;");
    ReplaceAllAppend(a3, b3, '>', "&gt;");
  }

  lemma ReplaceAllOne(c: char, d: char, rep: string)
    ensures ReplaceAll([c], d, rep) == if c == d then rep else [c]
  {
    assert [c][1..] == "";
  }

  /** Text without the characters the later replacements look for passes them unchanged. */
  lemma LaterKeeps(e: string)
    requires '"' !in e && '\'' !in e && '<' !in e && '>' !in e
    ensures Later(e) == e
  {
    ReplaceAllAbsent(e, '"', "&quot;");
    ReplaceAllAbsent(e, '\'', "&#39;");
    ReplaceAllAbsent(e, '<', "&lt;");
    ReplaceAllAbsent(e, '>', "&gt;");
  }

  lemma AfterQuoteKeeps(e: string)
    requires '\'' !in e && '<' !in e && '>' !in e
    ensures ReplaceAll(ReplaceAll(ReplaceAll(e, '\'', "&#39;"), '<', "&lt;"), '>', "&gt;") == e
  {
    ReplaceAllAbsent(e, '\'', "&#39;");
    ReplaceAllAbsent(e, '<', "&lt;");
    ReplaceAllAbsent(e, '>', "&gt;");
  }

  /** The entity `&` becomes first holds none of the characters replaced later. */
  lemma LaterOfAmp()
    ensures Later("&amp;") == "&amp;"
  {
    LaterKeeps("&amp;");
  }

  lemma LaterOfQuote()
    ensures Later("\"") == "&quot;"
  {
    ReplaceAllOne('"', '"', "&quot;");
    AfterQuoteKeeps("&quot;");
  }

  lemma LaterOfApostrophe()
    ensures Later("'") == "&#39;"
  {
    ReplaceAllOne('\'', '"', "&quot;");
    ReplaceAllOne('\'', '\'', "&#39;");
    ReplaceAllAbsent("&#39;", '<', "&lt;");
    ReplaceAllAbsent("&#39;", '>', "&gt;");
  }

  lemma LaterOfLess()
    ensures Later("<") == "&lt;"
  {
    ReplaceAllOne('<', '"', "&quot;");
    ReplaceAllOne('<', '\'', "&#39;");
    ReplaceAllOne('<', '<', "&lt;");
    ReplaceAllAbsent("&lt;", '>', "&gt;");
  }

  lemma LaterOfGreater()
    ensures Later(">") == "&gt;"
  {
    ReplaceAllOne('>', '"', "&quot;");
    ReplaceAllOne('>', '\'', "&#39;");
    ReplaceAllOne('>', '<', "&lt;");
    ReplaceAllOne('>', '>', "&gt;");
  }

  lemma LaterOfPlain(c: char)
    requires c != '&' && c != '"' && c != '\'' && c != '<' && c != '>'
    ensures Later([c]) == [c]
  {
    ReplaceAllOne(c, '"', "&quot;");
    ReplaceAllOne(c, '\'', "&#39;");
    ReplaceAllOne(c, '<', "&lt;");
    ReplaceAllOne(c, '>', "&gt;");
  }

  /** What the first replacement makes of one character, the later ones make into its entity. */
  lemma LaterOfChar(c: char)
    ensures Later(if c == '&' then "&amp;" else [c]) == EscapeChar(c)
  {
    if c == '&' {
      LaterOfAmp();
    } else if c == '"' {
      LaterOfQuote();
    } else if c == '\'' {
      LaterOfApostrophe();
    } else if c == '<' {
      LaterOfLess();
    } else if c == '>' {
      LaterOfGreater();
    } else {
      LaterOfPlain(c);
    }
  }

  /** The chain of replacements is the one-pass escape. */
  lemma {:induction false} ChainIsEach(s: string)
    ensures Later(ReplaceAll(s, '&', "&amp;")) == EscapeEach(s)
  {
    if |s| > 0 {
      ChainIsEach(s[1..]);
      var head := if s[0] == '&' then "&amp;" else [s[0]];
      assert ReplaceAll(s, '&', "&amp;") == head + ReplaceAll(s[1..], '&', "&amp;");
      LaterAppend(head, ReplaceAll(s[1..], '&', "&amp;"));
      LaterOfChar(s[0]);
    }
  }

  lemma EscapeAttrIsEach(text: string)
    ensures EscapeAttr(text) == EscapeEach(text)
  {
    ChainIsEach(text);
  }

  /** The escaped text holds no quote of either kind and no angle bracket. */
  lemma {:induction false} EscapeEachSafe(s: string)
    ensures forall d :: d in EscapeEach(s) ==> d != '"' && d != '\'' && d != '<' && d != '>'
  {
    if |s| > 0 {
      EscapeEachSafe(s[1..]);
    }
  }

  lemma EscapeAttrSafe(text: string)
    ensures forall d :: d in EscapeAttr(text) ==> d != '"' && d != '\'' && d != '<' && d != '>'
  {
    EscapeAttrIsEach(text);
    EscapeEachSafe(text);
  }

  /** The browser's reading of the five entities. */
  function Unescape(s: string): string
    decreases |s|
  {
    if |s| == 0 then ""
    else if StartsWith(s, "&amp;") then "&" + Unescape(s[5..])
    else if StartsWith(s, "&quot;") then "\"" + Unescape(s[6..])
    else if StartsWith(s, "&#39;") then "'" + Unescape(s[5..])
    else if StartsWith(s, "&lt;") then "<" + Unescape(s[4..])
    else if StartsWith(s, "&gt;") then ">" + Unescape(s[4..])
    else [s[0]] + Unescape(s[1..])
  }

  lemma UnescapeFront(e: string, rest: string, n: nat, ch: char)
    requires |e| == n && 1 <= n
    requires Unescape(e + rest) == [ch] + Unescape((e + rest)[n..])
    ensures Unescape(e + rest) == [ch] + Unescape(rest)
  {
    assert (e + rest)[n..] == rest;
  }

  lemma UnescapeAmp(rest: string)
    ensures Unescape("&amp;" + rest) == "&" + Unescape(rest)
  {
    assert ("&amp;" + rest)[..5] == "&amp;";
    UnescapeFront("&amp;", rest, 5, '&');
  }

  lemma UnescapeQuote(rest: string)
    ensures Unescape("&quot;" + rest) == "\"" + Unescape(rest)
  {
    var s := "&quot;" + rest;
    assert s[..6] == "&quot;";
    assert !StartsWith(s, "&amp;") by {
      assert s[1] == 'q';
    }
    UnescapeFront("&quot;", rest, 6, '"');
  }

  lemma UnescapeApostrophe(rest: string)
    ensures Unescape("&#39;" + rest) == "'" + Unescape(rest)
  {
    var s := "&#39;" + rest;
    assert s[..5] == "&#39;";
    assert !StartsWith(s, "&amp;") && !StartsWith(s, "&quot;") by {
      assert s[1] == '#';
    }
    UnescapeFront("&#39;", rest, 5, '\'');
  }

  lemma UnescapeLess(rest: string)
    ensures Unescape("&lt;" + rest) == "<" + Unescape(rest)
  {
    var s := "&lt;" + rest;
    assert s[..4] == "&lt;";
    assert !StartsWith(s, "&amp;") && !StartsWith(s, "&quot;") && !StartsWith(s, "&#39;") by {
      assert s[1] == 'l';
    }
    UnescapeFront("&lt;", rest, 4, '<');
  }

  lemma UnescapeGreater(rest: string)
    ensures Unescape("&gt;" + rest) == ">" + Unescape(rest)
  {
    var s := "&gt;" + rest;
    assert s[..4] == "&gt;";
    assert !StartsWith(s, "&amp;") && !StartsWith(s, "&quot;") && !StartsWith(s, "&#39;") && !StartsWith(s, "&lt;") by {
      assert s[1] == 'g';
    }
    UnescapeFront("&gt;", rest, 4, '>');
  }

  lemma UnescapePlain(c: char, rest: string)
    requires c != '&'
    ensures Unescape([c] + rest) == [c] + Unescape(rest)
  {
    var s := [c] + rest;
    assert s[0] == c;
    assert s[1..] == rest;
  }

  lemma UnescapeChar(c: char, rest: string)
    ensures Unescape(EscapeChar(c) + rest) == [c] + Unescape(rest)
  {
    if c == '&' {
      UnescapeAmp(rest);
    } else if c == '"' {
      UnescapeQuote(rest);
    } else if c == '\'' {
      UnescapeApostrophe(rest);
    } else if c == '<' {
      UnescapeLess(rest);
    } else if c == '>' {
      UnescapeGreater(rest);
    } else {
      UnescapePlain(c, rest);
    }
  }

  /** Because `&` is escaped first, nothing is escaped twice: reading the attribute back gives
      the text. */
  lemma {:induction false} UnescapeEach(s: string)
    ensures Unescape(EscapeEach(s)) == s
  {
    if |s| > 0 {
      UnescapeEach(s[1..]);
      UnescapeChar(s[0], EscapeEach(s[1..]));
      assert s == [s[0]] + s[1..];
    }
  }

  lemma EscapeAttrRoundTrip(text: string)
    ensures Unescape(EscapeAttr(text)) == text
  {
    EscapeAttrIsEach(text);
    UnescapeEach(text);
  }

  // ---------------------------------------------------------------------------------------
  // `formatDate`

  /** The text for an entry stamped `diff` milliseconds ago; `localeDate` stands for
      `toLocaleDateString`, used from two days on. */
  function FormatDate(diff: int, localeDate: string): string {
    if diff < 60000 then "Just now"
    else if diff < 3600000 then NatToString(diff / 60000) + "m ago"
    else if diff < 86400000 then NatToString(diff / 3600000) + "h ago"
    else if diff < 172800000 then "Yesterday"
    else localeDate
  }

  /** The date column: empty for an entry without a timestamp. */
  function DateText(item: Item, now: int, localeDate: string): string {
    if item.timestamp == 0 then "" else FormatDate(now - item.timestamp, localeDate)
  }

  /** The bucket, 0 for "Just now" to 4 for a calendar date. */
  function Bucket(diff: int): (b: nat)
    ensures b <= 4
  {
    if diff < 60000 then 0 else if diff < 3600000 then 1 else if diff < 86400000 then 2
    else if diff < 172800000 then 3 else 4
  }

  /** An older entry never lands in a newer bucket. */
  lemma BucketMonotone(d1: int, d2: int)
    requires d1 <= d2
    ensures Bucket(d1) <= Bucket(d2)
  {
  }

  /** The minutes bucket shows the whole minutes elapsed, from 1 to 59. */
  lemma MinutesAgo(diff: int, localeDate: string)
    requires Bucket(diff) == 1
    ensures exists n: nat :: 1 <= n <= 59 && n * 60000 <= diff < (n + 1) * 60000
                             && FormatDate(diff, localeDate) == NatToString(n) + "m ago"
  {
    var n := diff / 60000;
    assert n * 60000 <= diff < (n + 1) * 60000;
    assert 1 <= n <= 59;
    assert FormatDate(diff, localeDate) == NatToString(n) + "m ago";
  }

  /** The hours bucket shows the whole hours elapsed, from 1 to 23. */
  lemma HoursAgo(diff: int, localeDate: string)
    requires Bucket(diff) == 2
    ensures exists n: nat :: 1 <= n <= 23 && n * 3600000 <= diff < (n + 1) * 3600000
                             && FormatDate(diff, localeDate) == NatToString(n) + "h ago"
  {
    var n := diff / 3600000;
    assert n * 3600000 <= diff < (n + 1) * 3600000;
    assert 1 <= n <= 23;
    assert FormatDate(diff, localeDate) == NatToString(n) + "h ago";
  }

  /** The bucket names are told apart: a fixed text appears only in its own bucket. */
  lemma BucketTexts(diff: int, localeDate: string)
    requires localeDate != "Just now" && localeDate != "Yesterday"
    ensures FormatDate(diff, localeDate) == "Just now" <==> Bucket(diff) == 0
    ensures FormatDate(diff, localeDate) == "Yesterday" <==> Bucket(diff) == 3
  {
    if Bucket(diff) == 1 || Bucket(diff) == 2 {
      var t := FormatDate(diff, localeDate);
      assert t[|t| - 1] == 'o';
    }
  }
}
