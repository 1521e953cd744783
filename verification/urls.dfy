/** The few URL operations the HLS parser relies on, stated on URL text: splitting off the
    query and the fragment, `URLSearchParams` parsing, appending and serialising, resolving
    a reference against a base, and the propagation of a manifest's query parameters into
    the URLs it references. */
module Urls {
  import opened Strings

  /** A URL text cut at its first `#` and, before that, at its first `?`. */
  datatype UrlParts = UrlParts(path: string, hasQuery: bool, query: string, fragment: string)

  predicate WellFormedParts(p: UrlParts) {
    '?' !in p.path && '#' !in p.path && '#' !in p.query
    && (p.fragment == "" || p.fragment[0] == '#')
    && (!p.hasQuery ==> p.query == "")
  }

  function Assemble(p: UrlParts): string {
    p.path + (if p.hasQuery then "?" + p.query else "") + p.fragment
  }

  /** Everything before the first `#`, and the fragment from it on. */
  function CutFragment(u: string): (r: (string, string))
    ensures r.0 + r.1 == u && '#' !in r.0 && (r.1 == "" || r.1[0] == '#')
  {
    var h := IndexOfChar(u, '#', 0);
    if h < 0 then (u, "") else (u[..h], u[h..])
  }

  /** Everything before the first `?`, whether there is one, and what follows it. */
  function CutQuery(main: string): (r: (string, bool, string))
    ensures '?' !in r.0
    ensures r.1 ==> main == r.0 + "?" + r.2
    ensures !r.1 ==> main == r.0 && r.2 == ""
  {
    var q := IndexOfChar(main, '?', 0);
    if q < 0 then (main, false, "") else (main[..q], true, main[q + 1..])
  }

  /** Splits a URL text into the part before the query, the query (without `?`) and the
      fragment (with `#`). */
  function Parts(u: string): (p: UrlParts)
    ensures Assemble(p) == u
    ensures WellFormedParts(p)
  {
    var (main, frag) := CutFragment(u);
    var (path, hasQuery, query) := CutQuery(main);
    assert '#' !in path && '#' !in query by {
      CharsOfJoin(path, hasQuery, query, main);
    }
    UrlParts(path, hasQuery, query, frag)
  }

  lemma CharsOfJoin(path: string, hasQuery: bool, query: string, main: string)
    requires main == path + (if hasQuery then "?" + query else "")
    ensures forall ch :: ch in path ==> ch in main
    ensures hasQuery ==> forall ch :: ch in query ==> ch in main
  {
    forall ch | ch in path ensures ch in main {
      var i :| 0 <= i < |path| && path[i] == ch;
      assert main[i] == ch;
    }
    if hasQuery {
      forall ch | ch in query ensures ch in main {
        var i :| 0 <= i < |query| && query[i] == ch;
        assert main[|path| + 1 + i] == ch;
      }
    }
  }

  lemma {:induction false} NotInSlice(s: string, d: char, a: nat, b: nat)
    requires a <= b <= |s| && d !in s
    ensures d !in s[a..b]
  {
  }

  lemma {:induction false} CutFragmentOf(main: string, frag: string)
    requires '#' !in main && (frag == "" || frag[0] == '#')
    ensures CutFragment(main + frag) == (main, frag)
  {
    if frag == "" {
      assert main + frag == main;
      IndexOfCharAbsent(main, '#');
    } else {
      assert main + frag == main + ['#'] + frag[1..];
      IndexOfCharAfter(main, '#', frag[1..]);
      assert (main + frag)[..|main|] == main;
    }
  }

  lemma {:induction false} CutQueryOf(path: string, hasQuery: bool, query: string)
    requires '?' !in path && (!hasQuery ==> query == "")
    ensures CutQuery(path + (if hasQuery then "?" + query else "")) == (path, hasQuery, query)
  {
    if hasQuery {
      var main := path + "?" + query;
      assert path + (if hasQuery then "?" + query else "") == main;
      assert main == path + ['?'] + query;
      IndexOfCharAfter(path, '?', query);
      assert IndexOfChar(main, '?', 0) == |path|;
      assert main[..|path|] == path;
      assert main[|path| + 1..] == query;
    } else {
      assert path + "" == path;
      IndexOfCharAbsent(path, '?');
    }
  }

  /** Cutting an assembled URL gives its parts back. */
  lemma {:induction false} PartsOfAssemble(p: UrlParts)
    requires WellFormedParts(p)
    ensures Parts(Assemble(p)) == p
  {
    var main := p.path + (if p.hasQuery then "?" + p.query else "");
    assert '#' !in main by {
      forall i | 0 <= i < |main| ensures main[i] != '#' {
        if i < |p.path| { assert main[i] == p.path[i]; }
        else if i > |p.path| { assert main[i] == p.query[i - |p.path| - 1]; }
      }
    }
    CutFragmentOf(main, p.fragment);
    CutQueryOf(p.path, p.hasQuery, p.query);
  }

  // ---------------------------------------------------------------- query parameters

  /** One `name=value` pair of a query, as `URLSearchParams` keeps it. */
  datatype Param = Param(name: string, value: string)

  /** Pairs that serialise and parse back unchanged: names without `&`, `=` or `#`, values
      without `&` or `#`. Everything `ParseQuery` returns is of this kind. */
  predicate WellFormedParam(p: Param) {
    '&' !in p.name && '=' !in p.name && '#' !in p.name && '&' !in p.value && '#' !in p.value
  }

  function Names(ps: seq<Param>): set<string> {
    set p | p in ps :: p.name
  }

  /** One `&`-separated piece: the name runs to the first `=`, the value is the rest. */
  function ParsePiece(piece: string): (p: Param)
    ensures '=' !in p.name
    ensures '=' in piece ==> piece == p.name + "=" + p.value
    ensures '=' !in piece ==> p == Param(piece, "")
  {
    var i := IndexOfChar(piece, '=', 0);
    if i < 0 then
      assert '=' !in piece by {
        forall k | 0 <= k < |piece| ensures piece[k] != '=' { }
      }
      Param(piece, "")
    else
      assert piece == piece[..i] + "=" + piece[i + 1..];
      Param(piece[..i], piece[i + 1..])
  }

  function ParsePieces(pieces: seq<string>): (ps: seq<Param>)
    ensures |ps| == |pieces|
    ensures forall k :: 0 <= k < |ps| ==> ps[k] == ParsePiece(pieces[k])
  {
    seq(|pieces|, k requires 0 <= k < |pieces| => ParsePiece(pieces[k]))
  }

  /** `new URLSearchParams(query)` without percent-decoding: empty pieces are skipped. */
  function ParseQuery(q: string): seq<Param> {
    ParsePieces(NonEmpty(Split(q, '&')))
  }

  /** The pairs read from a query hold no `&` and no `#`, and no name holds `=`. */
  lemma ParseQueryWellFormed(q: string)
    requires '#' !in q
    ensures forall k :: 0 <= k < |ParseQuery(q)| ==> WellFormedParam(ParseQuery(q)[k])
  {
    var pieces := NonEmpty(Split(q, '&'));
    var ps := ParsePieces(pieces);
    forall k | 0 <= k < |ps| ensures WellFormedParam(ps[k]) {
      SplitPiecesInherit(q, '&', '#');
      var piece := pieces[k];
      assert piece in Split(q, '&');
      assert '&' !in piece && '#' !in piece;
      if '=' in piece {
        assert piece == ps[k].name + "=" + ps[k].value;
        CharsOfConcat(ps[k].name, ps[k].value, piece);
      }
    }
  }

  lemma {:induction false} CharsOfConcat(a: string, b: string, s: string)
    requires s == a + "=" + b
    ensures forall ch :: ch in a || ch in b ==> ch in s
  {
    forall ch | ch in a || ch in b ensures ch in s {
      if ch in a {
        var i :| 0 <= i < |a| && a[i] == ch;
        assert s[i] == ch;
      } else {
        var i :| 0 <= i < |b| && b[i] == ch;
        assert s[|a| + 1 + i] == ch;
      }
    }
  }

  /** A character missing from the text is missing from every piece of its split. */
  lemma {:induction false} SplitPiecesInherit(s: string, c: char, d: char)
    requires d !in s
    ensures forall x :: x in Split(s, c) ==> d !in x
    decreases |s|
  {
    var i := IndexOfChar(s, c, 0);
    if i >= 0 {
      NotInSlice(s, d, i + 1, |s|);
      SplitPiecesInherit(s[i + 1..], c, d);
      NotInSlice(s, d, 0, i);
      assert s[..i] == s[0..i];
    }
  }

  function PieceOf(p: Param): string {
    p.name + "=" + p.value
  }

  /** `URLSearchParams.toString()` without percent-encoding. */
  function SerializeQuery(ps: seq<Param>): string {
    Join(seq(|ps|, k requires 0 <= k < |ps| => PieceOf(ps[k])), "&")
  }

  lemma {:induction false} JoinSplit(xs: seq<string>, c: char)
    requires |xs| >= 1
    requires forall k :: 0 <= k < |xs| ==> c !in xs[k]
    ensures Split(Join(xs, [c]), c) == xs
  {
    if |xs| == 1 {
      IndexOfCharAbsent(xs[0], c);
    } else {
      var rest := Join(xs[1..], [c]);
      JoinSplit(xs[1..], c);
      IndexOfCharAfter(xs[0], c, rest);
      var s := xs[0] + [c] + rest;
      assert s[..|xs[0]|] == xs[0];
      assert s[|xs[0]| + 1..] == rest;
    }
  }

  lemma {:induction false} NonEmptyOfNonEmpty(xs: seq<string>)
    requires forall k :: 0 <= k < |xs| ==> xs[k] != ""
    ensures NonEmpty(xs) == xs
  {
    if |xs| > 0 {
      NonEmptyOfNonEmpty(xs[1..]);
    }
  }

  /** A well-formed pair's piece has no `&`, is not empty, and reads back as the pair. */
  lemma {:induction false} PieceRoundTrip(p: Param)
    requires WellFormedParam(p)
    ensures '&' !in PieceOf(p) && PieceOf(p) != "" && ParsePiece(PieceOf(p)) == p
  {
    var piece := PieceOf(p);
    assert piece[|p.name|] == '=';
    forall i | 0 <= i < |piece| ensures piece[i] != '&' {
      if i < |p.name| { assert piece[i] == p.name[i]; }
      else if i > |p.name| { assert piece[i] == p.value[i - |p.name| - 1]; }
    }
    var i := IndexOfChar(piece, '=', 0);
    assert i == |p.name| by {
      assert piece == p.name + ['='] + p.value;
      IndexOfCharAfter(p.name, '=', p.value);
    }
    assert piece[..i] == p.name;
    assert piece[i + 1..] == p.value;
  }

  /** Serialising well-formed pairs and parsing the text again gives the same pairs. */
  lemma {:induction false} ParseSerialize(ps: seq<Param>)
    requires forall k :: 0 <= k < |ps| ==> WellFormedParam(ps[k])
    ensures ParseQuery(SerializeQuery(ps)) == ps
  {
    var pieces := seq(|ps|, k requires 0 <= k < |ps| => PieceOf(ps[k]));
    forall k | 0 <= k < |ps|
      ensures '&' !in pieces[k] && pieces[k] != "" && ParsePiece(pieces[k]) == ps[k]
    {
      PieceRoundTrip(ps[k]);
    }
    if |ps| == 0 {
      assert SerializeQuery(ps) == "";
      assert Split("", '&') == [""];
    } else {
      JoinSplit(pieces, '&');
      NonEmptyOfNonEmpty(pieces);
    }
  }

  /** What appending each source parameter the target lacks leaves in the target: the target's own pairs, then each source pair whose name was not
      yet present, in source order. */
  function MergeParams(target: seq<Param>, source: seq<Param>): seq<Param>
    decreases |source|
  {
    if |source| == 0 then target
    else MergeParams(if source[0].name in Names(target) then target else target + [source[0]], source[1..])
  }

  /** The target's pairs stay in front, unchanged; everything after them is a source pair
      whose name the target did not have. */
  lemma {:induction false} MergeParamsKeepsTarget(target: seq<Param>, source: seq<Param>)
    ensures var r := MergeParams(target, source);
      && |r| >= |target| && r[..|target|] == target
      && forall k :: |target| <= k < |r| ==> r[k] in source && r[k].name !in Names(target)
    decreases |source|
  {
    if |source| > 0 {
      var next := if source[0].name in Names(target) then target else target + [source[0]];
      NamesAppend(target, source[0]);
      MergeParamsKeepsTarget(next, source[1..]);
      var r := MergeParams(next, source[1..]);
      assert r[..|target|] == target by {
        assert r[..|target|] == r[..|next|][..|target|];
      }
      forall k | |target| <= k < |r| ensures r[k] in source && r[k].name !in Names(target) {
        if k < |next| {
          assert r[k] == r[..|next|][k] == source[0];
        } else {
          assert r[k] in source[1..];
        }
      }
    }
  }

  /** The merged pairs carry exactly the names of both lists. */
  lemma {:induction false} MergeParamsNames(target: seq<Param>, source: seq<Param>)
    ensures Names(MergeParams(target, source)) == Names(target) + Names(source)
    decreases |source|
  {
    if |source| > 0 {
      var next := if source[0].name in Names(target) then target else target + [source[0]];
      NamesAppend(target, source[0]);
      NamesCons(source);
      MergeParamsNames(next, source[1..]);
    }
  }

  /** No name is appended twice. */
  lemma {:induction false} MergeParamsAppendsOnce(target: seq<Param>, source: seq<Param>)
    ensures var r := MergeParams(target, source);
      |r| >= |target| && forall k, j :: |target| <= k < j < |r| ==> r[k].name != r[j].name
    decreases |source|
  {
    MergeParamsKeepsTarget(target, source);
    if |source| > 0 {
      var next := if source[0].name in Names(target) then target else target + [source[0]];
      NamesAppend(target, source[0]);
      MergeParamsAppendsOnce(next, source[1..]);
      MergeParamsKeepsTarget(next, source[1..]);
      var r := MergeParams(next, source[1..]);
      forall k, j | |target| <= k < j < |r| ensures r[k].name != r[j].name {
        if k < |next| {
          assert r[k] == r[..|next|][k] == next[k];
          assert r[k].name in Names(next);
        }
      }
    }
  }

  lemma NamesAppend(ps: seq<Param>, p: Param)
    ensures Names(ps + [p]) == Names(ps) + {p.name}
  {
    forall n ensures n in Names(ps + [p]) <==> n in Names(ps) + {p.name} {
      if n in Names(ps + [p]) {
        var q :| q in ps + [p] && q.name == n;
      }
      if n in Names(ps) {
        var q :| q in ps && q.name == n;
        assert q in ps + [p];
      }
    }
  }

  lemma NamesCons(ps: seq<Param>)
    requires |ps| > 0
    ensures Names(ps) == {ps[0].name} + Names(ps[1..])
  {
    assert ps == [ps[0]] + ps[1..];
    forall n ensures n in Names(ps) <==> n in {ps[0].name} + Names(ps[1..]) {
      if n in Names(ps) {
        var q :| q in ps && q.name == n;
      }
      if n in Names(ps[1..]) {
        var q :| q in ps[1..] && q.name == n;
      }
    }
  }

  /** `appendQueryParams(source, target)` on URL text: a source without a query leaves the
      target untouched; otherwise the target gets the source's missing parameters, and stays
      as it is when none are missing. A target that is not an absolute URL makes the URL
      constructor throw, and the handler returns that target as it is. */
  function AppendQueryParams(source: string, target: string): (r: string)
    ensures Parts(source).query == "" || !HasScheme(target) ==> r == target
  {
    var s := Parts(source);
    var t := Parts(target);
    if !HasScheme(target) || s.query == "" then target
    else
      var tp := ParseQuery(t.query);
      var merged := MergeParams(tp, ParseQuery(s.query));
      if |merged| == |tp| then target
      else Assemble(t.(hasQuery := true, query := SerializeQuery(merged)))
  }

  /** The `forEach` of `appendQueryParams`, with its `changed` flag. */
  method MergeLoop(target: seq<Param>, source: seq<Param>) returns (merged: seq<Param>, changed: bool)
    ensures merged == MergeParams(target, source)
    ensures changed <==> merged != target
  {
    merged := target;
    ghost var added: seq<Param> := [];
    changed := false;
    var i := 0;
    while i < |source|
      invariant 0 <= i <= |source|
      invariant MergeParams(merged, source[i..]) == MergeParams(target, source)
      invariant merged == target + added
      invariant changed <==> |added| > 0
    {
      MergeStep(merged, source[i..]);
      assert source[i..][1..] == source[i + 1..];
      if source[i].name !in Names(merged) {
        merged := merged + [source[i]];
        added := added + [source[i]];
        changed := true;
      }
      i := i + 1;
    }
    assert source[i..] == [];
    assert changed ==> |merged| > |target|;
  }

  /** `appendQueryParams` on URL text. */
  method AppendQueryParamsLoop(source: string, target: string) returns (r: string)
    ensures r == AppendQueryParams(source, target)
  {
    var s := Parts(source);
    var t := Parts(target);
    if !HasScheme(target) || s.query == "" {
      return target;
    }
    var targetParams := ParseQuery(t.query);
    var merged, changed := MergeLoop(targetParams, ParseQuery(s.query));
    if !changed {
      return target;
    }
    MergeParamsKeepsTarget(targetParams, ParseQuery(s.query));
    assert |merged| != |targetParams|;
    r := Assemble(t.(hasQuery := true, query := SerializeQuery(merged)));
  }

  lemma MergeStep(target: seq<Param>, source: seq<Param>)
    requires |source| > 0
    ensures MergeParams(target, source)
         == MergeParams(if source[0].name in Names(target) then target else target + [source[0]], source[1..])
  {
  }

  /** For an absolute target, every query parameter of the source ends up in the result,
      and the target's own parameters come first with their values unchanged. */
  lemma {:induction false} AppendQueryParamsKeeps(source: string, target: string)
    requires Parts(source).query != ""
    ensures var rp := ParseQuery(Parts(AppendQueryParams(source, target)).query);
            var tp := ParseQuery(Parts(target).query);
            HasScheme(target) ==>
              Names(ParseQuery(Parts(source).query)) <= Names(rp)
              && |tp| <= |rp| && rp[..|tp|] == tp
  {
    if !HasScheme(target) {
      return;
    }
    var s := Parts(source);
    var t := Parts(target);
    var tp := ParseQuery(t.query);
    var sp := ParseQuery(s.query);
    var merged := MergeParams(tp, sp);
    ParseQueryWellFormed(t.query);
    ParseQueryWellFormed(s.query);
    MergeParamsKeepsTarget(tp, sp);
    MergeParamsNames(tp, sp);
    if |merged| == |tp| {
      assert merged == tp by {
        assert merged[..|tp|] == tp;
      }
    } else {
      var q := SerializeQuery(merged);
      assert forall k :: 0 <= k < |merged| ==> WellFormedParam(merged[k]) by {
        forall k | 0 <= k < |merged| ensures WellFormedParam(merged[k]) {
          if k < |tp| {
            assert merged[k] == merged[..|tp|][k] == tp[k];
          } else {
            assert merged[k] in sp;
          }
        }
      }
      ParseSerialize(merged);
      QueryHasNoHash(merged);
      var p := t.(hasQuery := true, query := q);
      PartsOfAssemble(p);
    }
  }

  lemma {:induction false} QueryHasNoHash(ps: seq<Param>)
    requires forall k :: 0 <= k < |ps| ==> WellFormedParam(ps[k])
    ensures '#' !in SerializeQuery(ps)
    decreases |ps|
  {
    var pieces := seq(|ps|, k requires 0 <= k < |ps| => PieceOf(ps[k]));
    forall k | 0 <= k < |ps| ensures '#' !in pieces[k] {
      var piece := pieces[k];
      forall i | 0 <= i < |piece| ensures piece[i] != '#' {
        if i < |ps[k].name| { assert piece[i] == ps[k].name[i]; }
        else if i > |ps[k].name| { assert piece[i] == ps[k].value[i - |ps[k].name| - 1]; }
      }
    }
    JoinAvoids(pieces, '#');
  }

  lemma {:induction false} JoinAvoids(xs: seq<string>, c: char)
    requires c != '&'
    requires forall k :: 0 <= k < |xs| ==> c !in xs[k]
    ensures c !in Join(xs, "&")
  {
    if |xs| > 1 {
      JoinAvoids(xs[1..], c);
      var rest := Join(xs[1..], "&");
      var s := xs[0] + "&" + rest;
      forall i | 0 <= i < |s| ensures s[i] != c {
        if i < |xs[0]| { assert s[i] == xs[0][i]; }
        else if i > |xs[0]| { assert s[i] == rest[i - |xs[0]| - 1]; }
      }
    }
  }

  // ---------------------------------------------------------------- reference resolution

  predicate IsSchemeChar(c: char) {
    IsAsciiLetter(c) || IsDigit(c) || c == '+' || c == '-' || c == '.'
  }

  /** The reference starts with `scheme:`. */
  predicate HasScheme(u: string) {
    var i := IndexOfChar(u, ':', 0);
    i > 0 && IsAsciiLetter(u[0]) && forall k :: 0 <= k < i ==> IsSchemeChar(u[k])
  }

  /** `https:` for `https://host/...`: everything up to and including the first `:`. */
  function SchemeOf(base: string): string {
    var i := IndexOfChar(base, ':', 0);
    if i < 0 then "" else base[..i + 1]
  }

  /** `scheme://...`: a URL whose scheme is followed by an authority, as a manifest URL is. */
  predicate IsHierarchical(base: string) {
    HasScheme(base) && OccursAt(base, "://", IndexOfChar(base, ':', 0))
  }

  /** The index where the authority of `base` ends: the first `/` after `//`, or the end of
      the part before the query. */
  function AuthorityEnd(base: string): (r: nat)
    ensures r <= |Parts(base).path|
  {
    var p := Parts(base).path;
    var k := IndexOf(p, "://", 0);
    if k < 0 then 0
    else
      var e := IndexOfChar(p, '/', k + 3);
      if e < 0 then |p| else e
  }

  /** `scheme://host` of `base`. */
  function Origin(base: string): (r: string)
    ensures StartsWith(Parts(base).path, r)
  {
    Parts(base).path[..AuthorityEnd(base)]
  }

  /** The base's path up to and including its last `/` after the authority. */
  function Directory(base: string): (r: string)
    ensures StartsWith(r, Origin(base)) && EndsWith(r, "/")
    ensures StartsWith(Parts(base).path + "/", r)
    ensures forall j :: |r| <= j < |Parts(base).path| ==> Parts(base).path[j] != '/'
  {
    DirectoryOf(Parts(base).path, AuthorityEnd(base))
  }

  /** `p` up to and including its last `/` at or after `e`, or `p` and a `/` when there is
      none. */
  function DirectoryOf(p: string, e: nat): (r: string)
    requires e <= |p|
    ensures StartsWith(r, p[..e]) && EndsWith(r, "/")
    ensures StartsWith(p + "/", r)
    ensures forall j :: |r| <= j < |p| ==> p[j] != '/'
  {
    var slash := LastIndexOfChar(p, '/');
    if slash >= e then p[..slash + 1] else p + "/"
  }

  /** A reference starting with `//`. */
  predicate SchemeRelative(ref: string) {
    |ref| >= 2 && ref[0] == '/' && ref[1] == '/'
  }

  /** `new URL(ref, base).href`, without dot-segment removal or normalisation: an absolute
      reference stands, a scheme-relative one takes the base's scheme, a root-relative one
      the base's origin, and a path-relative one the base's directory. */
  function Resolve(ref: string, base: string): (r: string)
    ensures ref != "" ==> EndsWith(r, ref)
    ensures HasScheme(ref) ==> r == ref
    ensures SchemeRelative(ref) ==> r == SchemeOf(base) + ref
    ensures ref != "" && ref[0] == '/' && !SchemeRelative(ref) ==> r == Origin(base) + ref
    ensures ref != "" && !HasScheme(ref) && ref[0] != '/' && ref[0] != '?' && ref[0] != '#'
            ==> r == Directory(base) + ref
  {
    var p := Parts(base);
    if HasScheme(ref) then ref
    else if ref == "" then Assemble(p.(fragment := ""))
    else if SchemeRelative(ref) then SchemeOf(base) + ref
    else if ref[0] == '/' then Origin(base) + ref
    else if ref[0] == '?' then p.path + ref
    else if ref[0] == '#' then Assemble(p.(fragment := "")) + ref
    else Directory(base) + ref
  }

  /** A fragment reference replaces the base's fragment and keeps the rest. */
  lemma {:induction false} ResolveFragment(ref: string, base: string)
    requires ref != "" && ref[0] == '#'
    ensures Parts(Resolve(ref, base)) == Parts(base).(fragment := ref)
  {
    var p := Parts(base);
    assert Resolve(ref, base) == Assemble(p.(fragment := "")) + ref;
    assert Assemble(p.(fragment := "")) + ref == Assemble(p.(fragment := ref));
    PartsOfAssemble(p.(fragment := ref));
  }

  /** The empty reference is the base without its fragment. */
  lemma {:induction false} ResolveEmpty(base: string)
    ensures Parts(Resolve("", base)) == Parts(base).(fragment := "")
  {
    PartsOfAssemble(Parts(base).(fragment := ""));
  }

  /** A query reference replaces the base's query and drops its fragment. */
  lemma {:induction false} ResolveQuery(ref: string, base: string)
    requires ref != "" && ref[0] == '?' && '#' !in ref
    ensures Parts(Resolve(ref, base)) == UrlParts(Parts(base).path, true, ref[1..], "")
  {
    var p := Parts(base);
    var q := UrlParts(p.path, true, ref[1..], "");
    assert ref == "?" + ref[1..];
    assert Resolve(ref, base) == p.path + ref;
    assert p.path + ref == Assemble(q);
    PartsOfAssemble(q);
  }

  /** The first `n` characters of a URL, none of them `?` or `#`, lie before its query. */
  lemma {:induction false} PathPrefix(u: string, n: nat)
    requires n <= |u| && forall j :: 0 <= j < n ==> u[j] != '?' && u[j] != '#'
    ensures n <= |Parts(u).path| && Parts(u).path[..n] == u[..n]
  {
    var p := Parts(u);
    var m := |p.path|;
    assert u[..m] == p.path;
    if m < |u| {
      if p.hasQuery {
        assert u[m] == '?';
      } else {
        assert u == p.path + p.fragment;
        assert u[m] == p.fragment[0];
      }
    }
  }

  /** A text that agrees with `base` up to its scheme's `:` has a scheme. */
  lemma {:induction false} SchemePrefix(base: string, x: string)
    requires HasScheme(base)
    requires StartsWith(x, base[..IndexOfChar(base, ':', 0) + 1])
    ensures HasScheme(x)
  {
    var i := IndexOfChar(base, ':', 0);
    assert x[i] == x[..i + 1][i] == base[i];
    forall j | 0 <= j < i ensures x[j] == base[j] {
      assert x[j] == x[..i + 1][j];
    }
    assert IndexOfChar(x, ':', 0) == i;
  }

  lemma PrefixTrans(a: string, b: string, c: string)
    requires StartsWith(a, b) && StartsWith(b, c)
    ensures StartsWith(a, c)
  {
    assert a[..|c|] == b[..|b|][..|c|];
  }

  lemma PrefixAppend(a: string, b: string)
    ensures StartsWith(a + b, a)
  {
    assert (a + b)[..|a|] == a;
  }

  lemma AssembleStartsWithPath(p: UrlParts)
    ensures StartsWith(Assemble(p), p.path)
  {
    assert Assemble(p)[..|p.path|] == p.path;
  }

  /** A URL text begins with its part before the query. */
  lemma {:induction false} StartsWithPath(u: string)
    ensures StartsWith(u, Parts(u).path)
  {
    AssembleStartsWithPath(Parts(u));
  }

  /** A reference within the same document resolves to the base's part before the query
      and more. */
  lemma {:induction false} ResolveKeepsPath(ref: string, base: string)
    requires ref == "" || ref[0] == '?' || ref[0] == '#'
    ensures StartsWith(Resolve(ref, base), Parts(base).path)
  {
    var r := Resolve(ref, base);
    if ref == "" {
      ResolveEmpty(base);
      StartsWithPath(r);
    } else if ref[0] == '?' {
      assert r == Parts(base).path + ref;
      PrefixAppend(Parts(base).path, ref);
    } else {
      ResolveFragment(ref, base);
      StartsWithPath(r);
    }
  }

  /** Every reference that is neither absolute nor scheme-relative resolves inside the
      base's origin. */
  lemma {:induction false} ResolveKeepsOrigin(ref: string, base: string)
    requires !HasScheme(ref) && !SchemeRelative(ref)
    ensures StartsWith(Resolve(ref, base), Origin(base))
  {
    var r := Resolve(ref, base);
    if ref == "" || ref[0] == '?' || ref[0] == '#' {
      ResolveKeepsPath(ref, base);
      PrefixTrans(r, Parts(base).path, Origin(base));
    } else if ref[0] == '/' {
      PrefixAppend(Origin(base), ref);
    } else {
      PrefixAppend(Directory(base), ref);
      PrefixTrans(r, Directory(base), Origin(base));
    }
  }

  /** The part before the query of a `scheme://` URL begins with its `scheme://`. */
  lemma {:induction false} PathKeepsScheme(base: string)
    requires IsHierarchical(base)
    ensures var i := IndexOfChar(base, ':', 0);
            i + 3 <= |Parts(base).path| && Parts(base).path[..i + 3] == base[..i + 3]
  {
    var i := IndexOfChar(base, ':', 0);
    forall j | 0 <= j < i + 3 ensures base[j] != '?' && base[j] != '#' {
      if j > i {
        assert base[j] == base[i..i + 3][j - i];
      }
    }
    PathPrefix(base, i + 3);
  }

  /** The first `://` of a text whose first `:` opens one. */
  lemma {:induction false} FirstAuthorityMark(p: string, i: nat)
    requires OccursAt(p, "://", i) && forall j :: 0 <= j < i ==> p[j] != ':'
    ensures IndexOf(p, "://", 0) == i
  {
    var k := IndexOf(p, "://", 0);
    assert k <= i;
    assert p[k] == p[k..k + 3][0];
  }

  /** The authority of a `scheme://` URL ends after its `://`. */
  lemma {:induction false} AuthorityAfterScheme(base: string)
    requires IsHierarchical(base)
    ensures AuthorityEnd(base) >= IndexOfChar(base, ':', 0) + 3
  {
    var i := IndexOfChar(base, ':', 0);
    var p := Parts(base).path;
    PathKeepsScheme(base);
    assert p[i..i + 3] == base[i..i + 3];
    forall j | 0 <= j < i ensures p[j] != ':' {
      assert p[j] == p[..i + 3][j];
    }
    FirstAuthorityMark(p, i);
  }

  /** The origin of a `scheme://` URL starts with that scheme and its `:`. */
  lemma {:induction false} OriginHasScheme(base: string)
    requires IsHierarchical(base)
    ensures StartsWith(Origin(base), base[..IndexOfChar(base, ':', 0) + 1])
  {
    var i := IndexOfChar(base, ':', 0);
    var p := Parts(base).path;
    PathKeepsScheme(base);
    AuthorityAfterScheme(base);
    assert Origin(base)[..i + 1] == p[..i + 3][..i + 1] == base[..i + 3][..i + 1];
  }

  /** Against a `scheme://` base, every reference resolves to a URL with a scheme. */
  lemma {:induction false} ResolvedHasScheme(ref: string, base: string)
    requires IsHierarchical(base)
    ensures HasScheme(Resolve(ref, base))
  {
    var pre := base[..IndexOfChar(base, ':', 0) + 1];
    var r := Resolve(ref, base);
    if HasScheme(ref) {
    } else if SchemeRelative(ref) {
      PrefixAppend(pre, ref);
      SchemePrefix(base, r);
    } else {
      ResolveKeepsOrigin(ref, base);
      OriginHasScheme(base);
      PrefixTrans(r, Origin(base), pre);
      SchemePrefix(base, r);
    }
  }

  /** `resolveWithMasterParams`: references not starting with `http` are resolved against
      the manifest URL, then the manifest's query parameters are propagated. A reference
      that starts with `http` without being absolute (`http_720.m3u8`) comes back as it is,
      from the handler around `appendQueryParams`. */
  function ResolveWithMasterParams(target: string, baseUrl: string): (r: string)
    ensures StartsWith(target, "http") && !HasScheme(target) ==> r == target
    ensures Parts(baseUrl).query == ""
            ==> r == (if StartsWith(target, "http") then target else Resolve(target, baseUrl))
  {
    var absolute := if StartsWith(target, "http") then target else Resolve(target, baseUrl);
    AppendQueryParams(baseUrl, absolute)
  }

  /** The manifest's query parameters reach every absolute resolved URL, and a query the
      reference already had keeps its parameters in front with their values; against a
      `scheme://` manifest URL every reference not starting with `http` resolves to one. */
  lemma {:induction false} ResolveWithMasterParamsKeeps(target: string, baseUrl: string)
    requires Parts(baseUrl).query != ""
    ensures var absolute := if StartsWith(target, "http") then target else Resolve(target, baseUrl);
            var rp := ParseQuery(Parts(ResolveWithMasterParams(target, baseUrl)).query);
            var tp := ParseQuery(Parts(absolute).query);
            HasScheme(absolute) ==>
              Names(ParseQuery(Parts(baseUrl).query)) <= Names(rp)
              && |tp| <= |rp| && rp[..|tp|] == tp
    ensures IsHierarchical(baseUrl) && !StartsWith(target, "http")
            ==> HasScheme(Resolve(target, baseUrl))
  {
    var absolute := if StartsWith(target, "http") then target else Resolve(target, baseUrl);
    assert ResolveWithMasterParams(target, baseUrl) == AppendQueryParams(baseUrl, absolute);
    AppendQueryParamsKeeps(baseUrl, absolute);
    if IsHierarchical(baseUrl) {
      ResolvedHasScheme(target, baseUrl);
    }
  }
}
