/** `Array.prototype.filter`, `findIndex` and `find` over sequences. */
module Lists {
  import opened Optional

  /** `filter(p)`: the elements satisfying `p`, in their order. */
  function Filter<T>(s: seq<T>, p: T -> bool): (r: seq<T>)
    ensures |r| <= |s|
    ensures forall i :: 0 <= i < |r| ==> p(r[i]) && r[i] in s
    ensures forall x :: x in s && p(x) ==> x in r
  {
    if |s| == 0 then []
    else (if p(s[0]) then [s[0]] else []) + Filter(s[1..], p)
  }

  /** `findIndex(p)`: the first index whose element satisfies `p`, or -1. */
  function FirstWhere<T>(s: seq<T>, p: T -> bool): (r: int)
    ensures r == -1 || (0 <= r < |s| && p(s[r]))
    ensures forall j :: 0 <= j < |s| && (r == -1 || j < r) ==> !p(s[j])
  {
    if |s| == 0 then -1
    else if p(s[0]) then 0
    else var j := FirstWhere(s[1..], p); if j < 0 then -1 else j + 1
  }

  /** `find(p)`: the first element satisfying `p`, if any. */
  function Find<T>(s: seq<T>, p: T -> bool): (r: Option<T>)
    ensures r.None? <==> forall x :: x in s ==> !p(x)
    ensures r.Some? ==> exists i :: 0 <= i < |s| && s[i] == r.value && p(s[i])
                                    && forall j :: 0 <= j < i ==> !p(s[j])
  {
    var i := FirstWhere(s, p);
    if i < 0 then None else Some(s[i])
  }

  /** Filtering a concatenation filters each part and joins the results: `filter` keeps the
      order and the multiplicity of the elements it keeps. */
  lemma {:induction false} FilterAppend<T>(a: seq<T>, b: seq<T>, p: T -> bool)
    ensures Filter(a + b, p) == Filter(a, p) + Filter(b, p)
  {
    if |a| > 0 {
      FilterAppend(a[1..], b, p);
      assert (a + b)[1..] == a[1..] + b;
    } else {
      assert a + b == b;
    }
  }

  /** A list whose every element satisfies `p` passes unchanged. */
  lemma {:induction false} FilterAll<T>(s: seq<T>, p: T -> bool)
    requires forall i :: 0 <= i < |s| ==> p(s[i])
    ensures Filter(s, p) == s
  {
    if |s| > 0 {
      FilterAll(s[1..], p);
    }
  }

  /** The k-th kept element sits at some index of the list, and the elements kept before that
      index are exactly the first k. */
  lemma {:induction false} FilterSplit<T>(s: seq<T>, p: T -> bool, k: nat)
    requires k < |Filter(s, p)|
    ensures exists i :: 0 <= i < |s| && s[i] == Filter(s, p)[k] && Filter(s[..i], p) == Filter(s, p)[..k]
  {
    var rest := s[1..];
    if p(s[0]) && k == 0 {
      assert Filter(s[..0], p) == [];
    } else {
      var k' := if p(s[0]) then k - 1 else k;
      FilterSplit(rest, p, k');
      var i :| 0 <= i < |rest| && rest[i] == Filter(rest, p)[k'] && Filter(rest[..i], p) == Filter(rest, p)[..k'];
      FilterSplitStep(s, p, k, i);
    }
  }

  /** Moving a split point of the tail of a list one place right, onto the list itself. */
  lemma FilterSplitStep<T>(s: seq<T>, p: T -> bool, k: nat, i: nat)
    requires |s| > 0 && i < |s| - 1 && k < |Filter(s, p)| && (p(s[0]) ==> k > 0)
    requires var k' := if p(s[0]) then k - 1 else k;
             k' < |Filter(s[1..], p)| && s[1..][i] == Filter(s[1..], p)[k']
             && Filter(s[1..][..i], p) == Filter(s[1..], p)[..k']
    ensures s[i + 1] == Filter(s, p)[k] && Filter(s[..i + 1], p) == Filter(s, p)[..k]
  {
    var t := s[..i + 1];
    assert t[1..] == s[1..][..i] && t[0] == s[0] && s[i + 1] == s[1..][i];
    FilterCons(s, p);
    FilterCons(t, p);
    ShiftSplit(s[0], p(s[0]), Filter(s, p), Filter(s[1..], p), Filter(t, p), Filter(s[1..][..i], p), k, s[i + 1]);
  }

  /** The same step on the filtered lists alone: putting back a head that may have been kept. */
  lemma ShiftSplit<T>(x: T, kept: bool, fs: seq<T>, f: seq<T>, ft: seq<T>, g: seq<T>, k: nat, y: T)
    requires fs == (if kept then [x] else []) + f
    requires ft == (if kept then [x] else []) + g
    requires kept ==> k > 0
    requires var k' := if kept then k - 1 else k;
             k' < |f| && y == f[k'] && g == f[..k']
    ensures k < |fs| && y == fs[k] && ft == fs[..k]
  {
  }

  /** Filtering a non-empty list: its head when it is kept, then the filtered tail. */
  lemma FilterCons<T>(s: seq<T>, p: T -> bool)
    requires |s| > 0
    ensures Filter(s, p) == (if p(s[0]) then [s[0]] else []) + Filter(s[1..], p)
  {
  }

  /** The head of a filtered list is what `find` returns. */
  lemma {:induction false} FilterHead<T>(s: seq<T>, p: T -> bool)
    ensures |Filter(s, p)| > 0 <==> FirstWhere(s, p) >= 0
    ensures |Filter(s, p)| > 0 ==> Filter(s, p)[0] == s[FirstWhere(s, p)]
  {
    if |s| > 0 && !p(s[0]) {
      FilterHead(s[1..], p);
    }
  }

  /** One more element of a prefix. */
  lemma PrefixSnoc<T>(s: seq<T>, i: nat)
    requires i < |s|
    ensures s[..i + 1] == s[..i] + [s[i]]
  {
  }

  /** The first non-empty `f(x)`, in the order of `xs`; empty when there is none. */
  function FirstNonEmpty<T, U>(xs: seq<T>, f: T -> seq<U>): seq<U> {
    if |xs| == 0 then [] else if f(xs[0]) != [] then f(xs[0]) else FirstNonEmpty(xs[1..], f)
  }

  lemma {:induction false} FirstNonEmptyNone<T, U>(xs: seq<T>, f: T -> seq<U>)
    ensures FirstNonEmpty(xs, f) == [] <==> forall i :: 0 <= i < |xs| ==> f(xs[i]) == []
  {
    if |xs| > 0 {
      FirstNonEmptyNone(xs[1..], f);
      assert forall i :: 1 <= i < |xs| ==> xs[1..][i - 1] == xs[i];
    }
  }

  lemma {:induction false} FirstNonEmptyFirst<T, U>(xs: seq<T>, f: T -> seq<U>)
    requires FirstNonEmpty(xs, f) != []
    ensures exists i :: 0 <= i < |xs| && FirstNonEmpty(xs, f) == f(xs[i])
                        && forall k :: 0 <= k < i ==> f(xs[k]) == []
  {
    if f(xs[0]) == [] {
      var rest := xs[1..];
      FirstNonEmptyFirst(rest, f);
      var i :| 0 <= i < |rest| && FirstNonEmpty(rest, f) == f(rest[i])
               && forall k :: 0 <= k < i ==> f(rest[k]) == [];
      assert xs[i + 1] == rest[i];
      assert forall k :: 1 <= k < i + 1 ==> xs[k] == rest[k - 1];
    } else {
      assert FirstNonEmpty(xs, f) == f(xs[0]);
    }
  }
}
