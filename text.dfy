/** Python's `str.join` and `str.split` on strings, with the facts that make
    a separator-joined text readable back into its parts. */
module Text {
  import opened Wrappers

  /** `sep.join(parts)`. */
  function Join(parts: seq<string>, sep: string): (r: string)
    ensures |r| == TotalLength(parts) + (if |parts| == 0 then 0 else (|parts| - 1) * |sep|)
  {
    if |parts| == 0 then ""
    else if |parts| == 1 then parts[0]
    else parts[0] + sep + Join(parts[1..], sep)
  }

  /** The sum of the lengths of `parts`. */
  function TotalLength(parts: seq<string>): nat {
    if |parts| == 0 then 0 else |parts[0]| + TotalLength(parts[1..])
  }

  /** Joining a concatenation: the two joined halves meet at one separator. */
  lemma {:induction false} JoinAppend(xs: seq<string>, ys: seq<string>, sep: string)
    requires |xs| > 0 && |ys| > 0
    ensures Join(xs + ys, sep) == Join(xs, sep) + sep + Join(ys, sep)
  {
    if |xs| == 1 {
      assert (xs + ys)[1..] == ys;
    } else {
      assert (xs + ys)[1..] == xs[1..] + ys;
      JoinAppend(xs[1..], ys, sep);
    }
  }

  /** Each part sits in the joined text at its own place, between the joins of
      the parts before it and after it. */
  lemma JoinAt(parts: seq<string>, i: nat, sep: string)
    requires i < |parts|
    ensures Join(parts, sep)
         == (if i == 0 then "" else Join(parts[..i], sep) + sep)
          + parts[i]
          + (if i == |parts| - 1 then "" else sep + Join(parts[i + 1..], sep))
  {
    assert parts == parts[..i] + [parts[i]] + parts[i + 1..];
    if i > 0 {
      JoinAppend(parts[..i], [parts[i]] + parts[i + 1..], sep);
      assert parts[..i] + ([parts[i]] + parts[i + 1..]) == parts;
    }
    if i < |parts| - 1 {
      JoinAppend([parts[i]], parts[i + 1..], sep);
    }
  }

  /** `sep.join([f(x) for x in xs])`, seen from one element: its text sits
      between the joins for the elements before and after it. */
  lemma JoinMappedAt<A, E>(f: A -> Result<string, E>, xs: seq<A>, i: nat, sep: string)
    requires i < |xs| && MapResult(f, xs).Success?
    ensures MapResult(f, xs[..i]).Success? && MapResult(f, xs[i + 1..]).Success?
    ensures Join(MapResult(f, xs).value, sep)
         == (if i == 0 then "" else Join(MapResult(f, xs[..i]).value, sep) + sep)
          + f(xs[i]).value
          + (if i == |xs| - 1 then "" else sep + Join(MapResult(f, xs[i + 1..]).value, sep))
  {
    var ys := MapResult(f, xs).value;
    JoinAt(ys, i, sep);
    MapResultSlice(f, xs, 0, i);
    MapResultSlice(f, xs, i + 1, |xs|);
    assert xs[0..i] == xs[..i] && xs[i + 1..|xs|] == xs[i + 1..];
    assert ys[0..i] == ys[..i] && ys[i + 1..|xs|] == ys[i + 1..];
  }

  /** `s.startswith(p)`. */
  predicate StartsWith(s: string, p: string) {
    |p| <= |s| && s[..|p|] == p
  }

  /** `s.endswith(p)`. */
  predicate EndsWith(s: string, p: string) {
    |p| <= |s| && s[|s| - |p|..] == p
  }

  /** A text starts with each prefix of its own prefixes. */
  lemma StartsWithTrans(s: string, p: string, q: string)
    requires StartsWith(s, p) && StartsWith(p, q)
    ensures StartsWith(s, q)
  {
    assert s[..|q|] == s[..|p|][..|q|];
  }

  /** A join of at least one part starts with the first part. */
  lemma JoinStartsWith(parts: seq<string>, sep: string)
    requires |parts| > 0
    ensures StartsWith(Join(parts, sep), parts[0])
  {
    if |parts| > 1 {
      assert (parts[0] + sep + Join(parts[1..], sep))[..|parts[0]|] == parts[0];
    }
  }

  /** `t` occurs in `s` starting at index `k`. */
  predicate OccursAt(s: string, t: string, k: nat) {
    k + |t| <= |s| && s[k..k + |t|] == t
  }

  /** `t in s`. */
  predicate Contains(s: string, t: string) {
    exists k :: 0 <= k <= |s| && OccursAt(s, t, k)
  }

  /** `s.find(t)`: the first index at which `t` occurs in `s`, if any. */
  function IndexOf(s: string, t: string): (r: Option<nat>)
    requires |t| > 0
    ensures r.Some? ==> OccursAt(s, t, r.value) && forall k :: 0 <= k < r.value ==> !OccursAt(s, t, k)
    ensures r.None? ==> !Contains(s, t)
  {
    if |s| < |t| then None
    else if s[..|t|] == t then Some(0)
    else
      match IndexOf(s[1..], t)
      case None =>
        assert forall k :: 1 <= k <= |s| && OccursAt(s, t, k) ==> OccursAt(s[1..], t, k - 1);
        None
      case Some(k) =>
        assert OccursAt(s[1..], t, k);
        assert forall j :: 1 <= j < k + 1 && OccursAt(s, t, j) ==> OccursAt(s[1..], t, j - 1);
        Some(k + 1)
  }

  /** `s.split(sep)`: the pieces between the non-overlapping occurrences of
      `sep`, found from the left. */
  function Split(s: string, sep: string): (r: seq<string>)
    requires |sep| > 0
    ensures |r| > 0
    ensures forall i :: 0 <= i < |r| ==> !Contains(r[i], sep)
    decreases |s|
  {
    match IndexOf(s, sep)
    case None => [s]
    case Some(k) =>
      assert forall j :: 0 <= j <= k && OccursAt(s[..k], sep, j) ==> OccursAt(s, sep, j);
      var rest := Split(s[k + |sep|..], sep);
      assert forall i :: 1 <= i < |[s[..k]] + rest| ==> ([s[..k]] + rest)[i] == rest[i - 1];
      [s[..k]] + rest
  }

  /** No proper prefix of `t` is also a suffix of it, so two occurrences of
      `t` can never overlap. */
  predicate BorderFree(t: string) {
    forall j :: 0 < j < |t| ==> t[..j] != t[|t| - j..]
  }

  /** A text whose first character occurs nowhere else in it is border-free. */
  lemma BorderFreeByFirst(t: string)
    requires |t| > 0
    requires forall i :: 0 < i < |t| ==> t[i] != t[0]
    ensures BorderFree(t)
  {
    forall j | 0 < j < |t| ensures t[..j] != t[|t| - j..] {
      assert t[..j][0] == t[0];
      assert t[|t| - j..][0] == t[|t| - j];
    }
  }

  /** After a part free of a border-free `sep`, the first occurrence of `sep`
      is the one that follows the part. */
  lemma FirstOccurrenceAfter(p: string, sep: string, rest: string)
    requires |sep| > 0 && BorderFree(sep) && !Contains(p, sep)
    ensures IndexOf(p + sep + rest, sep) == Some(|p|)
  {
    var s := p + sep + rest;
    assert OccursAt(s, sep, |p|) by {
      assert s[|p|..|p| + |sep|] == sep;
    }
    forall k | 0 <= k < |p| ensures !OccursAt(s, sep, k) {
      if k + |sep| <= |p| {
        assert s[k..k + |sep|] == p[k..k + |sep|];
        assert !OccursAt(p, sep, k);
      } else {
        var j := k + |sep| - |p|;
        assert s[k..k + |sep|][|sep| - j..] == sep[..j];
      }
    }
  }

  /** Splitting the join of parts that do not contain a border-free separator
      gives back exactly those parts. */
  lemma {:induction false} SplitJoin(parts: seq<string>, sep: string)
    requires |sep| > 0 && BorderFree(sep) && |parts| > 0
    requires forall i :: 0 <= i < |parts| ==> !Contains(parts[i], sep)
    ensures Split(Join(parts, sep), sep) == parts
  {
    if |parts| == 1 {
    } else {
      var rest := Join(parts[1..], sep);
      FirstOccurrenceAfter(parts[0], sep, rest);
      var s := parts[0] + sep + rest;
      assert s[..|parts[0]|] == parts[0];
      assert s[|parts[0]| + |sep|..] == rest;
      SplitJoin(parts[1..], sep);
      assert parts == [parts[0]] + parts[1..];
    }
  }

  /** Gluing two texts free of `t` cannot create `t` across the seam when the
      character on one side of the seam is not a character of `t`. */
  lemma FreeAppend(a: string, b: string, t: string)
    requires !Contains(a, t) && !Contains(b, t)
    requires |a| == 0 || |b| == 0 || a[|a| - 1] !in t || b[0] !in t
    ensures !Contains(a + b, t)
  {
    var s := a + b;
    forall k | 0 <= k <= |s| ensures !OccursAt(s, t, k) {
      if k + |t| <= |a| {
        assert s[k..k + |t|] == a[k..k + |t|];
        assert !OccursAt(a, t, k);
      } else if k >= |a| {
        if k + |t| <= |s| {
          assert s[k..k + |t|] == b[k - |a|..k - |a| + |t|];
          assert !OccursAt(b, t, k - |a|);
        }
      } else if k + |t| <= |s| {
        assert s[k..k + |t|][|a| - 1 - k] == a[|a| - 1];
        assert s[k..k + |t|][|a| - k] == b[0];
      }
    }
  }

  /** A text without the first character of `t` does not contain `t`. */
  lemma FreeByFirst(s: string, t: string)
    requires |t| > 0 && t[0] !in s
    ensures !Contains(s, t)
  {
    forall k | 0 <= k <= |s| ensures !OccursAt(s, t, k) {
      if k + |t| <= |s| {
        assert s[k..k + |t|][0] == s[k];
      }
    }
  }

  /** `lit` can be glued between texts free of `t` without creating `t`:
      it lacks `t`'s first character and neither of its ends is in `t`. */
  predicate Inert(lit: string, t: string) {
    |t| > 0 && |lit| > 0 && t[0] !in lit && lit[0] !in t && lit[|lit| - 1] !in t
  }

  /** `a + lit + b` is free of `t` when `a` and `b` are and `lit` is inert. */
  lemma FreeGlue(a: string, lit: string, b: string, t: string)
    requires !Contains(a, t) && !Contains(b, t) && Inert(lit, t)
    ensures !Contains(a + lit + b, t)
  {
    FreeByFirst(lit, t);
    FreeAppend(a, lit, t);
    FreeAppend(a + lit, b, t);
  }

  /** `lit + b` is free of `t` when `b` is and `lit` is inert. */
  lemma FreeLabelled(lit: string, b: string, t: string)
    requires !Contains(b, t) && Inert(lit, t)
    ensures !Contains(lit + b, t)
  {
    FreeByFirst(lit, t);
    FreeAppend(lit, b, t);
  }

  /** Joining parts free of `t` with an inert separator gives a text free of `t`. */
  lemma {:induction false} JoinFree(parts: seq<string>, sep: string, t: string)
    requires forall i :: 0 <= i < |parts| ==> !Contains(parts[i], t)
    requires Inert(sep, t)
    ensures !Contains(Join(parts, sep), t)
  {
    if |parts| == 0 {
      FreeByFirst("", t);
    } else if |parts| > 1 {
      JoinFree(parts[1..], sep, t);
      FreeGlue(parts[0], sep, Join(parts[1..], sep), t);
    }
  }
}
