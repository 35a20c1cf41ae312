/** The two java.lang.String operations the cache bootstrap relies on:
    `trim()` and `split(",")` (a one-character, non-regex separator, limit 0).
    The functions carry only light contracts, so that using them costs the
    verifier little; what they compute is stated by the lemmas beside them. */
module JavaText {

  /** `String.trim` treats every char at or below U+0020 as removable. */
  predicate IsTrimmable(c: char) {
    c <= ' '
  }

  predicate AllTrimmable(s: string) {
    forall k :: 0 <= k < |s| ==> IsTrimmable(s[k])
  }

  // ---------------------------------------------------------------------- trim

  /** Drops the leading run of trimmable chars. */
  function TrimStart(s: string): (r: string)
    ensures |r| <= |s|
  {
    if |s| > 0 && IsTrimmable(s[0]) then TrimStart(s[1..]) else s
  }

  /** Drops the trailing run of trimmable chars. */
  function TrimEnd(s: string): (r: string)
    ensures |r| <= |s|
  {
    if |s| > 0 && IsTrimmable(s[|s| - 1]) then TrimEnd(s[..|s| - 1]) else s
  }

  /** `TrimStart` keeps a suffix that does not start with a trimmable char and
      removes trimmable chars only. */
  lemma {:induction false} TrimStartShape(s: string)
    ensures var r := TrimStart(s);
            && r == s[|s| - |r|..]
            && (|r| > 0 ==> !IsTrimmable(r[0]))
            && AllTrimmable(s[..|s| - |r|])
  {
    if |s| > 0 && IsTrimmable(s[0]) {
      TrimStartShape(s[1..]);
      var n := |s| - |TrimStart(s)|;
      assert s[1..][n - 1..] == s[n..];
      forall k | 0 <= k < n
        ensures IsTrimmable(s[..n][k])
      {
        if k > 0 {
          assert s[..n][k] == s[1..][..n - 1][k - 1];
        }
      }
    }
  }

  /** `TrimEnd` keeps a prefix that does not end with a trimmable char and
      removes trimmable chars only. */
  lemma {:induction false} TrimEndShape(s: string)
    ensures var r := TrimEnd(s);
            && r == s[..|r|]
            && (|r| > 0 ==> !IsTrimmable(r[|r| - 1]))
            && AllTrimmable(s[|r|..])
  {
    if |s| > 0 && IsTrimmable(s[|s| - 1]) {
      var t := s[..|s| - 1];
      TrimEndShape(t);
      var n := |TrimEnd(s)|;
      assert t[..n] == s[..n];
      forall k | 0 <= k < |s| - n
        ensures IsTrimmable(s[n..][k])
      {
        if n + k < |s| - 1 {
          assert s[n..][k] == t[n..][k];
        }
      }
    }
  }

  /** `r` is the slice of `s` starting at `i` with only trimmable chars around it. */
  predicate TrimmedAt(s: string, r: string, i: nat) {
    && i + |r| <= |s|
    && r == s[i..i + |r|]
    && AllTrimmable(s[..i])
    && AllTrimmable(s[i + |r|..])
  }

  /** Java's `String.trim`. */
  function Trim(s: string): (r: string)
    ensures |r| <= |s|
  {
    TrimEnd(TrimStart(s))
  }

  /** `Trim` keeps a slice of `s` that neither starts nor ends with a trimmable
      char, and removes only trimmable chars around it. */
  lemma TrimShape(s: string)
    ensures var r := Trim(s);
            && TrimmedAt(s, r, |s| - |TrimStart(s)|)
            && (|r| > 0 ==> !IsTrimmable(r[0]) && !IsTrimmable(r[|r| - 1]))
  {
    var t := TrimStart(s);
    var r := Trim(s);
    var i := |s| - |t|;
    TrimStartShape(s);
    TrimEndShape(t);
    assert s[i..][..|r|] == s[i..i + |r|];
    assert s[i + |r|..] == t[|r|..];
  }

  /** `s.trim().equals("")` holds exactly when every char of `s` is trimmable. */
  lemma TrimEmptyIffBlank(s: string)
    ensures Trim(s) == "" <==> AllTrimmable(s)
  {
    var r := Trim(s);
    var t := TrimStart(s);
    var i := |s| - |t|;
    TrimShape(s);
    TrimStartShape(s);
    TrimEndShape(t);
    if r == "" {
      // a non-empty TrimStart result begins with a char TrimEnd keeps
      assert t == "";
      assert s[..i] == s;
    } else {
      assert r[0] == s[i];
      assert !IsTrimmable(s[i]);
    }
  }

  /** Trimming twice is trimming once. */
  lemma TrimIdempotent(s: string)
    ensures Trim(Trim(s)) == Trim(s)
  {
    var r := Trim(s);
    TrimShape(s);
    assert TrimStart(r) == r by {
      if |r| > 0 {
        assert !IsTrimmable(r[0]);
      }
    }
    assert TrimEnd(r) == r by {
      if |r| > 0 {
        assert !IsTrimmable(r[|r| - 1]);
      }
    }
  }

  // --------------------------------------------------------------------- split

  /** No char of `s` is `c`. */
  predicate Lacks(s: string, c: char) {
    forall j :: 0 <= j < |s| ==> s[j] != c
  }

  /** First position of `c` in `s`, or `|s|` when there is none (where Java's
      `indexOf` answers -1). */
  function IndexOf(s: string, c: char): (k: nat)
    ensures k <= |s|
    ensures k < |s| ==> s[k] == c
    ensures forall j :: 0 <= j < k ==> s[j] != c
  {
    if |s| == 0 || s[0] == c then 0 else 1 + IndexOf(s[1..], c)
  }

  /** Concatenates `parts` with `sep` between consecutive parts. */
  function Join(parts: seq<string>, sep: char): (s: string)
  {
    if |parts| == 0 then ""
    else if |parts| == 1 then parts[0]
    else parts[0] + [sep] + Join(parts[1..], sep)
  }

  /** Every piece of `s` between separators, empty pieces included:
      one more piece than there are separators. */
  function Segments(s: string, sep: char): (r: seq<string>)
    ensures |r| >= 1
    decreases |s|
  {
    var k := IndexOf(s, sep);
    if k == |s| then [s] else [s[..k]] + Segments(s[k + 1..], sep)
  }

  /** No piece holds a separator. */
  lemma SegmentsHaveNoSeparator(s: string, sep: char)
    ensures var r := Segments(s, sep);
            forall i :: 0 <= i < |r| ==> Lacks(r[i], sep)
  {
    forall i | 0 <= i < |Segments(s, sep)|
      ensures Lacks(Segments(s, sep)[i], sep)
    {
      SegmentLacksSeparator(s, sep, i);
    }
  }

  lemma {:induction false} SegmentLacksSeparator(s: string, sep: char, i: nat)
    requires i < |Segments(s, sep)|
    ensures Lacks(Segments(s, sep)[i], sep)
    decreases |s|
  {
    var k := IndexOf(s, sep);
    if k < |s| {
      var rest := Segments(s[k + 1..], sep);
      assert Segments(s, sep) == [s[..k]] + rest;
      if i > 0 {
        SegmentLacksSeparator(s[k + 1..], sep, i - 1);
      }
    }
  }

  /** Joining the pieces restores `s`. */
  lemma {:induction false} SegmentsJoin(s: string, sep: char)
    ensures Join(Segments(s, sep), sep) == s
    decreases |s|
  {
    var k := IndexOf(s, sep);
    if k < |s| {
      var head, tail := s[..k], s[k + 1..];
      SegmentsJoin(tail, sep);
      var rest := Segments(tail, sep);
      assert Segments(s, sep) == [head] + rest;
      JoinCons(head, rest, sep);
      SliceAround(s, k);
    }
  }

  /** Cutting `s` around position `k` and gluing the pieces gives `s` back. */
  lemma SliceAround(s: string, k: nat)
    requires k < |s|
    ensures s == s[..k] + [s[k]] + s[k + 1..]
  {
  }

  /** Joining a head in front of a non-empty list puts one separator between them. */
  lemma JoinCons(head: string, rest: seq<string>, sep: char)
    requires |rest| >= 1
    ensures Join([head] + rest, sep) == head + [sep] + Join(rest, sep)
  {
    assert ([head] + rest)[1..] == rest;
  }

  /** The first separator of `a + [sep] + t` is the one after `a` when `a` has none. */
  lemma IndexOfAfterPrefix(a: string, t: string, sep: char)
    requires Lacks(a, sep)
    ensures IndexOf(a + [sep] + t, sep) == |a|
  {
    var s := a + [sep] + t;
    assert s[|a|] == sep;
    assert forall j :: 0 <= j < |a| ==> s[j] == a[j];
  }

  /** Splitting a join of separator-free parts gives the parts back. */
  lemma {:induction false} SegmentsOfJoin(parts: seq<string>, sep: char)
    requires |parts| >= 1
    requires forall i :: 0 <= i < |parts| ==> Lacks(parts[i], sep)
    ensures Segments(Join(parts, sep), sep) == parts
    decreases |parts|
  {
    if |parts| == 1 {
      var s := parts[0];
      assert IndexOf(s, sep) == |s|;
    } else {
      var a, tail := parts[0], Join(parts[1..], sep);
      var s := a + [sep] + tail;
      assert Join(parts, sep) == s;
      IndexOfAfterPrefix(a, tail, sep);
      assert s[..|a|] == a;
      assert s[|a| + 1..] == tail;
      assert Segments(s, sep) == [a] + Segments(tail, sep);
      SegmentsOfJoin(parts[1..], sep);
      assert parts == [a] + parts[1..];
    }
  }

  /** Removes the run of trailing empty strings, as `split` with limit 0 does. */
  function DropTrailingEmpty(parts: seq<string>): (r: seq<string>)
    ensures |r| <= |parts|
  {
    if |parts| > 0 && parts[|parts| - 1] == "" then DropTrailingEmpty(parts[..|parts| - 1])
    else parts
  }

  /** `DropTrailingEmpty` keeps a prefix that does not end in an empty string and
      drops only empty strings. */
  lemma {:induction false} DropTrailingEmptyShape(parts: seq<string>)
    ensures var r := DropTrailingEmpty(parts);
            && r == parts[..|r|]
            && (forall i :: |r| <= i < |parts| ==> parts[i] == "")
            && (|r| > 0 ==> r[|r| - 1] != "")
  {
    if |parts| > 0 && parts[|parts| - 1] == "" {
      var t := parts[..|parts| - 1];
      DropTrailingEmptyShape(t);
      var n := |DropTrailingEmpty(parts)|;
      assert t[..n] == parts[..n];
      forall i | n <= i < |parts|
        ensures parts[i] == ""
      {
        if i < |parts| - 1 {
          assert parts[i] == t[i];
        }
      }
    }
  }

  /** Java's `s.split(String.valueOf(sep))`: when the separator never occurs the
      result is `[s]` unchanged (so `"".split(",")` is `[""]`); otherwise all
      pieces are kept except the trailing empty ones. */
  function Split(s: string, sep: char): (r: seq<string>)
    ensures Lacks(s, sep) ==> r == [s]
    ensures |r| <= |Segments(s, sep)|
  {
    if Lacks(s, sep) then [s] else DropTrailingEmpty(Segments(s, sep))
  }

  /** `Split` keeps the separator-free pieces of `s` in order, dropping only a
      tail of empty pieces, and what it keeps does not end in an empty piece. */
  lemma SplitShape(s: string, sep: char)
    ensures var all := Segments(s, sep);
            var r := Split(s, sep);
            && r == all[..|r|]
            && (forall i :: 0 <= i < |r| ==> Lacks(r[i], sep))
            && (!Lacks(s, sep) ==> forall i :: |r| <= i < |all| ==> all[i] == "")
            && (!Lacks(s, sep) && |r| > 0 ==> r[|r| - 1] != "")
  {
    SegmentsHaveNoSeparator(s, sep);
    if !Lacks(s, sep) {
      DropTrailingEmptyShape(Segments(s, sep));
    }
  }

  /** Dropped pieces are exactly the empty tail: joining what `Split` keeps
      and appending one separator per dropped piece restores `s`. */
  lemma SplitRestores(s: string, sep: char)
    requires !Lacks(s, sep)
    ensures var r := Split(s, sep);
            var dropped := |Segments(s, sep)| - |r|;
            |r| > 0 ==> Join(r, sep) + Repeat(sep, dropped) == s
  {
    var all := Segments(s, sep);
    var r := DropTrailingEmpty(all);
    assert Split(s, sep) == r;
    DropTrailingEmptyShape(all);
    SegmentsJoin(s, sep);
    if |r| > 0 {
      var n := |all| - |r|;
      EmptyTail(all, |r|);
      assert all == r + Empties(n);
      JoinEmptyTail(r, n, sep);
      assert Join(all, sep) == Join(r, sep) + Repeat(sep, n);
    }
  }

  /** A sequence whose elements from `n` on are empty is its first `n` elements
      followed by that many empties. */
  lemma EmptyTail(all: seq<string>, n: nat)
    requires n <= |all|
    requires forall i :: n <= i < |all| ==> all[i] == ""
    ensures all == all[..n] + Empties(|all| - n)
  {
    EmptiesAt(|all| - n);
    assert all[n..] == Empties(|all| - n);
    assert all == all[..n] + all[n..];
  }

  function Repeat(c: char, n: nat): (r: string)
    ensures |r| == n
    ensures forall i :: 0 <= i < n ==> r[i] == c
  {
    if n == 0 then "" else [c] + Repeat(c, n - 1)
  }

  function Empties(n: nat): (r: seq<string>)
    ensures |r| == n
  {
    if n == 0 then [] else [""] + Empties(n - 1)
  }

  lemma {:induction false} EmptiesAt(n: nat)
    ensures forall i :: 0 <= i < n ==> Empties(n)[i] == ""
  {
    if n > 0 {
      EmptiesAt(n - 1);
      assert forall i :: 1 <= i < n ==> Empties(n)[i] == Empties(n - 1)[i - 1];
    }
  }

  /** Joining with `n` empty parts appended adds `n` separators. */
  lemma {:induction false} JoinEmptyTail(parts: seq<string>, n: nat, sep: char)
    requires |parts| > 0
    ensures Join(parts + Empties(n), sep) == Join(parts, sep) + Repeat(sep, n)
    decreases |parts| + n
  {
    if |parts| > 1 {
      assert (parts + Empties(n))[1..] == parts[1..] + Empties(n);
      JoinEmptyTail(parts[1..], n, sep);
    } else if n > 0 {
      var e := Empties(n);
      assert parts + e == [parts[0]] + e;
      assert (parts + e)[1..] == e;
      assert e == [""] + Empties(n - 1);
      JoinEmptyTail([""], n - 1, sep);
      assert [""] + Empties(n - 1) == e;
      assert Join([""], sep) == "";
      assert Repeat(sep, n) == [sep] + Repeat(sep, n - 1);
    }
  }
}
