/** Replacing every occurrence of a pattern in a text, left to right and without overlap. */
module Replacing {

  ghost predicate OccursAt(s: string, v: string, i: nat) {
    i + |v| <= |s| && s[i..i + |v|] == v
  }

  ghost predicate Occurs(s: string, v: string) {
    exists i: nat :: OccursAt(s, v, i)
  }

  /** The pattern that matches exactly `t`. */
  function Is(t: string): string -> bool {
    x => x == t
  }

  /** Replace what `hit` matches, where a match has `n` characters. */
  function ReplaceAll(s: string, n: nat, hit: string -> bool, r: string): string
    requires n > 0
    decreases |s|
  {
    if |s| < n then s
    else if hit(s[..n]) then r + ReplaceAll(s[n..], n, hit, r)
    else [s[0]] + ReplaceAll(s[1..], n, hit, r)
  }

  function Count(s: string, n: nat, hit: string -> bool): nat
    requires n > 0
    decreases |s|
  {
    if |s| < n then 0 else if hit(s[..n]) then 1 + Count(s[n..], n, hit) else Count(s[1..], n, hit)
  }

  /** The number of characters before the first match, or all of them. */
  function BeforeFirst(s: string, n: nat, hit: string -> bool): (m: nat)
    requires n > 0
    ensures m <= |s|
    decreases |s|
  {
    if |s| < n then |s| else if hit(s[..n]) then 0 else 1 + BeforeFirst(s[1..], n, hit)
  }

  /** Laid over `r` from its position `k`, `v` differs from it somewhere. */
  ghost predicate ClashAt(v: string, r: string, k: int) {
    exists j :: 0 <= j < |v| && 0 <= k + j < |r| && v[j] != r[k + j]
  }

  /** However `v` overlaps `r`, the two differ in the overlap. */
  ghost predicate Clashes(v: string, r: string) {
    forall k :: -|v| < k < |r| ==> ClashAt(v, r, k)
  }

  lemma SliceOfRest(s: string, k: nat, i: nat, n: nat)
    requires k + i + n <= |s|
    ensures s[k..][i..i + n] == s[k + i..k + i + n]
  {
  }

  lemma {:induction false} LiteralPrefix(s: string, n: nat, hit: string -> bool, r: string)
    requires n > 0
    ensures var m, text := BeforeFirst(s, n, hit), ReplaceAll(s, n, hit, r);
            && m <= |text| && text[..m] == s[..m]
            && (m < |s| ==> m + |r| <= |text| && text[m..m + |r|] == r)
            && (m == |s| ==> text == s)
    decreases |s|
  {
    if |s| < n {
    } else if hit(s[..n]) {
    } else {
      LiteralPrefix(s[1..], n, hit, r);
      var m, rest := BeforeFirst(s[1..], n, hit), ReplaceAll(s[1..], n, hit, r);
      var text := [s[0]] + rest;
      assert text[..m + 1] == [s[0]] + rest[..m];
      assert s[..m + 1] == [s[0]] + s[1..][..m];
      if m < |s[1..]| {
        assert text[1..] == rest;
        SliceOfRest(text, 1, m, |r|);
      }
    }
  }

  lemma ShiftedOccurrence(head: string, tail: string, v: string, i: nat)
    requires OccursAt(head + tail, v, i) && i >= |head|
    ensures OccursAt(tail, v, i - |head|)
  {
    assert (head + tail)[|head|..] == tail;
    SliceOfRest(head + tail, |head|, i - |head|, |v|);
  }

  lemma TailOccurrence(s: string, k: nat, v: string)
    requires k <= |s| && Occurs(s[k..], v)
    ensures Occurs(s, v)
  {
    var i: nat :| OccursAt(s[k..], v, i);
    SliceOfRest(s, k, i, |v|);
    assert OccursAt(s, v, k + i);
  }

  lemma DiffersAt(s: string, v: string, i: nat, j: nat)
    requires j < |v| && i + j < |s| && v[j] != s[i + j]
    ensures !OccursAt(s, v, i)
  {
    if i + |v| <= |s| { assert s[i..i + |v|][j] == s[i + j]; }
  }

  lemma ClashPrevents(text: string, m: nat, r: string, v: string, i: nat)
    requires m + |r| <= |text| && text[m..m + |r|] == r
    requires Clashes(v, r) && -|v| < i - m < |r|
    ensures !OccursAt(text, v, i)
  {
    var k := i - m;
    assert ClashAt(v, r, k);
    var j :| 0 <= j < |v| && 0 <= k + j < |r| && v[j] != r[k + j];
    assert text[m..m + |r|][k + j] == text[i + j];
    DiffersAt(text, v, i, j);
  }

  /** No occurrence of `v` can overlap a copy of `r` that stands at `m`. */
  lemma NoOverlap(text: string, m: nat, r: string, v: string, i: nat)
    requires m + |r| <= |text| && text[m..m + |r|] == r
    requires Clashes(v, r) && OccursAt(text, v, i)
    ensures i + |v| <= m || i >= m + |r|
  {
    if -|v| < i - m < |r| { ClashPrevents(text, m, r, v, i); }
  }

  /**
   What the replaced text contains and no replacement can be part of was in the text before, and is
   not itself a match.
  */
  lemma {:induction false} OnlyOldTextRemains(s: string, n: nat, hit: string -> bool, r: string, v: string, i: nat)
    requires n > 0 && v != "" && r != "" && Clashes(v, r)
    requires OccursAt(ReplaceAll(s, n, hit, r), v, i)
    ensures Occurs(s, v) && !(|v| == n && hit(v))
    decreases |s|
  {
    var text := ReplaceAll(s, n, hit, r);
    if |s| < n {
    } else if hit(s[..n]) {
      var rest := ReplaceAll(s[n..], n, hit, r);
      assert text[..|r|] == r;
      NoOverlap(text, 0, r, v, i);
      ShiftedOccurrence(r, rest, v, i);
      OnlyOldTextRemains(s[n..], n, hit, r, v, i - |r|);
      TailOccurrence(s, n, v);
    } else if i > 0 {
      ShiftedOccurrence([s[0]], ReplaceAll(s[1..], n, hit, r), v, i);
      OnlyOldTextRemains(s[1..], n, hit, r, v, i - 1);
      TailOccurrence(s, 1, v);
    } else {
      LiteralPrefix(s, n, hit, r);
      var m := BeforeFirst(s, n, hit);
      if m < |s| { NoOverlap(text, m, r, v, 0); }
      assert s[..|v|] == text[..m][..|v|] == v;
      assert OccursAt(s, v, 0);
    }
  }

  /** Nothing to find, nothing changed; and conversely the count sees every occurrence. */
  lemma {:induction false} CountsIffOccurs(s: string, t: string, r: string)
    requires t != ""
    ensures Count(s, |t|, Is(t)) > 0 <==> Occurs(s, t)
    ensures Count(s, |t|, Is(t)) == 0 ==> ReplaceAll(s, |t|, Is(t), r) == s
    decreases |s|
  {
    if |s| < |t| {
    } else if s[..|t|] == t {
      assert OccursAt(s, t, 0);
    } else {
      CountsIffOccurs(s[1..], t, r);
      if Occurs(s, t) {
        var i: nat :| OccursAt(s, t, i);
        assert s == [s[0]] + s[1..];
        ShiftedOccurrence([s[0]], s[1..], t, i);
      }
      if Occurs(s[1..], t) { TailOccurrence(s, 1, t); }
    }
  }

  /** Positions at which `t` occurs, none of them overlapping the one before. */
  ghost predicate ApartHits(s: string, t: string, at: seq<nat>) {
    && (forall i | 0 <= i < |at| :: OccursAt(s, t, at[i]))
    && (forall i, j | 0 <= i < j < |at| :: at[i] + |t| <= at[j])
  }

  lemma EarlierHits(s: string, k: nat, t: string, at: seq<nat>)
    requires k <= |s| && ApartHits(s, t, at) && forall i | 0 <= i < |at| :: at[i] >= k
    ensures ApartHits(s[k..], t, seq(|at|, i requires 0 <= i < |at| => at[i] - k))
  {
    forall i | 0 <= i < |at| ensures OccursAt(s[k..], t, at[i] - k) {
      assert OccursAt(s, t, at[i]);
      SliceOfRest(s, k, at[i] - k, |t|);
    }
  }

  /** Going from left to right finds as many occurrences without overlap as there can be. */
  lemma {:induction false} NoChoiceFindsMore(s: string, t: string, at: seq<nat>)
    requires t != "" && ApartHits(s, t, at)
    ensures |at| <= Count(s, |t|, Is(t))
    decreases |s|
  {
    hide ApartHits;
    if at != [] {
      FirstHit(s, t, at);
      if s[..|t|] == t {
        EarlierHits(s, |t|, t, at[1..]);
        NoChoiceFindsMore(s[|t|..], t, seq(|at[1..]|, i requires 0 <= i < |at[1..]| => at[1..][i] - |t|));
      } else {
        EarlierHits(s, 1, t, at);
        NoChoiceFindsMore(s[1..], t, seq(|at|, i requires 0 <= i < |at| => at[i] - 1));
      }
    }
  }

  lemma FirstHit(s: string, t: string, at: seq<nat>)
    requires t != "" && ApartHits(s, t, at) && at != []
    ensures |t| <= |s| && ApartHits(s, t, at[1..])
    ensures forall i | 0 <= i < |at[1..]| :: at[1..][i] >= |t|
    ensures s[..|t|] != t ==> forall i | 0 <= i < |at| :: at[i] >= 1
  {
    assert OccursAt(s, t, at[0]);
    forall i | 0 <= i < |at| && s[..|t|] != t ensures at[i] >= 1 { assert OccursAt(s, t, at[i]); }
  }

  /** And it does find that many. */
  lemma {:induction false} CountIsReached(s: string, t: string) returns (at: seq<nat>)
    requires t != ""
    ensures ApartHits(s, t, at) && |at| == Count(s, |t|, Is(t))
    decreases |s|
  {
    hide OccursAt;
    if |s| < |t| {
      at := [];
    } else {
      var n := if s[..|t|] == t then |t| else 1;
      var rest := CountIsReached(s[n..], t);
      LaterHits(s, n, t, rest);
      var later := seq(|rest|, i requires 0 <= i < |rest| => rest[i] + n);
      at := if s[..|t|] == t then [0] + later else later;
      FrontHit(s, t);
    }
  }

  lemma FrontHit(s: string, t: string)
    requires |t| <= |s|
    ensures s[..|t|] == t ==> OccursAt(s, t, 0)
  {
  }

  lemma LaterHits(s: string, k: nat, t: string, at: seq<nat>)
    requires k <= |s| && ApartHits(s[k..], t, at)
    ensures ApartHits(s, t, seq(|at|, i requires 0 <= i < |at| => at[i] + k))
  {
    forall i | 0 <= i < |at| ensures OccursAt(s, t, at[i] + k) {
      assert OccursAt(s[k..], t, at[i]);
      SliceOfRest(s, k, at[i], |t|);
    }
  }

  /** The count is the largest number of occurrences that do not overlap. */
  lemma CountIsTheMost(s: string, t: string)
    requires t != ""
    ensures exists at :: ApartHits(s, t, at) && |at| == Count(s, |t|, Is(t))
    ensures forall at :: ApartHits(s, t, at) ==> |at| <= Count(s, |t|, Is(t))
  {
    hide ApartHits, Count;
    var best := CountIsReached(s, t);
    forall at | ApartHits(s, t, at) ensures |at| <= Count(s, |t|, Is(t)) { NoChoiceFindsMore(s, t, at); }
  }

  lemma OneMore(c: nat, d: int)
    ensures (1 + c) * d == d + c * d
  {
  }

  /** Each replacement changes the length by the same amount. */
  lemma {:induction false} LengthCountsReplacements(s: string, n: nat, hit: string -> bool, r: string)
    requires n > 0
    ensures |ReplaceAll(s, n, hit, r)| == |s| + Count(s, n, hit) * (|r| - n)
    decreases |s|
  {
    if |s| < n {
    } else if hit(s[..n]) {
      LengthCountsReplacements(s[n..], n, hit, r);
      OneMore(Count(s[n..], n, hit), |r| - n);
    } else {
      LengthCountsReplacements(s[1..], n, hit, r);
    }
  }

  // ----------------------------------------------------------- replacing side by side

  /** Laid end to end, `a` and `b` have no occurrence of `v` across the seam. */
  ghost predicate NoStraddle(a: string, b: string, v: string) {
    forall i: nat | i < |a| < i + |v| :: !OccursAt(a + b, v, i)
  }

  lemma NoStraddleInRest(a: string, k: nat, b: string, v: string)
    requires k <= |a| && NoStraddle(a, b, v)
    ensures NoStraddle(a[k..], b, v)
  {
    forall i: nat | i < |a[k..]| < i + |v| ensures !OccursAt(a[k..] + b, v, i) {
      assert !OccursAt(a + b, v, k + i);
      if i + |v| <= |a[k..] + b| { assert (a[k..] + b)[i..i + |v|] == (a + b)[k + i..k + i + |v|]; }
    }
  }

  // The three ways a replacement begins.

  lemma ShortUnfolds(s: string, n: nat, hit: string -> bool, r: string)
    requires 0 < n && |s| < n
    ensures ReplaceAll(s, n, hit, r) == s && BeforeFirst(s, n, hit) == |s|
  {
  }

  lemma HitUnfolds(s: string, n: nat, hit: string -> bool, r: string)
    requires 0 < n <= |s| && hit(s[..n])
    ensures ReplaceAll(s, n, hit, r) == r + ReplaceAll(s[n..], n, hit, r) && BeforeFirst(s, n, hit) == 0
  {
  }

  lemma MissUnfolds(s: string, n: nat, hit: string -> bool, r: string)
    requires 0 < n <= |s| && !hit(s[..n])
    ensures ReplaceAll(s, n, hit, r) == [s[0]] + ReplaceAll(s[1..], n, hit, r)
  {
  }

  /** With no occurrence across the seam, the two parts are replaced independently. */
  lemma {:induction false} ReplacedApart(a: string, b: string, t: string, r: string)
    requires t != "" && NoStraddle(a, b, t)
    ensures ReplaceAll(a + b, |t|, Is(t), r) == ReplaceAll(a, |t|, Is(t), r) + ReplaceAll(b, |t|, Is(t), r)
    decreases |a|
  {
    hide ReplaceAll, BeforeFirst, NoStraddle;
    var n, rb := |t|, ReplaceAll(b, |t|, Is(t), r);
    if a == "" {
      ShortUnfolds(a, n, Is(t), r);
      assert a + b == b && a + rb == rb;
    } else if |a + b| < n {
      ShortUnfolds(a + b, n, Is(t), r);
      ShortUnfolds(a, n, Is(t), r);
      ShortUnfolds(b, n, Is(t), r);
    } else if (a + b)[..n] == t {
      MatchIsInside(a, b, t);
      assert a[..n] == (a + b)[..n] && (a + b)[n..] == a[n..] + b;
      NoStraddleInRest(a, n, b, t);
      ReplacedApart(a[n..], b, t, r);
      HitUnfolds(a, n, Is(t), r);
      HitUnfolds(a + b, n, Is(t), r);
      assert r + (ReplaceAll(a[n..], n, Is(t), r) + rb) == r + ReplaceAll(a[n..], n, Is(t), r) + rb;
    } else {
      assert (a + b)[1..] == a[1..] + b && (a + b)[0] == a[0];
      NoStraddleInRest(a, 1, b, t);
      ReplacedApart(a[1..], b, t, r);
      MissUnfolds(a + b, n, Is(t), r);
      MissInFront(a, b, t, r);
      assert [a[0]] + (ReplaceAll(a[1..], n, Is(t), r) + rb) == [a[0]] + ReplaceAll(a[1..], n, Is(t), r) + rb;
    }
  }

  lemma MatchIsInside(a: string, b: string, t: string)
    requires a != "" && t != "" && NoStraddle(a, b, t) && |t| <= |a + b| && (a + b)[..|t|] == t
    ensures |t| <= |a|
  {
    assert OccursAt(a + b, t, 0);
  }

  lemma MissInFront(a: string, b: string, t: string, r: string)
    requires a != "" && 0 < |t| <= |a + b| && (a + b)[..|t|] != t
    ensures ReplaceAll(a, |t|, Is(t), r) == [a[0]] + ReplaceAll(a[1..], |t|, Is(t), r)
  {
    if |a| < |t| {
      assert a == [a[0]] + a[1..];
    } else {
      assert a[..|t|] == (a + b)[..|t|];
    }
  }

  /** An occurrence within a common prefix is one in both texts. */
  lemma SamePrefixSameOccurrence(s: string, t: string, m: nat, v: string, i: nat)
    requires m <= |s| && m <= |t| && s[..m] == t[..m] && i + |v| <= m && OccursAt(s, v, i)
    ensures OccursAt(t, v, i)
  {
    assert s[i..i + |v|] == s[..m][i..i + |v|];
    assert t[i..i + |v|] == t[..m][i..i + |v|];
  }

  /** In front of a replaced text, only literal text can be part of an occurrence that begins before it. */
  lemma StraddlesLiterally(a: string, b: string, n: nat, hit: string -> bool, r: string, v: string, i: nat)
    requires n > 0 && Clashes(v, r) && r != ""
    requires i < |a| < i + |v| && OccursAt(a + ReplaceAll(b, n, hit, r), v, i)
    ensures !NoStraddle(a, b, v)
  {
    hide ReplaceAll, BeforeFirst, Clashes;
    var y := ReplaceAll(b, n, hit, r);
    LiteralPrefix(b, n, hit, r);
    var m := BeforeFirst(b, n, hit);
    if m < |b| {
      assert (a + y)[|a| + m..|a| + m + |r|] == y[m..m + |r|];
      NoOverlap(a + y, |a| + m, r, v, i);
    }
    assert i + |v| <= |a| + m;
    assert (a + y)[..|a| + m] == a + y[..m] == a + b[..m] == (a + b)[..|a| + m];
    SamePrefixSameOccurrence(a + y, a + b, |a| + m, v, i);
  }

  lemma StraddleInWhole(a: string, k: nat, b: string, v: string)
    requires k <= |a| && !NoStraddle(a[k..], b, v)
    ensures !NoStraddle(a, b, v)
  {
    if NoStraddle(a, b, v) { NoStraddleInRest(a, k, b, v); }
  }

  lemma WithinTheFirst(a: string, b: string, k: nat, n: nat)
    requires k + n <= |a|
    ensures (a + b)[k..k + n] == a[k..k + n]
  {
  }

  /** Replacement brings nothing across the seam that was not across it before. */
  lemma {:induction false} StraddledBefore(
      a: string, b: string, n: nat, hit: string -> bool, r: string, v: string, i: nat)
    requires n > 0 && Clashes(v, r) && r != ""
    requires var x := ReplaceAll(a, n, hit, r);
             i < |x| < i + |v| && OccursAt(x + ReplaceAll(b, n, hit, r), v, i)
    ensures !NoStraddle(a, b, v)
    decreases |a|
  {
    hide ReplaceAll, BeforeFirst, Clashes, OccursAt, NoStraddle;
    var x, y := ReplaceAll(a, n, hit, r), ReplaceAll(b, n, hit, r);
    LiteralPrefix(a, n, hit, r);
    var m := BeforeFirst(a, n, hit);
    if |a| < n { ShortUnfolds(a, n, hit, r); }
    if m == |a| {
      StraddlesLiterally(a, b, n, hit, r, v, i);
    } else if hit(a[..n]) {
      HitUnfolds(a, n, hit, r);
      var rest := ReplaceAll(a[n..], n, hit, r);
      assert x + y == r + (rest + y) && (x + y)[0..0 + |r|] == r;
      NoOverlap(x + y, 0, r, v, i);
      ShiftedOccurrence(r, rest + y, v, i);
      StraddledBefore(a[n..], b, n, hit, r, v, i - |r|);
      StraddleInWhole(a, n, b, v);
    } else if i > 0 {
      MissUnfolds(a, n, hit, r);
      var rest := ReplaceAll(a[1..], n, hit, r);
      assert x + y == [a[0]] + (rest + y);
      ShiftedOccurrence([a[0]], rest + y, v, i);
      StraddledBefore(a[1..], b, n, hit, r, v, i - 1);
      StraddleInWhole(a, 1, b, v);
    } else {
      WithinTheFirst(x, y, m, |r|);
      NoOverlap(x + y, m, r, v, 0);
    }
  }

  lemma StaysApart(a: string, b: string, n: nat, hit: string -> bool, r: string, v: string)
    requires n > 0 && Clashes(v, r) && r != "" && NoStraddle(a, b, v)
    ensures NoStraddle(ReplaceAll(a, n, hit, r), ReplaceAll(b, n, hit, r), v)
  {
    var x, y := ReplaceAll(a, n, hit, r), ReplaceAll(b, n, hit, r);
    forall i: nat | i < |x| < i + |v| ensures !OccursAt(x + y, v, i) {
      if OccursAt(x + y, v, i) { StraddledBefore(a, b, n, hit, r, v, i); }
    }
  }
}
