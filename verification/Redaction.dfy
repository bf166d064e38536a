/** Redacting credential values from raw evidence, longest value first. */
module Redaction {
  import opened Replacing

  datatype Cred = Cred(name: string, value: string)

  function Token(c: Cred): string {
    "[REDACTED:" + c.name + "]"
  }

  function RedactOne(data: string, c: Cred): string
    requires c.value != ""
  {
    ReplaceAll(data, |c.value|, Is(c.value), Token(c))
  }

  predicate NonEmpty(creds: seq<Cred>) {
    forall i | 0 <= i < |creds| :: creds[i].value != ""
  }

  function RedactAll(data: string, creds: seq<Cred>): string
    requires NonEmpty(creds)
    decreases |creds|
  {
    if creds == [] then data
    else
      assert NonEmpty(creds[1..]);
      RedactAll(RedactOne(data, creds[0]), creds[1..])
  }

  /** A value cannot be part of any token. */
  ghost predicate Separable(creds: seq<Cred>) {
    forall c, d | c in creds && d in creds :: Clashes(c.value, Token(d))
  }

  /** Values without square brackets that no token contains are separable. */
  lemma BracketFreeClashes(v: string, c: Cred)
    requires v != "" && '[' !in v && ']' !in v && !Occurs(Token(c), v)
    ensures Clashes(v, Token(c))
  {
    var r := Token(c);
    assert r[0] == '[' && r[|r| - 1] == ']';
    forall k | -|v| < k < |r| ensures ClashAt(v, r, k) {
      if k <= 0 {
        assert v[-k] in v && v[-k] != r[k - k];
      } else if k + |v| >= |r| {
        assert v[|r| - 1 - k] in v && v[|r| - 1 - k] != r[k + (|r| - 1 - k)];
      } else {
        assert !OccursAt(r, v, k);
        var part := r[k..k + |v|];
        var j :| 0 <= j < |v| && part[j] != v[j];
        assert part[j] == r[k + j];
      }
    }
  }

  lemma BracketFreeIsSeparable(creds: seq<Cred>)
    requires NonEmpty(creds)
    requires forall c <- creds :: '[' !in c.value && ']' !in c.value
    requires forall c, d | c in creds && d in creds :: !Occurs(Token(d), c.value)
    ensures Separable(creds)
  {
    forall c, d | c in creds && d in creds ensures Clashes(c.value, Token(d)) { BracketFreeClashes(c.value, d); }
  }

  /** No value can be part of its own token, or of one that is put in after it was replaced. */
  ghost predicate SeparableInOrder(creds: seq<Cred>) {
    forall i, j | 0 <= i <= j < |creds| :: Clashes(creds[i].value, Token(creds[j]))
  }

  lemma SeparableInAnyOrder(creds: seq<Cred>)
    requires Separable(creds)
    ensures SeparableInOrder(creds)
  {
    forall i, j | 0 <= i <= j < |creds| ensures Clashes(creds[i].value, Token(creds[j])) {
      assert creds[i] in creds && creds[j] in creds;
    }
  }

  lemma {:induction false} NoneAppears(data: string, creds: seq<Cred>, v: string)
    requires NonEmpty(creds) && v != "" && forall d <- creds :: Clashes(v, Token(d))
    requires Occurs(RedactAll(data, creds), v)
    ensures Occurs(data, v)
    decreases |creds|
  {
    if creds == [] {
    } else {
      var c, mid := creds[0], RedactOne(data, creds[0]);
      NoneAppears(mid, creds[1..], v);
      var i: nat :| OccursAt(mid, v, i);
      OnlyOldTextRemains(data, |c.value|, Is(c.value), Token(c), v, i);
    }
  }

  lemma ReplacedIsGone(data: string, c: Cred)
    requires c.value != "" && Clashes(c.value, Token(c))
    ensures !Occurs(RedactOne(data, c), c.value)
  {
    forall i: nat ensures !OccursAt(RedactOne(data, c), c.value, i) {
      if OccursAt(RedactOne(data, c), c.value, i) {
        OnlyOldTextRemains(data, |c.value|, Is(c.value), Token(c), c.value, i);
      }
    }
  }

  /** No credential value is left, whatever the data, when none can be part of its own or a later token. */
  lemma {:induction false} NoCredentialRemains(data: string, creds: seq<Cred>, k: nat)
    requires NonEmpty(creds) && SeparableInOrder(creds) && k < |creds|
    ensures !Occurs(RedactAll(data, creds), creds[k].value)
    decreases |creds|
  {
    var mid := RedactOne(data, creds[0]);
    if k > 0 {
      assert SeparableInOrder(creds[1..]);
      NoCredentialRemains(mid, creds[1..], k - 1);
    } else {
      var v := creds[0].value;
      ReplacedIsGone(data, creds[0]);
      forall d | d in creds[1..] ensures Clashes(v, Token(d)) {
        var j :| 0 <= j < |creds[1..]| && creds[1..][j] == d;
        assert creds[j + 1] == d;
      }
      if Occurs(RedactAll(mid, creds[1..]), v) { NoneAppears(mid, creds[1..], v); }
    }
  }

  ghost predicate LongestFirst(creds: seq<Cred>) {
    forall i, j | 0 <= i < j < |creds| :: |creds[i].value| >= |creds[j].value|
  }

  lemma TooLong(s: string, t: string)
    requires |t| >= |s| && t != s
    ensures !Occurs(s, t)
  {
    forall i: nat ensures !OccursAt(s, t, i) {
      if i + |t| <= |s| { assert s[i..i + |t|] == s; }
    }
  }

  lemma {:induction false} NothingToDo(data: string, creds: seq<Cred>)
    requires NonEmpty(creds) && forall c <- creds :: !Occurs(data, c.value)
    ensures RedactAll(data, creds) == data
    decreases |creds|
  {
    if creds == [] {
    } else {
      CountsIffOccurs(data, creds[0].value, Token(creds[0]));
      NothingToDo(data, creds[1..]);
    }
  }

  /** Alone in the data a value becomes its token, once the shorter ones leave the token as it is. */
  lemma {:induction false} AloneItBecomesItsToken(creds: seq<Cred>, k: nat)
    requires NonEmpty(creds) && LongestFirst(creds) && k < |creds|
    requires forall i | 0 <= i < k :: creds[i].value != creds[k].value
    requires forall l | k < l < |creds| :: !Occurs(Token(creds[k]), creds[l].value)
    ensures RedactAll(creds[k].value, creds) == Token(creds[k])
    decreases |creds|
  {
    var c, v := creds[0], creds[k].value;
    if k > 0 {
      TooLong(v, c.value);
      CountsIffOccurs(v, c.value, Token(c));
      AloneItBecomesItsToken(creds[1..], k - 1);
    } else {
      assert v[|v|..] == "" && v[..|v|] == v;
      assert ReplaceAll("", |v|, Is(v), Token(c)) == "";
      assert RedactOne(v, c) == Token(c) + "" == Token(c);
      forall d | d in creds[1..] ensures !Occurs(Token(c), d.value) {
        var l :| 0 <= l < |creds[1..]| && creds[1..][l] == d;
        assert creds[l + 1] == d;
      }
      NothingToDo(Token(c), creds[1..]);
    }
  }

  /** Distinct values without square brackets, longest first, no shorter one part of a longer one's token. */
  ghost predicate Plain(creds: seq<Cred>) {
    && NonEmpty(creds) && LongestFirst(creds)
    && (forall i | 0 <= i < |creds| :: '[' !in creds[i].value && ']' !in creds[i].value)
    && (forall i, j | 0 <= i < j < |creds| :: creds[i].value != creds[j].value)
    && (forall j, l | 0 <= j < l < |creds| :: !Occurs(Token(creds[j]), creds[l].value))
  }

  /**
   For such values the condition is also necessary: nothing is left of any value, in all data, if and only
   if no value is part of its own token or of the token of a shorter one.
  */
  lemma NoCredentialRemainsIff(creds: seq<Cred>)
    requires Plain(creds)
    ensures (forall data, k: nat | k < |creds| :: !Occurs(RedactAll(data, creds), creds[k].value)) <==>
            (forall i, j | 0 <= i <= j < |creds| :: !Occurs(Token(creds[j]), creds[i].value))
  {
    if forall i, j | 0 <= i <= j < |creds| :: !Occurs(Token(creds[j]), creds[i].value) {
      forall i, j | 0 <= i <= j < |creds| ensures Clashes(creds[i].value, Token(creds[j])) {
        BracketFreeClashes(creds[i].value, creds[j]);
      }
      forall data, k: nat | k < |creds| ensures !Occurs(RedactAll(data, creds), creds[k].value) {
        NoCredentialRemains(data, creds, k);
      }
    } else {
      var i, j :| 0 <= i <= j < |creds| && Occurs(Token(creds[j]), creds[i].value);
      AloneItBecomesItsToken(creds, j);
      assert Occurs(RedactAll(creds[j].value, creds), creds[i].value);
    }
  }

  /** The value "RED" is part of its own token, and stays. */
  lemma AValueInItsTokenStays()
    ensures var creds := [Cred("A", "RED")];
            RedactAll("RED", creds) == "[REDACTED:A]" && Occurs(RedactAll("RED", creds), "RED")
  {
    var creds := [Cred("A", "RED")];
    AloneItBecomesItsToken(creds, 0);
    assert Token(creds[0]) == "[REDACTED:A]";
    assert OccursAt("[REDACTED:A]", "RED", 1);
  }

  /** No value occurs across either end of the middle part. */
  ghost predicate Apart(pre: string, mid: string, post: string, v: string) {
    NoStraddle(pre, mid + post, v) && NoStraddle(pre + mid, post, v)
  }

  lemma ApartAtTheEnd(pre: string, mid: string, post: string, v: string)
    requires NoStraddle(pre + mid, post, v)
    ensures NoStraddle(mid, post, v)
  {
    NoStraddleInRest(pre + mid, |pre|, post, v);
    assert (pre + mid)[|pre|..] == mid;
  }

  /** One replacement treats the three parts independently, and keeps them apart for every other value. */
  lemma OneReplacementApart(pre: string, mid: string, post: string, c: Cred, v: string)
    requires c.value != "" && Apart(pre, mid, post, c.value)
    ensures RedactOne(pre + mid + post, c) == RedactOne(pre, c) + RedactOne(mid, c) + RedactOne(post, c)
    ensures Clashes(v, Token(c)) && Apart(pre, mid, post, v) ==>
              Apart(RedactOne(pre, c), RedactOne(mid, c), RedactOne(post, c), v)
  {
    var t, r := c.value, Token(c);
    assert pre + mid + post == pre + (mid + post);
    ApartAtTheEnd(pre, mid, post, t);
    ReplacedApart(pre, mid + post, t, r);
    ReplacedApart(mid, post, t, r);
    BeforeTheEndApart(pre, mid, post, t);
    ReplacedApart(pre, mid, t, r);
    if Clashes(v, r) && Apart(pre, mid, post, v) {
      StaysApart(pre, mid + post, |t|, Is(t), r, v);
      StaysApart(pre + mid, post, |t|, Is(t), r, v);
    }
  }

  lemma BeforeTheEndApart(pre: string, mid: string, post: string, v: string)
    requires NoStraddle(pre, mid + post, v)
    ensures NoStraddle(pre, mid, v)
  {
    forall i: nat | i < |pre| < i + |v| ensures !OccursAt(pre + mid, v, i) {
      assert !OccursAt(pre + (mid + post), v, i);
      if i + |v| <= |pre + mid| {
        assert (pre + mid)[i..i + |v|] == (pre + (mid + post))[i..i + |v|];
      }
    }
  }

  lemma {:induction false} RedactedApart(pre: string, mid: string, post: string, creds: seq<Cred>)
    requires NonEmpty(creds) && Separable(creds) && forall c <- creds :: Apart(pre, mid, post, c.value)
    ensures RedactAll(pre + mid + post, creds) == RedactAll(pre, creds) + RedactAll(mid, creds) + RedactAll(post, creds)
    decreases |creds|
  {
    if creds == [] {
    } else {
      var c := creds[0];
      assert c in creds;
      forall d | d in creds
        ensures Apart(RedactOne(pre, c), RedactOne(mid, c), RedactOne(post, c), d.value)
      {
        OneReplacementApart(pre, mid, post, c, d.value);
      }
      OneReplacementApart(pre, mid, post, c, c.value);
      assert Separable(creds[1..]) by { assert forall d <- creds[1..] :: d in creds; }
      RedactedApart(RedactOne(pre, c), RedactOne(mid, c), RedactOne(post, c), creds[1..]);
    }
  }

  /**
   Longest first, a value is replaced whole by its own token wherever it stands, even when other values
   are parts of it: what is before and after it is redacted as if it stood alone. No listed value may
   straddle an end of the occurrence.
  */
  lemma AValueBecomesItsToken(pre: string, post: string, creds: seq<Cred>, k: nat)
    requires NonEmpty(creds) && LongestFirst(creds) && Separable(creds) && k < |creds|
    requires forall i | 0 <= i < k :: creds[i].value != creds[k].value
    requires forall c <- creds :: Apart(pre, creds[k].value, post, c.value)
    ensures RedactAll(pre + creds[k].value + post, creds)
         == RedactAll(pre, creds) + Token(creds[k]) + RedactAll(post, creds)
  {
    forall l | k < l < |creds| ensures !Occurs(Token(creds[k]), creds[l].value) {
      assert creds[l] in creds && creds[k] in creds;
      ClashMeansAbsent(creds[l].value, Token(creds[k]));
    }
    AloneItBecomesItsToken(creds, k);
    RedactedApart(pre, creds[k].value, post, creds);
  }

  lemma ClashMeansAbsent(v: string, r: string)
    requires v != "" && Clashes(v, r)
    ensures !Occurs(r, v)
  {
    forall i: nat ensures !OccursAt(r, v, i) {
      if i < |r| { ClashPrevents(r, 0, r, v, i); }
    }
  }

  /** Shortest first, part of the longer value would stay. */
  lemma ShortestFirstLeavesAFragment()
    ensures RedactAll("ab", [Cred("A", "a"), Cred("B", "ab")]) == "[REDACTED:A]b"
  {
    var creds := [Cred("A", "a"), Cred("B", "ab")];
    var mid := RedactOne("ab", creds[0]);
    assert "ab"[..1] == "a" && "ab"[1..] == "b" && "b"[..1] == "b" && "b"[1..] == "";
    assert mid == "[REDACTED:A]b" by {
      assert ReplaceAll("", 1, Is("a"), Token(creds[0])) == "";
      assert ReplaceAll("b", 1, Is("a"), Token(creds[0])) == "b";
    }
    assert mid == ['[', 'R', 'E', 'D', 'A', 'C', 'T', 'E', 'D', ':', 'A', ']', 'b'];
    forall i: nat ensures !OccursAt(mid, "ab", i) {
      if i < 13 { DiffersAt(mid, "ab", i, 0); }
    }
    CountsIffOccurs(mid, "ab", Token(creds[1]));
    assert creds[1..] == [creds[1]] && creds[1..][1..] == [];
    assert RedactAll(mid, creds[1..]) == RedactAll(RedactOne(mid, creds[1]), []);
  }

  /** What the replacements add to the length: each count times the difference its token makes. */
  function Growth(data: string, creds: seq<Cred>): int
    requires NonEmpty(creds)
    decreases |creds|
  {
    if creds == [] then 0
    else
      assert NonEmpty(creds[1..]);
      var c := creds[0];
      Count(data, |c.value|, Is(c.value)) * (|Token(c)| - |c.value|) + Growth(RedactOne(data, c), creds[1..])
  }

  lemma {:induction false} CountsAccountForTheLength(data: string, creds: seq<Cred>)
    requires NonEmpty(creds)
    ensures |RedactAll(data, creds)| == |data| + Growth(data, creds)
    decreases |creds|
  {
    if creds == [] {
    } else {
      var c := creds[0];
      LengthCountsReplacements(data, |c.value|, Is(c.value), Token(c));
      CountsAccountForTheLength(RedactOne(data, c), creds[1..]);
    }
  }

  /** The running totals per name. */
  function Tally(data: string, creds: seq<Cred>, counts: map<string, nat>): map<string, nat>
    requires NonEmpty(creds)
    decreases |creds|
  {
    if creds == [] then counts
    else
      assert NonEmpty(creds[1..]);
      var c := creds[0];
      var found := Count(data, |c.value|, Is(c.value));
      Tally(RedactOne(data, c), creds[1..], if found == 0 then counts else Add(counts, c.name, found))
  }

  function Add(counts: map<string, nat>, name: string, found: nat): map<string, nat> {
    counts[name := (if name in counts then counts[name] else 0) + found]
  }

  function Total(counts: map<string, nat>, name: string): nat {
    if name in counts then counts[name] else 0
  }

  /** How often the values listed under a name are found, each in what the ones before it left. */
  function FoundUnder(data: string, creds: seq<Cred>, name: string): nat
    requires NonEmpty(creds)
    decreases |creds|
  {
    if creds == [] then 0
    else
      assert NonEmpty(creds[1..]);
      var c := creds[0];
      (if c.name == name then Count(data, |c.value|, Is(c.value)) else 0) + FoundUnder(RedactOne(data, c), creds[1..], name)
  }

  /** Each name's total grows by what was found under it, and only names under which something was found appear. */
  lemma {:induction false} TallySays(data: string, creds: seq<Cred>, counts: map<string, nat>, name: string)
    requires NonEmpty(creds)
    ensures Total(Tally(data, creds, counts), name) == Total(counts, name) + FoundUnder(data, creds, name)
    ensures name in Tally(data, creds, counts) <==> name in counts || FoundUnder(data, creds, name) > 0
    decreases |creds|
  {
    if creds == [] {
    } else {
      var c := creds[0];
      assert NonEmpty(creds[1..]);
      var found := Count(data, |c.value|, Is(c.value));
      TallySays(RedactOne(data, c), creds[1..], if found == 0 then counts else Add(counts, c.name, found), name);
    }
  }

  /** What totals per name say about the change in length. */
  function GrowthBy(totals: map<string, nat>, creds: seq<Cred>): int {
    if creds == [] then 0
    else Total(totals, creds[0].name) * (|Token(creds[0])| - |creds[0].value|) + GrowthBy(totals, creds[1..])
  }

  ghost predicate DistinctNames(creds: seq<Cred>) {
    forall i, j | 0 <= i < j < |creds| :: creds[i].name != creds[j].name
  }

  lemma {:induction false} NothingUnderOtherNames(data: string, creds: seq<Cred>, name: string)
    requires NonEmpty(creds) && forall i | 0 <= i < |creds| :: creds[i].name != name
    ensures FoundUnder(data, creds, name) == 0
    decreases |creds|
  {
    if creds != [] { NothingUnderOtherNames(RedactOne(data, creds[0]), creds[1..], name); }
  }

  lemma {:induction false} GrowthByName(data: string, creds: seq<Cred>, totals: map<string, nat>)
    requires NonEmpty(creds) && DistinctNames(creds)
    requires forall c <- creds :: Total(totals, c.name) == FoundUnder(data, creds, c.name)
    ensures GrowthBy(totals, creds) == Growth(data, creds)
    decreases |creds|
  {
    if creds == [] {
    } else {
      var mid, rest := RedactOne(data, creds[0]), creds[1..];
      NothingUnderOtherNames(mid, rest, creds[0].name);
      assert creds[0] in creds;
      forall c | c in rest ensures Total(totals, c.name) == FoundUnder(mid, rest, c.name) {
        assert c in creds && c.name != creds[0].name;
      }
      GrowthByName(mid, rest, totals);
    }
  }

  /** Under distinct names, the totals alone tell by how much the redaction changed the length. */
  lemma TotalsAccountForTheLength(data: string, creds: seq<Cred>)
    requires NonEmpty(creds) && DistinctNames(creds)
    ensures |RedactAll(data, creds)| == |data| + GrowthBy(Tally(data, creds, map[]), creds)
  {
    forall c | c in creds ensures Total(Tally(data, creds, map[]), c.name) == FoundUnder(data, creds, c.name) {
      TallySays(data, creds, map[], c.name);
    }
    GrowthByName(data, creds, Tally(data, creds, map[]));
    CountsAccountForTheLength(data, creds);
  }

  /** `sorted(..., key=-len)`: stable, longest first. */
  function ByLength(creds: seq<Cred>): seq<Cred> {
    if creds == [] then [] else Insert(ByLength(creds[..|creds| - 1]), creds[|creds| - 1])
  }

  function Insert(sorted: seq<Cred>, c: Cred): seq<Cred> {
    if sorted == [] || |c.value| > |sorted[0].value| then [c] + sorted
    else [sorted[0]] + Insert(sorted[1..], c)
  }

  /** The credentials whose value has the given length, in order. */
  function OfLength(creds: seq<Cred>, n: nat): seq<Cred> {
    if creds == [] then [] else (if |creds[0].value| == n then [creds[0]] else []) + OfLength(creds[1..], n)
  }

  lemma {:induction false} OfLengthSnoc(creds: seq<Cred>, c: Cred, n: nat)
    ensures OfLength(creds + [c], n) == OfLength(creds, n) + if |c.value| == n then [c] else []
    decreases |creds|
  {
    if creds == [] {
      assert OfLength([c][1..], n) == [];
    } else {
      assert (creds + [c])[1..] == creds[1..] + [c];
      OfLengthSnoc(creds[1..], c, n);
    }
  }

  lemma {:induction false} NoneOfLength(creds: seq<Cred>, n: nat)
    requires forall i | 0 <= i < |creds| :: |creds[i].value| < n
    ensures OfLength(creds, n) == []
    decreases |creds|
  {
    if creds != [] { NoneOfLength(creds[1..], n); }
  }

  lemma {:induction false} InsertSays(sorted: seq<Cred>, c: Cred)
    requires LongestFirst(sorted)
    ensures LongestFirst(Insert(sorted, c))
    ensures forall d :: d in Insert(sorted, c) <==> d in sorted || d == c
    ensures |Insert(sorted, c)| == |sorted| + 1
    decreases |sorted|
  {
    if sorted == [] || |c.value| > |sorted[0].value| {
    } else {
      var rest := Insert(sorted[1..], c);
      InsertSays(sorted[1..], c);
      forall i | 0 <= i < |rest| ensures |rest[i].value| <= |sorted[0].value| { assert rest[i] in rest; }
    }
  }

  lemma {:induction false} ByLengthSays(creds: seq<Cred>)
    ensures LongestFirst(ByLength(creds)) && |ByLength(creds)| == |creds|
    ensures forall d :: d in ByLength(creds) <==> d in creds
    decreases |creds|
  {
    if creds == [] {
    } else {
      var front, last := creds[..|creds| - 1], creds[|creds| - 1];
      ByLengthSays(front);
      InsertSays(ByLength(front), last);
      assert forall d :: d in creds <==> d in front || d == last;
    }
  }

  lemma {:induction false} InsertKeepsOrder(sorted: seq<Cred>, c: Cred, n: nat)
    requires LongestFirst(sorted)
    ensures OfLength(Insert(sorted, c), n) == OfLength(sorted, n) + if |c.value| == n then [c] else []
    decreases |sorted|
  {
    if sorted == [] || |c.value| > |sorted[0].value| {
      if |c.value| == n { NoneOfLength(sorted, n); }
      assert ([c] + sorted)[1..] == sorted;
    } else {
      InsertKeepsOrder(sorted[1..], c, n);
      assert ([sorted[0]] + Insert(sorted[1..], c))[1..] == Insert(sorted[1..], c);
    }
  }

  /** The sort is stable and loses nothing: of every length the same credentials, in the same order. */
  lemma {:induction false} SortIsStable(creds: seq<Cred>, n: nat)
    ensures OfLength(ByLength(creds), n) == OfLength(creds, n)
    decreases |creds|
  {
    if creds == [] {
    } else {
      var front, last := creds[..|creds| - 1], creds[|creds| - 1];
      ByLengthSays(front);
      SortIsStable(front, n);
      InsertKeepsOrder(ByLength(front), last, n);
      OfLengthSnoc(front, last, n);
      assert creds == front + [last];
      hide OfLength, Insert;
    }
  }

  method Redact(data: string, secrets: seq<Cred>, counts: map<string, nat>)
    returns (redacted: string, totals: map<string, nat>)
    requires NonEmpty(secrets)
    ensures NonEmpty(ByLength(secrets))
    ensures redacted == RedactAll(data, ByLength(secrets))
    ensures totals == Tally(data, ByLength(secrets), counts)
    ensures Separable(secrets) || SeparableInOrder(ByLength(secrets)) ==> forall c <- secrets :: !Occurs(redacted, c.value)
  {
    var creds := ByLength(secrets);
    SortedKeeps(secrets);
    redacted, totals := data, counts;
    var i := 0;
    while i < |creds|
      invariant 0 <= i <= |creds| && NonEmpty(creds[i..])
      invariant RedactAll(redacted, creds[i..]) == RedactAll(data, creds)
      invariant Tally(redacted, creds[i..], totals) == Tally(data, creds, counts)
    {
      var c := creds[i];
      assert creds[i..][1..] == creds[i + 1..] && creds[i..][0] == c;
      var found := Count(redacted, |c.value|, Is(c.value));
      CountsIffOccurs(redacted, c.value, Token(c));
      if found > 0 {
        redacted := ReplaceAll(redacted, |c.value|, Is(c.value), Token(c));
        totals := Add(totals, c.name, found);
      }
      i := i + 1;
    }
    if Separable(creds) { SeparableInAnyOrder(creds); }
    if SeparableInOrder(creds) {
      forall c | c in secrets ensures !Occurs(redacted, c.value) {
        var k :| 0 <= k < |creds| && creds[k] == c;
        NoCredentialRemains(data, creds, k);
      }
    }
  }

  lemma SortedKeeps(secrets: seq<Cred>)
    requires NonEmpty(secrets)
    ensures NonEmpty(ByLength(secrets))
    ensures forall c :: c in secrets <==> c in ByLength(secrets)
    ensures Separable(secrets) ==> Separable(ByLength(secrets))
  {
    var creds := ByLength(secrets);
    ByLengthSays(secrets);
    forall i | 0 <= i < |creds| ensures creds[i].value != "" {
      assert creds[i] in secrets;
    }
  }
}
