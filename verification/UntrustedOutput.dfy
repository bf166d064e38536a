/** Wrapping the output of an untrusted tool so that it cannot pose as its own delimiter. */
module UntrustedOutput {
  import opened Replacing

  const REDACTED := "[redacted-delimiter]"
  const DELIMITER := "untrusted-data"
  const DEFUSED := "untrusted_data"

  function LowerChar(c: char): char {
    if 'A' <= c <= 'Z' then c + 32 as char else c
  }

  function Lower(s: string): string {
    seq(|s|, i requires 0 <= i < |s| => LowerChar(s[i]))
  }

  /** Some letter-case variant of the delimiter word. */
  predicate LooksLikeDelimiter(s: string) {
    Lower(s) == DELIMITER
  }

  function Neutralise(body: string, nonce: string): string
    requires nonce != ""
  {
    ReplaceAll(ReplaceAll(body, |nonce|, Is(nonce), REDACTED), 14, LooksLikeDelimiter, DEFUSED)
  }

  function Wrap(source: string, body: string, nonce: string): string
    requires nonce != ""
  {
    "<untrusted-data id=\"" + nonce + "\" source=\"" + source + "\">" + "\n" + Neutralise(body, nonce) + "\n"
    + "</untrusted-data id=\"" + nonce + "\">"
  }

  predicate HexDigit(c: char) {
    '0' <= c <= '9' || 'a' <= c <= 'f'
  }

  /** Nine random bytes in hexadecimal. */
  predicate IsNonce(nonce: string) {
    |nonce| == 18 && forall i | 0 <= i < 18 :: HexDigit(nonce[i])
  }

  lemma VariantChars(v: string, j: nat)
    requires LooksLikeDelimiter(v) && j < 14
    ensures |v| == 14 && LowerChar(v[j]) == DELIMITER[j]
  {
    assert Lower(v)[j] == LowerChar(v[j]);
  }

  lemma VariantClashes(v: string)
    requires LooksLikeDelimiter(v)
    ensures |v| == 14 && Clashes(v, DEFUSED)
  {
    VariantChars(v, 0);
    forall k | -14 < k < 14 ensures ClashAt(v, DEFUSED, k) {
      var j := if k == 0 then 9 else if k == 4 then 1 else if k > 0 then 0 else if k == -4 then 5 else -k;
      VariantChars(v, j);
      DefusedChars(k, j);
      assert LowerChar(DEFUSED[k + j]) == DEFUSED[k + j];
    }
  }

  lemma DefusedChars(k: int, j: nat)
    requires -14 < k < 14
    requires j == if k == 0 then 9 else if k == 4 then 1 else if k > 0 then 0 else if k == -4 then 5 else -k
    ensures j < 14 && 0 <= k + j < 14 && DELIMITER[j] != DEFUSED[k + j]
  {
    assert DELIMITER == ['u', 'n', 't', 'r', 'u', 's', 't', 'e', 'd', '-', 'd', 'a', 't', 'a'];
    assert DEFUSED == ['u', 'n', 't', 'r', 'u', 's', 't', 'e', 'd', '_', 'd', 'a', 't', 'a'];
  }

  /** A variant is the word with each character as it is or as its capital. */
  lemma VariantIff(v: string)
    ensures LooksLikeDelimiter(v) <==>
              |v| == 14 && forall j | 0 <= j < 14 :: v[j] == "untrusted-data"[j] || v[j] == "UNTRUSTED-DATA"[j]
  {
    var small, capital := "untrusted-data", "UNTRUSTED-DATA";
    assert small == ['u', 'n', 't', 'r', 'u', 's', 't', 'e', 'd', '-', 'd', 'a', 't', 'a'];
    assert capital == ['U', 'N', 'T', 'R', 'U', 'S', 'T', 'E', 'D', '-', 'D', 'A', 'T', 'A'];
    if |v| == 14 {
      forall j | 0 <= j < 14 ensures LowerChar(v[j]) == small[j] <==> v[j] == small[j] || v[j] == capital[j] {
        LowerIff(v[j], j);
      }
      if forall j | 0 <= j < 14 :: LowerChar(v[j]) == small[j] { assert Lower(v) == small; }
      if LooksLikeDelimiter(v) { forall j | 0 <= j < 14 ensures LowerChar(v[j]) == small[j] { VariantChars(v, j); } }
    }
  }

  lemma LowerIff(c: char, j: nat)
    requires j < 14
    ensures LowerChar(c) == "untrusted-data"[j] <==> c == "untrusted-data"[j] || c == "UNTRUSTED-DATA"[j]
  {
    assert "untrusted-data" == ['u', 'n', 't', 'r', 'u', 's', 't', 'e', 'd', '-', 'd', 'a', 't', 'a'];
    assert "UNTRUSTED-DATA" == ['U', 'N', 'T', 'R', 'U', 'S', 'T', 'E', 'D', '-', 'D', 'A', 'T', 'A'];
    if 'A' <= c <= 'Z' { assert LowerChar(c) as int == c as int + 32; }
  }

  lemma {:induction false} NothingHitNothingChanged(s: string, n: nat, hit: string -> bool, r: string)
    requires n > 0 && forall v | Occurs(s, v) && |v| == n :: !hit(v)
    ensures ReplaceAll(s, n, hit, r) == s
    decreases |s|
  {
    if |s| >= n {
      assert OccursAt(s, s[..n], 0);
      forall v | Occurs(s[1..], v) && |v| == n ensures !hit(v) { TailOccurrence(s, 1, v); }
      NothingHitNothingChanged(s[1..], n, hit, r);
    }
  }

  lemma WrapHolds(source: string, body: string, nonce: string)
    requires nonce != ""
    ensures var opening := 20 + |nonce| + 10 + |source| + 2;
            var text, inner := Wrap(source, body, nonce), Neutralise(body, nonce);
            |text| > opening + 1 + |inner| && text[opening + 1..opening + 1 + |inner|] == inner
  {
    hide Neutralise;
    var head := "<untrusted-data id=\"" + nonce + "\" source=\"" + source + "\">" + "\n";
    var tail := "\n" + "</untrusted-data id=\"" + nonce + "\">";
    assert |head| == 20 + |nonce| + 10 + |source| + 3;
    assert Wrap(source, body, nonce) == head + Neutralise(body, nonce) + tail;
    InTheMiddle(head, Neutralise(body, nonce), tail);
  }

  lemma InTheMiddle(a: string, b: string, c: string)
    ensures (a + b + c)[|a|..|a| + |b|] == b
  {
  }

  /** A body with neither the nonce nor a variant of the word is passed on unchanged, between the delimiters. */
  lemma AHarmlessBodyIsUnchanged(source: string, body: string, nonce: string)
    requires nonce != "" && !Occurs(body, nonce) && forall v | Occurs(body, v) :: !LooksLikeDelimiter(v)
    ensures Neutralise(body, nonce) == body
    ensures var opening := 20 + |nonce| + 10 + |source| + 2;
            var text := Wrap(source, body, nonce);
            |text| > opening + 1 + |body| && text[opening + 1..opening + 1 + |body|] == body
  {
    HarmlessIsKept(body, nonce);
    WrapHolds(source, body, nonce);
    hide Neutralise, Wrap;
  }

  lemma HarmlessIsKept(body: string, nonce: string)
    requires nonce != "" && !Occurs(body, nonce) && forall v | Occurs(body, v) :: !LooksLikeDelimiter(v)
    ensures Neutralise(body, nonce) == body
  {
    CountsIffOccurs(body, nonce, REDACTED);
    NothingHitNothingChanged(body, 14, LooksLikeDelimiter, DEFUSED);
    hide ReplaceAll, Count;
  }

  /** No letter-case variant of the delimiter word is left in any neutralised body. */
  lemma NoDelimiterRemains(body: string, nonce: string, v: string)
    requires nonce != "" && LooksLikeDelimiter(v)
    ensures !Occurs(Neutralise(body, nonce), v)
  {
    VariantClashes(v);
    if Occurs(Neutralise(body, nonce), v) {
      var i: nat :| OccursAt(Neutralise(body, nonce), v, i);
      OnlyOldTextRemains(ReplaceAll(body, |nonce|, Is(nonce), REDACTED), 14, LooksLikeDelimiter, DEFUSED, v, i);
    }
  }

  /** In the wrapped text only the two real delimiters look like one. */
  lemma OnlyTheDelimitersRemain(source: string, body: string, nonce: string, i: nat)
    requires nonce != "" && i + 14 <= |Wrap(source, body, nonce)|
    requires LooksLikeDelimiter(Wrap(source, body, nonce)[i..i + 14])
    ensures var opening := 20 + |nonce| + 10 + |source| + 2;
            i < opening || i >= opening + 1 + |Neutralise(body, nonce)| + 1
  {
    hide Neutralise, LooksLikeDelimiter;
    var open := "<untrusted-data id=\"" + nonce + "\" source=\"" + source + "\">";
    var close := "</untrusted-data id=\"" + nonce + "\">";
    var inner := Neutralise(body, nonce);
    var text, v := Wrap(source, body, nonce), Wrap(source, body, nonce)[i..i + 14];
    assert text == open + "\n" + inner + "\n" + close;
    var a, b := |open|, |open| + 1 + |inner|;
    assert text[a] == '\n' && text[b] == '\n';
    if a <= i <= b {
      if i <= a < i + 14 { NewlineIsNoPart(v, a - i); }
      if i <= b < i + 14 { NewlineIsNoPart(v, b - i); }
      assert text[a + 1..b] == inner;
      assert inner[i - a - 1..i - a - 1 + 14] == text[a + 1..b][i - a - 1..i - a - 1 + 14] == v;
      assert OccursAt(inner, v, i - a - 1);
      NoDelimiterRemains(body, nonce, v);
    }
  }

  lemma NewlineIsNoPart(v: string, j: nat)
    requires LooksLikeDelimiter(v) && j < 14
    ensures |v| == 14 && v[j] != '\n'
  {
    VariantChars(v, j);
    assert DELIMITER == ['u', 'n', 't', 'r', 'u', 's', 't', 'e', 'd', '-', 'd', 'a', 't', 'a'];
  }

  // ----------------------------------------------------------------------- the nonce

  lemma NonceClashesWithRedacted(nonce: string)
    requires IsNonce(nonce)
    ensures Clashes(nonce, REDACTED)
  {
    assert REDACTED == ['[', 'r', 'e', 'd', 'a', 'c', 't', 'e', 'd', '-', 'd', 'e', 'l', 'i', 'm', 'i', 't', 'e', 'r', ']'];
    forall k | -18 < k < 20 ensures ClashAt(nonce, REDACTED, k) {
      var j := if k <= 0 then -k else if k <= 1 then 0 else 19 - k;
      assert HexDigit(nonce[j]) && !HexDigit(REDACTED[k + j]);
    }
  }

  lemma NonceClashesWithDefused(nonce: string)
    requires IsNonce(nonce) && nonce[0] != 'a'
    ensures Clashes(nonce, DEFUSED)
  {
    assert DEFUSED == ['u', 'n', 't', 'r', 'u', 's', 't', 'e', 'd', '_', 'd', 'a', 't', 'a'];
    forall k | -18 < k < 14 ensures ClashAt(nonce, DEFUSED, k) {
      var j := if k <= 0 then -k else if k == 13 then 0 else 12 - k;
      assert HexDigit(nonce[j]);
    }
  }

  lemma NonceStaysOut(body: string, nonce: string)
    requires IsNonce(nonce) && nonce[0] != 'a'
    ensures !Occurs(Neutralise(body, nonce), nonce)
  {
    NonceClashesWithRedacted(nonce);
    NonceClashesWithDefused(nonce);
    var mid := ReplaceAll(body, |nonce|, Is(nonce), REDACTED);
    if Occurs(Neutralise(body, nonce), nonce) {
      var i: nat :| OccursAt(Neutralise(body, nonce), nonce, i);
      OnlyOldTextRemains(mid, 14, LooksLikeDelimiter, DEFUSED, nonce, i);
      var k: nat :| OccursAt(mid, nonce, k);
      OnlyOldTextRemains(body, |nonce|, Is(nonce), REDACTED, nonce, k);
    }
  }

  /** The body that gets a nonce beginning with 'a' through: its delimiter word ends in a capital. */
  function Smuggled(nonce: string): string
    requires nonce != ""
  {
    "untrusted-datA" + nonce[1..]
  }

  lemma NonceGetsThrough(nonce: string)
    requires IsNonce(nonce) && nonce[0] == 'a'
    ensures Occurs(Neutralise(Smuggled(nonce), nonce), nonce)
  {
    var body := Smuggled(nonce);
    assert body[..14] == "untrusted-datA";
    SmuggledHasNoNonce(nonce);
    CountsIffOccurs(body, nonce, REDACTED);
    assert Lower(body[..14]) == DELIMITER;
    assert Neutralise(body, nonce) == DEFUSED + ReplaceAll(body[14..], 14, LooksLikeDelimiter, DEFUSED);
    assert body[14..] == nonce[1..];
    HexHasNoDelimiter(nonce[1..]);
    var text := DEFUSED + nonce[1..];
    assert text[13] == 'a';
    assert text[13..13 + 18] == nonce;
    assert OccursAt(text, nonce, 13);
  }

  lemma SmuggledHasNoNonce(nonce: string)
    requires IsNonce(nonce)
    ensures !Occurs(Smuggled(nonce), nonce)
  {
    var body := Smuggled(nonce);
    assert |body| == 31 && body[13] == 'A';
    forall i: nat ensures !OccursAt(body, nonce, i) {
      if i <= 13 { DiffersAt(body, nonce, i, 13 - i); }
    }
  }

  lemma OtherStart(v: string)
    requires v != "" && LowerChar(v[0]) != 'u'
    ensures !LooksLikeDelimiter(v)
  {
    assert Lower(v)[0] == LowerChar(v[0]);
  }

  lemma {:induction false} HexHasNoDelimiter(s: string)
    requires forall i | 0 <= i < |s| :: HexDigit(s[i])
    ensures ReplaceAll(s, 14, LooksLikeDelimiter, DEFUSED) == s
    decreases |s|
  {
    if |s| < 14 {
    } else {
      assert HexDigit(s[0]);
      OtherStart(s[..14]);
      HexHasNoDelimiter(s[1..]);
    }
  }

  /**
   The nonce stays out of every neutralised body exactly when it does not begin with 'a': the second
   replacement can turn a capital A into the first character of the nonce.
  */
  lemma NonceStaysOutIff(nonce: string)
    requires IsNonce(nonce)
    ensures (forall body :: !Occurs(Neutralise(body, nonce), nonce)) <==> nonce[0] != 'a'
  {
    if nonce[0] == 'a' {
      NonceGetsThrough(nonce);
    } else {
      forall body ensures !Occurs(Neutralise(body, nonce), nonce) { NonceStaysOut(body, nonce); }
    }
  }
}
