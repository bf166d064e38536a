/** The text form of a session epoch: `String(n)` and `parseSessionEpoch`. */
module EpochText {
  import opened Maybe

  /** Number.MAX_SAFE_INTEGER. */
  const MAX_SAFE: nat := 9_007_199_254_740_991

  predicate IsDigit(c: char) {
    '0' <= c <= '9'
  }

  /** The characters that `Number.parseInt` skips at the start of its argument. */
  predicate IsSpace(c: char) {
    || '\U{9}' <= c <= '\U{D}' || c == ' ' || c == '\U{A0}' || c == '\U{1680}'
    || '\U{2000}' <= c <= '\U{200A}' || c == '\U{2028}' || c == '\U{2029}'
    || c == '\U{202F}' || c == '\U{205F}' || c == '\U{3000}' || c == '\U{FEFF}'
  }

  function DigitOf(c: char): nat
    requires IsDigit(c)
  {
    (c - '0') as nat
  }

  function CharOf(d: nat): char
    requires d < 10
  {
    '0' + d as char
  }

  function TrimStart(s: string): string {
    if s != "" && IsSpace(s[0]) then TrimStart(s[1..]) else s
  }

  /** The value of the leading digits of `s`, appended to the digits read so far. */
  function LeadingDigits(s: string, acc: nat): nat {
    if s != "" && IsDigit(s[0]) then LeadingDigits(s[1..], 10 * acc + DigitOf(s[0])) else acc
  }

  /** `Number.parseInt(s, 10)`, with None for NaN. */
  function ParseInt(s: string): Option<int> {
    var t := TrimStart(s);
    var negative := t != "" && t[0] == '-';
    var u := if t != "" && (t[0] == '-' || t[0] == '+') then t[1..] else t;
    if u == "" || !IsDigit(u[0]) then None
    else
      var value: int := LeadingDigits(u, 0);
      Some(if negative then -value else value)
  }

  /** Absent, non-numeric, negative and unsafe values all read as 0. */
  function ParseEpoch(raw: Option<string>): nat {
    match raw
    case None => 0
    case Some(s) =>
      var n := ParseInt(s);
      if n.Some? && 0 <= n.value <= MAX_SAFE then n.value else 0
  }

  function Print(n: nat): string {
    if n < 10 then [CharOf(n)] else Print(n / 10) + [CharOf(n % 10)]
  }

  lemma {:induction false} PrintIsDigits(n: nat)
    ensures Print(n) != "" && forall i | 0 <= i < |Print(n)| :: IsDigit(Print(n)[i])
  {
    if n < 10 {
    } else {
      PrintIsDigits(n / 10);
    }
  }

  lemma {:induction false} LeadingDigitsSnoc(s: string, c: char, acc: nat)
    requires (forall i | 0 <= i < |s| :: IsDigit(s[i])) && IsDigit(c)
    ensures LeadingDigits(s + [c], acc) == 10 * LeadingDigits(s, acc) + DigitOf(c)
    decreases |s|
  {
    if s == "" {
      assert LeadingDigits([c], acc) == LeadingDigits([c][1..], 10 * acc + DigitOf(c));
    } else {
      assert (s + [c])[1..] == s[1..] + [c];
      LeadingDigitsSnoc(s[1..], c, 10 * acc + DigitOf(s[0]));
    }
  }

  lemma {:induction false} DigitsOfPrint(n: nat)
    ensures LeadingDigits(Print(n), 0) == n
  {
    if n < 10 {
      assert LeadingDigits(Print(n), 0) == LeadingDigits(Print(n)[1..], n);
    } else {
      PrintIsDigits(n / 10);
      DigitsOfPrint(n / 10);
      LeadingDigitsSnoc(Print(n / 10), CharOf(n % 10), 0);
    }
  }

  /** Reading back a written epoch gives it back, except that an unsafe one reads as 0. */
  lemma EpochRoundTrip(n: nat)
    ensures ParseEpoch(Some(Print(n))) == if n <= MAX_SAFE then n else 0
  {
    PrintIsDigits(n);
    DigitsOfPrint(n);
    assert TrimStart(Print(n)) == Print(n);
  }

  ghost predicate Spaces(s: string) {
    forall c <- s :: IsSpace(c)
  }

  lemma {:induction false} TrimDropsSpaces(spaces: string, rest: string)
    requires Spaces(spaces) && (rest == "" || !IsSpace(rest[0]))
    ensures TrimStart(spaces + rest) == rest
    decreases |spaces|
  {
    if spaces == "" {
      assert spaces + rest == rest;
    } else {
      assert IsSpace(spaces[0]);
      assert (spaces + rest)[1..] == spaces[1..] + rest;
      TrimDropsSpaces(spaces[1..], rest);
    }
  }

  lemma {:induction false} JunkEndsTheNumber(digits: string, junk: string, acc: nat)
    requires (forall c <- digits :: IsDigit(c)) && (junk == "" || !IsDigit(junk[0]))
    ensures LeadingDigits(digits + junk, acc) == LeadingDigits(digits, acc)
    decreases |digits|
  {
    if digits == "" {
      assert digits + junk == junk;
    } else {
      assert IsDigit(digits[0]);
      assert (digits + junk)[1..] == digits[1..] + junk;
      JunkEndsTheNumber(digits[1..], junk, 10 * acc + DigitOf(digits[0]));
    }
  }

  /**
   Text that nobody wrote with `Print` is read as leniently as `Number.parseInt` reads it: spaces before
   a number and anything after it are skipped, and a minus sign makes any number read as 0.
  */
  lemma StrayTextIsReadLeniently(spaces: string, n: nat, junk: string)
    requires Spaces(spaces) && (junk == "" || !('0' <= junk[0] <= '9'))
    ensures ParseEpoch(Some(spaces + Print(n) + junk)) == if n <= MAX_SAFE then n else 0
    ensures ParseEpoch(Some(spaces + "+" + Print(n) + junk)) == if n <= MAX_SAFE then n else 0
    ensures ParseEpoch(Some(spaces + "-" + Print(n) + junk)) == 0
  {
    hide Print, LeadingDigits, TrimStart;
    PrintIsDigits(n);
    DigitsOfPrint(n);
    JunkEndsTheNumber(Print(n), junk, 0);
    var body := Print(n) + junk;
    forall prefix | prefix in {"", "+", "-"} ensures TrimStart(spaces + prefix + Print(n) + junk) == prefix + body {
      assert spaces + prefix + Print(n) + junk == spaces + (prefix + body);
      TrimDropsSpaces(spaces, prefix + body);
    }
    assert spaces + "" == spaces && "" + body == body;
    assert ("+" + body)[1..] == body && ("-" + body)[1..] == body;
  }

  /** Text with no digit right after its spaces and its sign reads as 0. */
  lemma TextWithoutANumberReadsAsZero(spaces: string, rest: string)
    requires Spaces(spaces)
    requires rest == "" || (!IsSpace(rest[0]) && !('0' <= rest[0] <= '9'))
    requires rest != "" && rest[0] in "+-" ==> |rest| == 1 || !('0' <= rest[1] <= '9')
    ensures ParseEpoch(Some(spaces + rest)) == 0
  {
    TrimDropsSpaces(spaces, rest);
  }

  /** The value a bump writes over `raw`. */
  function Bumped(raw: Option<string>): string {
    Print(ParseEpoch(raw) + 1)
  }

  /** A bump raises the epoch exactly when the epoch is below the largest safe integer; there it falls to 0. */
  lemma BumpRaisesIff(raw: Option<string>)
    ensures ParseEpoch(Some(Bumped(raw))) > ParseEpoch(raw) <==> ParseEpoch(raw) < MAX_SAFE
    ensures ParseEpoch(raw) < MAX_SAFE ==> ParseEpoch(Some(Bumped(raw))) == ParseEpoch(raw) + 1
    ensures ParseEpoch(raw) == MAX_SAFE ==> ParseEpoch(Some(Bumped(raw))) == 0
  {
    EpochRoundTrip(ParseEpoch(raw) + 1);
  }

  /** A marker at which a bump fails: the next epoch reads as 0 and every old token is new again. */
  lemma LargestEpochFallsToZero()
    ensures ParseEpoch(Some(Print(MAX_SAFE))) == MAX_SAFE
    ensures ParseEpoch(Some(Bumped(Some(Print(MAX_SAFE))))) == 0
  {
    EpochRoundTrip(MAX_SAFE);
    BumpRaisesIff(Some(Print(MAX_SAFE)));
  }
}
