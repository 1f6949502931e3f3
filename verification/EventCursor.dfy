/** Cursors of the event stream: a generation and a sequence number as text (event_broker.py). */
module EventCursor {
  import opened Prelude

  // 2^63 - 1
  const MAX_SEQUENCE: nat := 9_223_372_036_854_775_807
  const MAX_CURSOR_LENGTH: nat := 56

  predicate Digit(c: char) {
    '0' <= c <= '9'
  }

  predicate LowerHex(c: char) {
    'a' <= c <= 'f' || Digit(c)
  }

  predicate IsGeneration(s: string) {
    |s| == 32 && forall i :: 0 <= i < |s| ==> LowerHex(s[i])
  }

  // Decimal numbers

  function DigitOf(d: nat): (c: char)
    requires d < 10
    ensures Digit(c) && ValueOf(c) == d
  {
    '0' + d as char
  }

  function ValueOf(c: char): (d: nat)
    requires Digit(c)
    ensures d < 10
  {
    (c - '0') as nat
  }

  function Decimal(n: nat): (s: string)
    ensures |s| > 0
  {
    if n < 10 then [DigitOf(n)] else Decimal(n / 10) + [DigitOf(n % 10)]
  }

  predicate AllDigits(s: string) {
    forall i :: 0 <= i < |s| ==> Digit(s[i])
  }

  function NumberOf(s: string): nat
    requires AllDigits(s)
  {
    if s == "" then 0 else 10 * NumberOf(s[..|s| - 1]) + ValueOf(s[|s| - 1])
  }

  /** 0, or digits without a leading zero, at most nineteen of them. */
  predicate IsSequence(s: string) {
    AllDigits(s) && 1 <= |s| <= 19 && (s[0] == '0' ==> |s| == 1)
  }

  lemma {:induction false} DecimalIsCanonical(n: nat)
    ensures AllDigits(Decimal(n)) && NumberOf(Decimal(n)) == n
    ensures Decimal(n)[0] == '0' ==> n == 0
  {
    if n >= 10 {
      DecimalIsCanonical(n / 10);
      var s := Decimal(n);
      assert s[..|s| - 1] == Decimal(n / 10);
    } else {
      assert Decimal(n)[..0] == "";
    }
  }

  lemma {:induction false} CanonicalIsDecimal(s: string)
    requires AllDigits(s) && |s| >= 1 && (s[0] == '0' ==> |s| == 1)
    ensures Decimal(NumberOf(s)) == s
    ensures |s| > 1 ==> NumberOf(s) >= 10
  {
    var front, last := s[..|s| - 1], s[|s| - 1];
    DigitIsValue(last);
    if |s| == 1 {
      assert s == [last];
    } else {
      CanonicalIsDecimal(front);
      PositiveNumber(front);
      assert NumberOf(s) / 10 == NumberOf(front) && NumberOf(s) % 10 == ValueOf(last);
      assert s == front + [last];
    }
  }

  lemma DigitIsValue(c: char)
    requires Digit(c)
    ensures DigitOf(ValueOf(c)) == c
  {
  }

  lemma {:induction false} PositiveNumber(s: string)
    requires AllDigits(s) && |s| >= 1 && s[0] != '0'
    ensures NumberOf(s) >= 1
  {
    if |s| > 1 {
      PositiveNumber(s[..|s| - 1]);
    } else {
      assert s[..0] == "";
    }
  }

  function Power10(k: nat): nat {
    if k == 0 then 1 else 10 * Power10(k - 1)
  }

  lemma {:induction false} DecimalLength(n: nat, k: nat)
    requires k >= 1 && n < Power10(k)
    ensures |Decimal(n)| <= k
  {
    if n >= 10 {
      assert k > 1;
      DecimalLength(n / 10, k - 1);
    }
  }

  lemma SequenceLength(n: nat)
    requires n <= MAX_SEQUENCE
    ensures |Decimal(n)| <= 19
  {
    assert Power10(4) == 10_000;
    assert Power10(8) == 100_000_000;
    assert Power10(12) == 1_000_000_000_000;
    assert Power10(16) == 10_000_000_000_000_000;
    assert Power10(19) == 10_000_000_000_000_000_000;
    DecimalLength(n, 19);
  }

  // The cursor

  function PrintCursor(generation: string, sequence: nat): string {
    "ev1_" + generation + "_" + Decimal(sequence)
  }

  function ParseCursor(cursor: string): Option<(string, nat)> {
    if |cursor| > MAX_CURSOR_LENGTH || |cursor| < 38 || cursor[..4] != "ev1_" || !IsGeneration(cursor[4..36])
       || cursor[36] != '_' || !IsSequence(cursor[37..]) then None
    else if NumberOf(cursor[37..]) > MAX_SEQUENCE then None
    else Some((cursor[4..36], NumberOf(cursor[37..])))
  }

  /** A printed cursor is read back, and it fits, for every sequence number up to 2^63 - 1. */
  lemma CursorRoundTrip(generation: string, sequence: nat)
    requires IsGeneration(generation) && sequence < 0x8000_0000_0000_0000
    ensures ParseCursor(PrintCursor(generation, sequence)) == Some((generation, sequence))
    ensures |PrintCursor(generation, sequence)| <= MAX_CURSOR_LENGTH
  {
    DecimalIsCanonical(sequence);
    SequenceLength(sequence);
    var cursor := PrintCursor(generation, sequence);
    assert cursor[..4] == "ev1_" && cursor[4..36] == generation && cursor[37..] == Decimal(sequence);
  }

  /** Every accepted text is the printed form of what it parses to: no other spelling exists. */
  lemma CursorIsCanonical(cursor: string)
    requires ParseCursor(cursor).Some?
    ensures var (generation, sequence) := ParseCursor(cursor).value;
            IsGeneration(generation) && sequence < 0x8000_0000_0000_0000 && PrintCursor(generation, sequence) == cursor
  {
    CanonicalIsDecimal(cursor[37..]);
    assert cursor == cursor[..4] + cursor[4..36] + [cursor[36]] + cursor[37..];
  }
}
