/**
 * Decimal text of the counts and indices the serialisers write, and the
 * digit reader that recovers them.
 */
module Text {
  function DigitChar(d: nat): char
    requires d < 10
  {
    "0123456789"[d]
  }

  predicate IsDigit(c: char) {
    '0' <= c <= '9'
  }

  function DigitValue(c: char): nat
    requires IsDigit(c)
  {
    (c - '0') as nat
  }

  lemma DigitCharValue(d: nat)
    requires d < 10
    ensures IsDigit(DigitChar(d)) && DigitValue(DigitChar(d)) == d
  {
  }

  /** Decimal text of a natural number, most significant digit first, no leading zeros. */
  function NatToString(n: nat): (s: string)
    ensures |s| >= 1 && AllDigits(s)
    ensures |s| > 1 ==> s[0] != '0'
  {
    if n < 10 then [DigitChar(n)] else NatToString(n / 10) + [DigitChar(n % 10)]
  }

  function Pow10(k: nat): (r: nat)
    ensures r >= 1
  {
    if k == 0 then 1 else 10 * Pow10(k - 1)
  }

  /** Reads the longest run of leading digits onto `acc`; returns the value and the rest. */
  function ReadDigits(s: string, acc: nat): (nat, string)
    decreases |s|
  {
    if |s| > 0 && IsDigit(s[0]) then ReadDigits(s[1..], acc * 10 + DigitValue(s[0])) else (acc, s)
  }

  /** Reads a number that must start with a digit. */
  function ParseNat(s: string): (r: Option<(nat, string)>)
    ensures r.Some? <==> |s| > 0 && IsDigit(s[0])
  {
    if |s| > 0 && IsDigit(s[0]) then Some(ReadDigits(s, 0)) else None
  }

  datatype Option<T> = None | Some(value: T)

  lemma AccumulateStep(acc: nat, p: nat, q: nat, d: nat)
    ensures (acc * p + q) * 10 + d == acc * (p * 10) + (q * 10 + d)
  {
  }

  predicate AllDigits(s: string) {
    forall k :: 0 <= k < |s| ==> IsDigit(s[k])
  }

  /** The value of a digit string read onto `acc`, most significant digit first. */
  function DigitsValue(s: string, acc: nat): nat
    requires AllDigits(s)
    decreases |s|
  {
    if |s| == 0 then acc else DigitsValue(s[1..], acc * 10 + DigitValue(s[0]))
  }

  /** The reader consumes a whole digit string and stops at the first non-digit. */
  lemma {:induction false} ReadAllDigits(s: string, rest: string, acc: nat)
    requires AllDigits(s) && (|rest| == 0 || !IsDigit(rest[0]))
    ensures ReadDigits(s + rest, acc) == (DigitsValue(s, acc), rest)
    decreases |s|
  {
    if |s| == 0 {
      assert s + rest == rest;
    } else {
      assert (s + rest)[1..] == s[1..] + rest;
      ReadAllDigits(s[1..], rest, acc * 10 + DigitValue(s[0]));
    }
  }

  /** Appending a digit multiplies the value read so far by ten and adds the digit. */
  lemma {:induction false} DigitsValueSnoc(s: string, c: char, acc: nat)
    requires AllDigits(s) && IsDigit(c)
    ensures AllDigits(s + [c])
    ensures DigitsValue(s + [c], acc) == DigitsValue(s, acc) * 10 + DigitValue(c)
    decreases |s|
  {
    if |s| == 0 {
      assert s + [c] == [c];
    } else {
      assert (s + [c])[1..] == s[1..] + [c];
      DigitsValueSnoc(s[1..], c, acc * 10 + DigitValue(s[0]));
    }
  }

  /** The text of `n` read onto `acc` gives `n` behind the shifted accumulator. */
  lemma {:induction false} NatToStringValue(n: nat, acc: nat)
    ensures DigitsValue(NatToString(n), acc) == acc * Pow10(|NatToString(n)|) + n
    decreases n
  {
    DigitCharValue(n % 10);
    if n < 10 {
      assert NatToString(n)[1..] == [];
    } else {
      var t := NatToString(n / 10);
      NatToStringValue(n / 10, acc);
      DigitsValueSnoc(t, DigitChar(n % 10), acc);
      AccumulateStep(acc, Pow10(|t|), n / 10, n % 10);
    }
  }

  /** The decimal text of a number reads back as that number. */
  lemma NatToStringRoundTrip(n: nat, rest: string)
    requires |rest| == 0 || !IsDigit(rest[0])
    ensures ParseNat(NatToString(n) + rest) == Some((n, rest))
  {
    ReadAllDigits(NatToString(n), rest, 0);
    NatToStringValue(n, 0);
  }

  /** Different numbers have different text. */
  lemma NatToStringInjective(m: nat, n: nat)
    requires NatToString(m) == NatToString(n)
    ensures m == n
  {
    NatToStringRoundTrip(m, "");
    NatToStringRoundTrip(n, "");
  }
}
