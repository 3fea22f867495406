/** Text helpers shared by the constraint engine (substring search for `contain`)
    and the diagnostic stream (decimal rendering of integers). */
module Text {

  // ---------------------------------------------------------------------------
  // Substring search
  // ---------------------------------------------------------------------------

  /** `needle` is a prefix of `hay`. */
  predicate IsPrefix(needle: string, hay: string) {
    |needle| <= |hay| && hay[..|needle|] == needle
  }

  /** `needle` occurs as a contiguous run of `hay`: tried at every start position in turn. */
  predicate Occurs(needle: string, hay: string)
    decreases |hay|
  {
    IsPrefix(needle, hay) || (|hay| > 0 && Occurs(needle, hay[1..]))
  }

  /** Reference definition: a copy of `needle` starts at position `i` of `hay`. */
  predicate StartsAt(needle: string, hay: string, i: int) {
    0 <= i && i + |needle| <= |hay| && hay[i..i + |needle|] == needle
  }

  /** The search finds the needle exactly when some position of the haystack starts a copy of it. */
  lemma {:induction false} OccursIff(needle: string, hay: string)
    ensures Occurs(needle, hay) <==> exists i :: StartsAt(needle, hay, i)
    decreases |hay|
  {
    if |hay| == 0 {
      if Occurs(needle, hay) {
        assert StartsAt(needle, hay, 0);
      }
    } else {
      var tail := hay[1..];
      OccursIff(needle, tail);
      forall j | StartsAt(needle, tail, j)
        ensures StartsAt(needle, hay, j + 1)
      {
        assert hay[j + 1..j + 1 + |needle|] == tail[j..j + |needle|];
      }
      if Occurs(needle, hay) {
        if IsPrefix(needle, hay) {
          assert StartsAt(needle, hay, 0);
        } else {
          var j :| StartsAt(needle, tail, j);
          assert StartsAt(needle, hay, j + 1);
        }
      }
      if i :| StartsAt(needle, hay, i) {
        if i == 0 {
          assert IsPrefix(needle, hay);
        } else {
          assert tail[i - 1..i - 1 + |needle|] == hay[i..i + |needle|];
          assert StartsAt(needle, tail, i - 1);
        }
      }
    }
  }

  // ---------------------------------------------------------------------------
  // Decimal rendering
  // ---------------------------------------------------------------------------

  predicate IsDigit(c: char) {
    '0' <= c <= '9'
  }

  function DigitChar(d: nat): (c: char)
    requires d < 10
    ensures IsDigit(c)
  {
    ('0' as int + d) as char
  }

  function DigitValue(c: char): (d: nat)
    requires IsDigit(c)
    ensures d < 10 && DigitChar(d) == c
  {
    c as int - '0' as int
  }

  /** The decimal digits of `n`, most significant first, without leading zeros. */
  function Digits(n: nat): (r: string)
    ensures 1 <= |r|
    ensures forall k :: 0 <= k < |r| ==> IsDigit(r[k])
    ensures |r| == 1 <==> n < 10
    ensures r[0] == '0' ==> n == 0
    decreases n
  {
    if n < 10 then [DigitChar(n)] else Digits(n / 10) + [DigitChar(n % 10)]
  }

  /** Reads a run of decimal digits back as a number. */
  function ParseDigits(s: string): nat
    requires forall k :: 0 <= k < |s| ==> IsDigit(s[k])
    decreases |s|
  {
    if s == [] then 0 else ParseDigits(s[..|s| - 1]) * 10 + DigitValue(s[|s| - 1])
  }

  /** Writing a number in decimal and reading it back gives the same number. */
  lemma {:induction false} ParseDigitsOfDigits(n: nat)
    ensures ParseDigits(Digits(n)) == n
    decreases n
  {
    var r := Digits(n);
    if n >= 10 {
      ParseDigitsOfDigits(n / 10);
      assert r[..|r| - 1] == Digits(n / 10);
      assert DigitValue(r[|r| - 1]) == n % 10;
    } else {
      assert r[..0] == [];
    }
  }

  /** Numbers below 256 take at most three digits. */
  lemma DigitsOfByte(n: nat)
    requires n < 256
    ensures |Digits(n)| <= 3
  {
  }

  /** Decimal text of a signed integer: a minus sign before the digits of a negative value. */
  function Decimal(i: int): (r: string)
    ensures |r| >= 1
    ensures (r[0] == '-') <==> i < 0
  {
    if i < 0 then "-" + Digits(-i) else Digits(i)
  }
}
