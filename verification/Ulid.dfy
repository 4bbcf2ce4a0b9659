/** `new_ulid` (plugin/net/trid3nt_client.py): a millisecond and 80 random bits in 26 characters. */
module Ulid {
  import opened Names

  // The clock and the random bytes are inputs. The order of the characters is that of the numbers because
  // the alphabet ascends and the highest digit comes first.

  /** Crockford's base 32. */
  const CROCKFORD: string := "0123456789ABCDEFGHJKMNPQRSTVWXYZ"

  const LENGTH: nat := 26

  /** 2 to the 80: the random part. */
  const RANDOM_SPAN: nat := 0x1_00000_00000_00000_00000

  /** 2 to the 50: the milliseconds that still fit, four times what a ULID means to use. */
  const CLOCK_SPAN: nat := 0x4_0000_0000_0000

  type Digit = d: nat | d < 32

  function Pow32(n: nat): (r: nat)
    ensures r > 0
  {
    if n == 0 then 1 else 32 * Pow32(n - 1)
  }

  /** `value >> (5 * places)`. */
  function Shift(value: nat, places: nat): nat
  {
    if places == 0 then value else Shift(value / 32, places - 1)
  }

  /** The join of `new_ulid` for `n` characters: each is five bits of the value, the highest first. */
  function Chars(value: nat, n: nat): (s: string)
    ensures |s| == n
  {
    seq(n, i requires 0 <= i < n => CROCKFORD[Shift(value, n - 1 - i) % 32])
  }

  /** `new_ulid`, given the clock and the random bytes: `millis << 80 | random`. */
  function NewUlid(millis: nat, random: nat): string
  {
    Chars(millis * RANDOM_SPAN + random, LENGTH)
  }

  // ---------------------------------------------------------------------------------------
  // The alphabet
  // ---------------------------------------------------------------------------------------

  /** The alphabet ascends: I, L, O and U are passed over. */
  lemma AlphabetAscends(d: Digit, e: Digit)
    requires d < e
    ensures CROCKFORD[d] < CROCKFORD[e]
  {
  }

  /** The `d`-th of the digits and of the capitals without I, L, O and U. */
  function Nth(d: Digit): char
  {
    if d < 10 then '0' + d as char
    else if d < 18 then 'A' + (d - 10) as char
    else if d < 20 then 'J' + (d - 18) as char
    else if d < 22 then 'M' + (d - 20) as char
    else if d < 27 then 'P' + (d - 22) as char
    else 'V' + (d - 27) as char
  }

  lemma AlphabetIs(d: Digit)
    ensures CROCKFORD[d] == Nth(d)
  {
  }

  /** A ULID holds digits and capitals, and none of those that could be misread. */
  lemma UlidSpelling(millis: nat, random: nat, i: nat)
    requires i < LENGTH
    ensures var c := NewUlid(millis, random)[i];
            ('0' <= c <= '9' || 'A' <= c <= 'Z') && c != 'I' && c != 'L' && c != 'O' && c != 'U'
  {
    var value := millis * RANDOM_SPAN + random;
    var d: Digit := Shift(value, LENGTH - 1 - i) % 32;
    hide Shift;
    AlphabetIs(d);
    assert NewUlid(millis, random)[i] == Nth(d);
  }

  /** Where a character stands in the alphabet. */
  function RankFrom(c: char, d: Digit): Digit
    decreases 32 - d
  {
    if d == 31 || CROCKFORD[d] == c then d else RankFrom(c, d + 1)
  }

  lemma {:induction false} RankOfDigit(d: Digit, from: Digit)
    requires from <= d
    ensures RankFrom(CROCKFORD[d], from) == d
    decreases d - from
  {
    if from < d {
      AlphabetAscends(from, d);
      RankOfDigit(d, from + 1);
    }
  }

  /** Reading a ULID back. */
  function Decode(s: string): nat
  {
    if s == [] then 0 else 32 * Decode(s[..|s| - 1]) + RankFrom(s[|s| - 1], 0)
  }

  // ---------------------------------------------------------------------------------------
  // Recovery and order
  // ---------------------------------------------------------------------------------------

  /** The last character is the lowest digit, the others are those of the rest. */
  lemma LastChar(value: nat, n: nat)
    requires n > 0
    ensures Chars(value, n) == Chars(value / 32, n - 1) + [CROCKFORD[value % 32]]
  {
    var s, t := Chars(value, n), Chars(value / 32, n - 1);
    forall i | 0 <= i < n - 1
      ensures s[i] == t[i]
    {
      assert Shift(value, n - 1 - i) == Shift(value / 32, n - 1 - 1 - i);
    }
    assert Shift(value, 0) == value;
  }

  /** Decoding `n` characters gives the value back, less what does not fit in them. */
  lemma {:induction false} DecodeChars(value: nat, n: nat)
    ensures Decode(Chars(value, n)) == value % Pow32(n)
  {
    if n > 0 {
      LastChar(value, n);
      DecodeChars(value / 32, n - 1);
      RankOfDigit(value % 32, 0);
      var s := Chars(value, n);
      assert s[..n - 1] == Chars(value / 32, n - 1);
      RemainderSplits(value, Pow32(n - 1));
    }
  }

  lemma RemainderSplits(v: nat, d: nat)
    requires d > 0
    ensures 32 * d > 0 && v % (32 * d) == 32 * (v / 32 % d) + v % 32
  {
    var q := v / 32;
    var p, s := q / d, q % d;
    Parts(v, 32 * d, p, 32 * s + v % 32);
  }

  /** Quotient and remainder are determined. */
  lemma Parts(v: nat, d: nat, q: nat, r: nat)
    requires v == d * q + r && r < d
    ensures v / d == q && v % d == r
  {
    assert v == d * (v / d) + v % d;
    Grows(d, v / d, q);
    Grows(d, q, v / d);
  }

  lemma Grows(d: nat, a: nat, b: nat)
    ensures a < b ==> d * a + d <= d * b
  {
    if a < b {
      assert d * b == d * (a + 1) + d * (b - a - 1);
    }
  }

  lemma {:induction false} LessAppend(s: string, t: string, c: char, d: char)
    requires |s| == |t|
    ensures Less(s + [c], t + [d]) <==> Less(s, t) || (s == t && c < d)
  {
    if s != [] {
      LessAppend(s[1..], t[1..], c, d);
      assert (s + [c])[1..] == s[1..] + [c] && (t + [d])[1..] == t[1..] + [d];
      assert s == [s[0]] + s[1..] && t == [t[0]] + t[1..];
    }
  }

  /** The characters order as the numbers do, and no two numbers share them. */
  lemma {:induction false} OrderIsNumeric(a: nat, b: nat, n: nat)
    requires a < Pow32(n) && b < Pow32(n)
    ensures Less(Chars(a, n), Chars(b, n)) <==> a < b
    ensures Chars(a, n) == Chars(b, n) <==> a == b
  {
    if n > 0 {
      LastChar(a, n);
      LastChar(b, n);
      OrderIsNumeric(a / 32, b / 32, n - 1);
      LessAppend(Chars(a / 32, n - 1), Chars(b / 32, n - 1), CROCKFORD[a % 32], CROCKFORD[b % 32]);
      DigitOrder(a % 32, b % 32);
      AppendInjective(Chars(a / 32, n - 1), Chars(b / 32, n - 1), CROCKFORD[a % 32], CROCKFORD[b % 32]);
    }
  }

  lemma DigitOrder(d: Digit, e: Digit)
    ensures CROCKFORD[d] < CROCKFORD[e] <==> d < e
    ensures CROCKFORD[d] == CROCKFORD[e] <==> d == e
  {
    if d < e {
      AlphabetAscends(d, e);
    } else if e < d {
      AlphabetAscends(e, d);
    }
  }

  lemma AppendInjective(s: string, t: string, c: char, d: char)
    requires |s| == |t|
    ensures s + [c] == t + [d] <==> s == t && c == d
  {
    if s + [c] == t + [d] {
      assert s == (s + [c])[..|s|] == t;
      assert c == (s + [c])[|s|] == d;
    }
  }

  lemma Fits(millis: nat, random: nat)
    requires millis < CLOCK_SPAN && random < RANDOM_SPAN
    ensures millis * RANDOM_SPAN + random < Pow32(LENGTH)
  {
    FivePlaces(1);
    FivePlaces(6);
    FivePlaces(11);
    FivePlaces(16);
    FivePlaces(21);
    assert Pow32(1) == 32;
  }

  lemma FivePlaces(n: nat)
    ensures Pow32(n + 5) == 0x200_0000 * Pow32(n)
  {
    assert Pow32(n + 1) == 32 * Pow32(n);
    assert Pow32(n + 2) == 32 * Pow32(n + 1);
    assert Pow32(n + 3) == 32 * Pow32(n + 2);
    assert Pow32(n + 4) == 32 * Pow32(n + 3);
    assert Pow32(n + 5) == 32 * Pow32(n + 4);
  }

  /** A ULID gives its millisecond and its random part back, for the next 35000 years. */
  lemma UlidRoundTrip(millis: nat, random: nat)
    requires millis < CLOCK_SPAN && random < RANDOM_SPAN
    ensures |NewUlid(millis, random)| == 26
    ensures Decode(NewUlid(millis, random)) / RANDOM_SPAN == millis
    ensures Decode(NewUlid(millis, random)) % RANDOM_SPAN == random
  {
    hide Pow32, Decode, Chars;
    var value := millis * RANDOM_SPAN + random;
    Fits(millis, random);
    DecodeChars(value, LENGTH);
    Parts(value, Pow32(LENGTH), 0, value);
  }

  /** ULIDs sort by millisecond first, whatever their random parts, and equal ones have both parts equal. */
  lemma UlidsSortByTime(m1: nat, r1: nat, m2: nat, r2: nat)
    requires m1 < CLOCK_SPAN && r1 < RANDOM_SPAN && m2 < CLOCK_SPAN && r2 < RANDOM_SPAN
    ensures Less(NewUlid(m1, r1), NewUlid(m2, r2)) <==> m1 < m2 || (m1 == m2 && r1 < r2)
    ensures NewUlid(m1, r1) == NewUlid(m2, r2) <==> m1 == m2 && r1 == r2
  {
    hide Pow32, Chars, Less;
    Fits(m1, r1);
    Fits(m2, r2);
    OrderIsNumeric(m1 * RANDOM_SPAN + r1, m2 * RANDOM_SPAN + r2, LENGTH);
  }
}
