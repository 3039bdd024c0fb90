/**
  `str(user_id)`: the store keys its persisted per-user records by the decimal
  rendering of the numeric user id.
 */
module UserKeys {

  function DigitChar(d: nat): (c: char)
    requires d < 10
    ensures '0' <= c <= '9'
  {
    (48 + d) as char
  }

  function DigitValue(c: char): (d: nat)
    requires '0' <= c <= '9'
    ensures d < 10
  {
    (c as int) - 48
  }

  predicate AllDigits(s: string) {
    forall i :: 0 <= i < |s| ==> '0' <= s[i] <= '9'
  }

  /** The decimal digits of `n`, most significant first, without leading zeros. */
  function Digits(n: nat): (s: string)
    ensures AllDigits(s)
    ensures |s| >= 1
    ensures |s| == 1 <==> n < 10
    decreases n
  {
    if n < 10 then [DigitChar(n)] else Digits(n / 10) + [DigitChar(n % 10)]
  }

  /** The number a string of decimal digits denotes (`int(s)`). */
  function Value(s: string): nat
    requires AllDigits(s)
  {
    if s == [] then 0 else Value(s[..|s| - 1]) * 10 + DigitValue(s[|s| - 1])
  }

  /** `str(user_id)` for any integer, with a leading minus sign for negative ids. */
  function UserKey(userId: int): string {
    if userId < 0 then "-" + Digits(-userId) else Digits(userId)
  }

  /** `int(str(userId))`. */
  function ParseKey(key: string): int {
    if |key| > 0 && key[0] == '-' && AllDigits(key[1..]) then 0 - Value(key[1..])
    else if AllDigits(key) then Value(key)
    else 0
  }

  lemma {:induction false} DigitsRoundTrip(n: nat)
    ensures Value(Digits(n)) == n
    decreases n
  {
    var s := Digits(n);
    if n < 10 {
      assert s[..0] == [];
    } else {
      DigitsRoundTrip(n / 10);
      assert s[..|s| - 1] == Digits(n / 10);
    }
  }

  /** Parsing a user key gives the user id back. */
  lemma UserKeyRoundTrip(userId: int)
    ensures ParseKey(UserKey(userId)) == userId
  {
    var k := UserKey(userId);
    if userId < 0 {
      var d := Digits(-userId);
      assert k == "-" + d;
      assert k[1..] == d;
      DigitsRoundTrip(-userId);
      assert ParseKey(k) == 0 - Value(d);
    } else {
      assert k == Digits(userId);
      assert '0' <= k[0] <= '9';
      DigitsRoundTrip(userId);
    }
  }

  /** Distinct users never share a persisted record. */
  lemma UserKeyInjective(a: int, b: int)
    requires UserKey(a) == UserKey(b)
    ensures a == b
  {
    UserKeyRoundTrip(a);
    UserKeyRoundTrip(b);
  }
}
