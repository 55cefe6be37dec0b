/** Decimal text of integers: strconv.FormatInt / ParseInt (the page cursor) and
    the driver's own decString. */
module Decimal {
  import opened Domain

  const ZERO: Byte := 48
  const MINUS: Byte := 45
  const PLUS: Byte := 43

  predicate IsDigit(c: Byte) {
    48 <= c <= 57
  }

  predicate AllDigits(s: Str) {
    forall c | c in s :: IsDigit(c)
  }

  /** Decimal digits of n, most significant first. */
  function Dec(n: nat): (s: Str)
    ensures s != [] && AllDigits(s)
  {
    if n < 10 then [48 + n] else Dec(n / 10) + [48 + n % 10]
  }

  /** The number a digit string denotes; leading zeros are allowed. */
  function Value(s: Str): nat
    requires AllDigits(s)
  {
    if s == [] then 0
    else
      var front := s[..|s| - 1];
      assert s[|s| - 1] in s;
      10 * Value(front) + (s[|s| - 1] as int - 48)
  }

  lemma {:induction false} ValueOfDec(n: nat)
    ensures Value(Dec(n)) == n
    ensures n > 0 ==> Dec(n)[0] != ZERO
  {
    if n >= 10 {
      ValueOfDec(n / 10);
      assert Dec(n)[..|Dec(n)| - 1] == Dec(n / 10);
    }
  }

  function FormatInt(x: Int64): (s: Str)
    ensures s != []
  {
    if x < 0 then [MINUS] + Dec(-(x as int)) else Dec(x)
  }

  /** Base-10, 64-bit ParseInt: an optional sign, at least one digit, in range. */
  function ParseInt(s: Str): Option<Int64> {
    if s == [] then None
    else
      var negative := s[0] == MINUS;
      var digits := if s[0] == MINUS || s[0] == PLUS then s[1..] else s;
      if digits == [] || !AllDigits(digits) then None
      else if negative then
        (if Value(digits) > 0x8000_0000_0000_0000 then None else Some(-(Value(digits) as int)))
      else
        (if Value(digits) >= 0x8000_0000_0000_0000 then None else Some(Value(digits)))
  }

  /** The text is an optional '+' or '-' and at least one digit, and denotes v. */
  ghost predicate Denotes(s: Str, v: int) {
    exists digits: Str :: DenotesBy(s, digits, v)
  }

  predicate DenotesBy(s: Str, digits: Str, v: int) {
    && digits != [] && AllDigits(digits)
    && ((s == digits && v == Value(digits))
        || (s == [43] + digits && v == Value(digits))
        || (s == [45] + digits && v == -(Value(digits) as int)))
  }

  /** Decimal value by position: an empty text is 0, one more digit multiplies by ten. */
  lemma ValueSnoc(s: Str, c: Byte)
    requires AllDigits(s + [c])
    ensures AllDigits(s) && IsDigit(c) && Value([]) == 0 && Value(s + [c]) == 10 * Value(s) + (c as int - 48)
  {
    assert c in s + [c];
    assert forall x | x in s :: x in s + [c];
    assert (s + [c])[..|s|] == s;
  }

  /** ParseInt accepts exactly the texts that denote an int64, and yields it. */
  lemma ParseIntIff(s: Str, v: Int64)
    ensures ParseInt(s) == Some(v) <==> Denotes(s, v)
  {
    if ParseInt(s) == Some(v) {
      var digits := if s[0] == MINUS || s[0] == PLUS then s[1..] else s;
      assert s == [s[0]] + s[1..];
      assert DenotesBy(s, digits, v);
    }
    if Denotes(s, v) {
      var digits :| DenotesBy(s, digits, v);
      assert IsDigit(digits[0]) by { assert digits[0] in digits; }
      if s != digits { assert s[1..] == digits; }
    }
  }

  lemma ParseOfNegative(n: nat)
    requires 0 < n <= 0x8000_0000_0000_0000
    ensures ParseInt([MINUS] + Dec(n)) == Some(-(n as int))
  {
    ValueOfDec(n);
    assert ([MINUS] + Dec(n))[1..] == Dec(n);
  }

  lemma ParseOfNatural(n: nat)
    requires n < 0x8000_0000_0000_0000
    ensures ParseInt(Dec(n)) == Some(n)
  {
    ValueOfDec(n);
    assert Dec(n)[0] in Dec(n);
  }

  /** Every printed cursor parses back to the boundary it was printed from. */
  lemma ParseOfFormat(x: Int64)
    ensures ParseInt(FormatInt(x)) == Some(x)
  {
    if x < 0 { ParseOfNegative(-(x as int)); } else { ParseOfNatural(x); }
  }

  function Pow10(k: nat): nat {
    if k == 0 then 1 else 10 * Pow10(k - 1)
  }

  /** Every int64 has at most 19 digits, so a 20-byte buffer is enough. */
  lemma Pow10Of19()
    ensures Pow10(19) == 10_000_000_000_000_000_000
  {
    assert Pow10(3) == 1_000;
    assert Pow10(5) == 100_000;
    assert Pow10(7) == 10_000_000;
    assert Pow10(9) == 1_000_000_000;
    assert Pow10(11) == 100_000_000_000;
    assert Pow10(13) == 10_000_000_000_000;
    assert Pow10(15) == 1_000_000_000_000_000;
    assert Pow10(17) == 100_000_000_000_000_000;
  }

  /** decString fills a 20-byte buffer from the right. A negative argument never
      enters the loop and yields the empty string. */
  method DecString(x: Int64) returns (s: Str)
    ensures s == if x < 0 then [] else Dec(x)
  {
    if x == 0 {
      return [ZERO];
    }
    var buf := new Byte[20](i => 0);
    var i := buf.Length;
    var n: int := x;
    Pow10Of19();
    while n > 0
      invariant 1 <= i <= 20
      invariant n < Pow10(i - 1)
      invariant n < 0 ==> n == x && i == 20
      invariant x > 0 ==> n >= 0
      invariant n > 0 ==> Dec(n) + buf[i..] == Dec(x)
      invariant x > 0 && n == 0 ==> buf[i..] == Dec(x)
    {
      ghost var tail := buf[i..];
      ghost var m := n;
      i := i - 1;
      buf[i] := 48 + n % 10;
      n := n / 10;
      assert buf[i..] == [48 + m % 10] + tail;
      assert m >= 10 ==> Dec(m) + tail == Dec(n) + buf[i..];
    }
    s := buf[i..];
  }
}
