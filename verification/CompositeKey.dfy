/** The length-prefixed composite key of the EntDB driver (store/entdb/helpers.go)
    and a parser showing that the encoding loses nothing. */
module CompositeKey {
  import opened Domain
  import opened Decimal

  const COLON: Byte := 58

  /** "<len>:<value>" */
  function LpEncode(s: Str): Str {
    Dec(|s|) + [COLON] + s
  }

  function Encode(k: Key): Str {
    LpEncode(k.tenant) + LpEncode(k.user) + LpEncode(k.part)
  }

  /** The key's text: for tenant, user and last part in this order, the decimal length,
      a ':' and the bytes. */
  lemma KeyText(k: Key)
    ensures Encode(k)
      == Dec(|k.tenant|) + [58] + k.tenant + (Dec(|k.user|) + [58] + k.user) + (Dec(|k.part|) + [58] + k.part)
  {}

  /** Number of leading digits. */
  function DigitRun(t: Str): (k: nat)
    ensures k <= |t| && AllDigits(t[..k])
    ensures k < |t| ==> !IsDigit(t[k])
  {
    if t == [] || !IsDigit(t[0]) then 0
    else
      var k := 1 + DigitRun(t[1..]);
      assert t[..k] == [t[0]] + t[1..][..k - 1];
      k
  }

  /** Reads one part off the front: (value, what follows). */
  function ParsePart(t: Str): Option<(Str, Str)> {
    var k := DigitRun(t);
    if k == |t| || t[k] != COLON then None
    else
      var n := Value(t[..k]);
      if t[..k] != Dec(n) || k + 1 + n > |t| then None
      else Some((t[k + 1..k + 1 + n], t[k + 1 + n..]))
  }

  function Parse(t: Str): Option<Key> {
    match ParsePart(t)
    case None => None
    case Some((tenant, t1)) =>
      match ParsePart(t1)
      case None => None
      case Some((user, t2)) =>
        match ParsePart(t2)
        case None => None
        case Some((part, t3)) => if t3 == [] then Some(Key(tenant, user, part)) else None
  }

  lemma {:induction false} DigitRunStops(d: Str, rest: Str)
    requires AllDigits(d) && rest != [] && !IsDigit(rest[0])
    ensures DigitRun(d + rest) == |d|
  {
    if d == [] {
      assert d + rest == rest;
    } else {
      DigitRunStops(d[1..], rest);
      assert (d + rest)[1..] == d[1..] + rest;
    }
  }

  lemma ParsePartForward(s: Str, rest: Str)
    ensures ParsePart(LpEncode(s) + rest) == Some((s, rest))
  {
    var d := Dec(|s|);
    var t := LpEncode(s) + rest;
    assert t == d + ([COLON] + s + rest);
    DigitRunStops(d, [COLON] + s + rest);
    ValueOfDec(|s|);
    assert t[..|d|] == d;
    assert t[|d| + 1..|d| + 1 + |s|] == s;
    assert t[|d| + 1 + |s|..] == rest;
  }

  lemma ParsePartBackward(t: Str, s: Str, rest: Str)
    requires ParsePart(t) == Some((s, rest))
    ensures t == LpEncode(s) + rest
  {
    var k := DigitRun(t);
    var n := Value(t[..k]);
    assert t[k + 1..] == s + rest;
    assert t == t[..k] + [t[k]] + t[k + 1..];
    assert t[..k] == Dec(|s|);
  }

  lemma ParseForward(k: Key)
    ensures Parse(Encode(k)) == Some(k)
  {
    var t2 := LpEncode(k.part);
    var t1 := LpEncode(k.user) + t2;
    assert Encode(k) == LpEncode(k.tenant) + t1;
    ParsePartForward(k.tenant, t1);
    ParsePartForward(k.user, t2);
    assert t2 + [] == t2;
    ParsePartForward(k.part, []);
  }

  lemma ParseBackward(t: Str, k: Key)
    requires Parse(t) == Some(k)
    ensures t == Encode(k)
  {
    var t1 := ParsePart(t).value.1;
    var t2 := ParsePart(t1).value.1;
    ParsePartBackward(t, k.tenant, t1);
    ParsePartBackward(t1, k.user, t2);
    ParsePartBackward(t2, k.part, []);
    Joined(LpEncode(k.tenant), LpEncode(k.user), LpEncode(k.part), t, t1, t2);
  }

  lemma Joined(a: Str, b: Str, c: Str, t: Str, t1: Str, t2: Str)
    requires t == a + t1 && t1 == b + t2 && t2 == c + []
    ensures t == a + b + c
  {
    assert c + [] == c;
  }

  /** The parser accepts exactly the encoder's image, whatever bytes the parts
      hold, digits and colons included. */
  lemma ParseIffEncode(t: Str, k: Key)
    ensures Parse(t) == Some(k) <==> t == Encode(k)
  {
    ParseForward(k);
    if Parse(t) == Some(k) { ParseBackward(t, k); }
  }

  /** Two triples share a composite key only if they are the same triple. */
  lemma EncodeInjective(a: Key, b: Key)
    requires Encode(a) == Encode(b)
    ensures a == b
  {
    ParseIffEncode(Encode(a), a);
    ParseIffEncode(Encode(a), b);
  }
}
