/** Byte strings and the decimal numerals that several wire formats share. */
module Bytes {
  import opened Basics

  type Byte = n: nat | n < 256
  type Bytes = seq<Byte>

  // An ASCII literal as bytes.
  function Ascii(s: string): (b: Bytes)
    requires forall i :: 0 <= i < |s| ==> s[i] as int < 128
    ensures |b| == |s| && forall i :: 0 <= i < |s| ==> b[i] == s[i] as int
  {
    seq<Byte>(|s|, i requires 0 <= i < |s| => s[i] as int)
  }

  predicate Digit(b: Byte) { 48 <= b <= 57 }

  function Decimal(n: nat): (d: Bytes)
    ensures d != [] && forall b :: b in d ==> Digit(b)
  {
    if n < 10 then [48 + n] else Decimal(n / 10) + [48 + n % 10]
  }

  function Value(digits: Bytes): nat
    requires forall b :: b in digits ==> Digit(b)
  {
    if digits == [] then 0
    else
      assert Digit(digits[|digits| - 1]);
      Value(digits[..|digits| - 1]) * 10 + (digits[|digits| - 1] - 48)
  }

  lemma {:induction false} ValueOfDecimal(n: nat)
    ensures Value(Decimal(n)) == n
  {
    var d := Decimal(n);
    if n < 10 {
      assert d[..0] == [];
    } else {
      assert d[..|d| - 1] == Decimal(n / 10);
      ValueOfDecimal(n / 10);
    }
  }

  lemma {:induction false} DecimalLeads(n: nat)
    requires 0 < n
    ensures Decimal(n)[0] != '0' as int
  {
    if n < 10 {
    } else {
      DecimalLeads(n / 10);
    }
  }

  /** Most significant digit first, and no zero in front of a longer number. */
  lemma DecimalForm(n: nat)
    ensures n < 10 ==> Decimal(n) == ['0' as int + n]
    ensures 10 <= n ==> Decimal(n) == Decimal(n / 10) + ['0' as int + n % 10]
    ensures 10 <= n ==> Decimal(n)[0] != '0' as int
  {
    if 10 <= n {
      DecimalLeads(n);
    }
  }

  const I64_MIN: int := -0x8000_0000_0000_0000
  const I64_MAX: int := 0x7fff_ffff_ffff_ffff

  function SignedDecimal(n: int): Bytes {
    if n < 0 then [45] + Decimal(-n) else Decimal(n)
  }

  lemma SignedDecimalForm(n: int)
    ensures 0 <= n ==> SignedDecimal(n) == Decimal(n)
    ensures n < 0 ==> SignedDecimal(n) == ['-' as int] + Decimal(-n)
  {
  }

  /** Parse of a signed 64-bit number: optional sign, at least one digit, nothing else, in range. */
  function ParseI64(b: Bytes): Option<int> {
    var negative := b != [] && b[0] == 45;
    var digits := if b != [] && (b[0] == 45 || b[0] == 43) then b[1..] else b;
    if digits == [] || exists d :: d in digits && !Digit(d) then None
    else
      var size: int := Value(digits);
      var n := if negative then 0 - size else size;
      if I64_MIN <= n <= I64_MAX then Some(n) else None
  }

  lemma ParseOfSignedDecimal(n: int)
    requires I64_MIN <= n <= I64_MAX
    ensures ParseI64(SignedDecimal(n)) == Some(n)
  {
    var m: nat := if n < 0 then -n else n;
    ValueOfDecimal(m);
    var b := SignedDecimal(n);
    if n < 0 {
      assert b[1..] == Decimal(m);
    } else {
      assert Digit(b[0]);
    }
  }

  // ---- UTF-8, section 4 of RFC 3629 -----------------------------------------------------------

  predicate Tail(t: Bytes, i: nat) { i < |t| && 128 <= t[i] <= 191 }

  /** Bytes of the well-formed character in front of t; 0 when there is none. */
  function CharLength(t: Bytes): (n: nat)
    ensures n <= |t|
  {
    if t == [] then 0
    else if t[0] <= 127 then 1
    else if 194 <= t[0] <= 223 && Tail(t, 1) then 2
    else if 224 <= t[0] <= 239 && Tail(t, 1) && Tail(t, 2)
            && (t[0] == 224 ==> 160 <= t[1]) && (t[0] == 237 ==> t[1] <= 159) then 3
    else if 240 <= t[0] <= 244 && Tail(t, 1) && Tail(t, 2) && Tail(t, 3)
            && (t[0] == 240 ==> 144 <= t[1]) && (t[0] == 244 ==> t[1] <= 143) then 4
    else 0
  }

  predicate Utf8(t: Bytes)
    decreases |t|
  {
    t == [] || (CharLength(t) != 0 && Utf8(t[CharLength(t)..]))
  }

  lemma {:induction false} AsciiPrefixUtf8(a: Bytes, t: Bytes)
    requires forall b :: b in a ==> b < 128
    ensures Utf8(a + t) <==> Utf8(t)
  {
    if a == [] {
      assert a + t == t;
    } else {
      assert a[0] in a && (a + t)[1..] == a[1..] + t;
      assert CharLength(a + t) == 1;
      assert forall b :: b in a[1..] ==> b in a;
      AsciiPrefixUtf8(a[1..], t);
    }
  }
}
