/**
  The opaque pagination cursor of backend/api/src/notes.rs: "{micros}:{id}" in base64url without
  padding (section 5 of RFC 4648), with the id in canonical UUID text.
 */
module CursorCodec {
  import opened Basics
  import opened Bytes

  // ---- base64url, no padding ------------------------------------------------------------------

  type Sextet = n: nat | n < 64

  function Letter(s: Sextet): Byte {
    if s < 26 then 65 + s
    else if s < 52 then 97 + (s - 26)
    else if s < 62 then 48 + (s - 52)
    else if s == 62 then 45
    else 95
  }

  function Unletter(b: Byte): Option<Sextet> {
    if 65 <= b <= 90 then Some(b - 65)
    else if 97 <= b <= 122 then Some(b - 97 + 26)
    else if 48 <= b <= 57 then Some(b - 48 + 52)
    else if b == 45 then Some(62)
    else if b == 95 then Some(63)
    else None
  }

  lemma UnletterOfLetter(s: Sextet)
    ensures Unletter(Letter(s)) == Some(s)
  {
  }

  lemma LetterOfUnletter(b: Byte)
    requires Unletter(b).Some?
    ensures Letter(Unletter(b).value) == b
  {
  }

  /** The alphabet of section 5 of RFC 4648, in its order. */
  lemma Alphabet(s: Sextet)
    ensures s < 26 ==> Letter(s) == 'A' as int + s
    ensures 26 <= s < 52 ==> Letter(s) == 'a' as int + s - 26
    ensures 52 <= s < 62 ==> Letter(s) == '0' as int + s - 52
    ensures s == 62 ==> Letter(s) == '-' as int
    ensures s == 63 ==> Letter(s) == '_' as int
  {
  }

  function Letters(sextets: seq<Sextet>): Bytes {
    seq(|sextets|, i requires 0 <= i < |sextets| => Letter(sextets[i]))
  }

  /** None as soon as one character is outside the alphabet, '=' included. */
  function Unletters(t: Bytes): Option<seq<Sextet>> {
    if exists i :: 0 <= i < |t| && Unletter(t[i]).None? then None
    else Some(seq(|t|, i requires 0 <= i < |t| && Unletter(t[i]).Some? => Unletter(t[i]).value))
  }

  /** Three bytes as four sextets; a short last group is filled up with zero bits. */
  function Pack(b: Bytes): seq<Sextet> {
    if |b| == 0 then []
    else if |b| == 1 then [b[0] / 4, b[0] % 4 * 16]
    else
      var head := [b[0] / 4, b[0] % 4 * 16 + b[1] / 16];
      if |b| == 2 then head + [b[1] % 16 * 4]
      else head + [b[1] % 16 * 4 + b[2] / 64, b[2] % 64] + Pack(b[3..])
  }

  function First(s0: Sextet, s1: Sextet): Byte { s0 as int * 4 + s1 as int / 16 }

  function Second(s1: Sextet, s2: Sextet): Byte { s1 as int % 16 * 16 + s2 as int / 4 }

  function Third(s2: Sextet, s3: Sextet): Byte { s2 as int % 4 * 64 + s3 as int }

  function Bits(s: seq<Sextet>): nat { if s == [] then 0 else Bits(s[..|s| - 1]) * 64 + s[|s| - 1] as nat }

  lemma FourSextets(a: Sextet, b: Sextet, c: Sextet, d: Sextet)
    ensures Bits([a, b]) == a as nat * 64 + b as nat
    ensures Bits([a, b, c]) == (a as nat * 64 + b as nat) * 64 + c as nat
    ensures Bits([a, b, c, d]) == ((a as nat * 64 + b as nat) * 64 + c as nat) * 64 + d as nat
  {
    assert [a][..0] == [] && [a, b][..1] == [a] && [a, b, c][..2] == [a, b] && [a, b, c, d][..3] == [a, b, c];
    assert Bits([a]) == a as nat;
    assert Bits([a, b]) == a as nat * 64 + b as nat;
  }

  /**
    Read as one number, a group of bytes is its sextets: 24 bits in four of them, 16 bits and two
    zeros in three, 8 bits and four zeros in two.
   */
  lemma PackIsBigEndian(b: Bytes)
    ensures |b| == 1 ==> |Pack(b)| == 2 && Bits(Pack(b)) == b[0] as nat * 16
    ensures |b| == 2 ==> |Pack(b)| == 3 && Bits(Pack(b)) == (b[0] as nat * 256 + b[1] as nat) * 4
    ensures 3 <= |b| ==>
              && 4 <= |Pack(b)| && Pack(b)[4..] == Pack(b[3..])
              && Bits(Pack(b)[..4]) == (b[0] as nat * 256 + b[1] as nat) * 256 + b[2] as nat
  {
    if |b| == 1 {
      FourSextets(Pack(b)[0], Pack(b)[1], 0, 0);
    } else if |b| == 2 {
      FourSextets(Pack(b)[0], Pack(b)[1], Pack(b)[2], 0);
    } else if 3 <= |b| {
      FourSextets(Pack(b)[0], Pack(b)[1], Pack(b)[2], Pack(b)[3]);
      assert Pack(b)[..4] == [Pack(b)[0], Pack(b)[1], Pack(b)[2], Pack(b)[3]];
    }
  }

  // Strict: a lone sextet and stray bits behind the last byte are errors.
  function Unpack(s: seq<Sextet>): Option<Bytes> {
    if |s| == 0 then Some([])
    else if |s| == 1 then None
    else if |s| == 2 then
      (if s[1] % 16 == 0 then Some([First(s[0], s[1])]) else None)
    else if |s| == 3 then
      (if s[2] % 4 == 0 then Some([First(s[0], s[1]), Second(s[1], s[2])]) else None)
    else
      var rest := Unpack(s[4..]);
      if rest.None? then None
      else Some([First(s[0], s[1]), Second(s[1], s[2]), Third(s[2], s[3])] + rest.value)
  }

  lemma BytesOfSextets(b0: Byte, b1: Byte, b2: Byte)
    ensures First(b0 / 4, b0 % 4 * 16 + b1 / 16) == b0
    ensures Second(b0 % 4 * 16 + b1 / 16, b1 % 16 * 4 + b2 / 64) == b1
    ensures Third(b1 % 16 * 4 + b2 / 64, b2 % 64) == b2
  {
  }

  lemma SextetsOfBytes(s0: Sextet, s1: Sextet, s2: Sextet, s3: Sextet)
    ensures First(s0, s1) / 4 == s0 && Third(s2, s3) % 64 == s3
    ensures First(s0, s1) % 4 * 16 + Second(s1, s2) / 16 == s1
    ensures Second(s1, s2) % 16 * 4 + Third(s2, s3) / 64 == s2
    ensures s1 % 16 == 0 ==> First(s0, s1) % 4 * 16 == s1
    ensures s2 % 4 == 0 ==> Second(s1, s2) % 16 * 4 == s2
  {
  }

  lemma {:induction false} UnpackOfPack(b: Bytes)
    ensures Unpack(Pack(b)) == Some(b)
  {
    if |b| == 0 {
    } else if |b| == 1 {
      assert b == [b[0]];
    } else if |b| == 2 {
      assert b == [b[0], b[1]];
    } else {
      UnpackOfPack(b[3..]);
      BytesOfSextets(b[0], b[1], b[2]);
      assert Pack(b)[4..] == Pack(b[3..]);
      assert b == [b[0], b[1], b[2]] + b[3..];
    }
  }

  lemma {:induction false} PackOfUnpack(s: seq<Sextet>)
    requires Unpack(s).Some?
    ensures Pack(Unpack(s).value) == s
  {
    if 4 <= |s| {
      PackOfUnpack(s[4..]);
      SextetsOfBytes(s[0], s[1], s[2], s[3]);
      var rest := Unpack(s[4..]).value;
      var head := [First(s[0], s[1]), Second(s[1], s[2]), Third(s[2], s[3])];
      assert (head + rest)[3..] == rest;
      assert s == [s[0], s[1]] + [s[2], s[3]] + s[4..];
    } else if |s| == 2 {
      SextetsOfBytes(s[0], s[1], 0, 0);
      assert s == [s[0], s[1]];
    } else if |s| == 3 {
      SextetsOfBytes(s[0], s[1], s[2], 0);
      assert s == [s[0], s[1]] + [s[2]];
    }
  }

  function Base64Encode(b: Bytes): Bytes { Letters(Pack(b)) }

  function Base64Decode(t: Bytes): Option<Bytes> {
    var sextets := Unletters(t);
    if sextets.None? then None else Unpack(sextets.value)
  }

  /** Every byte string survives ... */
  lemma DecodeOfEncode(b: Bytes)
    ensures Base64Decode(Base64Encode(b)) == Some(b)
  {
    UnlettersOfLetters(Pack(b));
    UnpackOfPack(b);
  }

  /** ... and the decoder accepts nothing but encodings. */
  lemma EncodeOfDecode(t: Bytes)
    requires Base64Decode(t).Some?
    ensures Base64Encode(Base64Decode(t).value) == t
  {
    var s := Unletters(t).value;
    PackOfUnpack(s);
    forall i | 0 <= i < |t| ensures t[i] == Letters(s)[i] {
      LetterOfUnletter(t[i]);
    }
    assert t == Letters(s);
  }

  lemma UnlettersOfLetters(s: seq<Sextet>)
    ensures Unletters(Letters(s)) == Some(s)
  {
    forall i | 0 <= i < |s| ensures Unletter(Letters(s)[i]) == Some(s[i]) {
      UnletterOfLetter(s[i]);
    }
    assert Unletters(Letters(s)).value == s;
  }

  // ---- UUID text ------------------------------------------------------------------------------

  type Nibble = n: nat | n < 16
  type Uuid = u: seq<Nibble> | |u| == 32 witness seq(32, _ => 0)

  function HexDigit(n: Nibble): Byte { if n < 10 then 48 + n else 97 + (n - 10) }

  function Unhex(b: Byte): Option<Nibble> {
    if 48 <= b <= 57 then Some(b - 48)
    else if 97 <= b <= 102 then Some(b - 87)
    else if 65 <= b <= 70 then Some(b - 55)
    else None
  }

  // Positions of the 32 digits in the 36-byte text.
  function TextIndex(k: nat): nat {
    if k < 8 then k else if k < 12 then k + 1 else if k < 16 then k + 2 else if k < 20 then k + 3 else k + 4
  }

  predicate HyphenAt(i: nat) { i == 8 || i == 13 || i == 18 || i == 23 }

  // The digit a non-hyphen position holds.
  function DigitIndex(i: nat): nat {
    if i < 8 then i else if i < 13 then i - 1 else if i < 18 then i - 2 else if i < 23 then i - 3 else i - 4
  }

  function UuidText(u: Uuid): (t: Bytes)
    ensures |t| == 36
  {
    seq(36, i requires 0 <= i < 36 => if HyphenAt(i) then 45 else HexDigit(u[DigitIndex(i)]))
  }

  /** Lower-case hex digits in the groups 8-4-4-4-12 of section 4 of RFC 9562. */
  lemma UuidTextForm(u: Uuid)
    ensures forall i :: i in [8, 13, 18, 23] ==> UuidText(u)[i] == '-' as int
    ensures forall k: nat :: k < 8 ==> UuidText(u)[k] == HexDigit(u[k])
    ensures forall k: nat :: 8 <= k < 12 ==> UuidText(u)[k + 1] == HexDigit(u[k])
    ensures forall k: nat :: 12 <= k < 16 ==> UuidText(u)[k + 2] == HexDigit(u[k])
    ensures forall k: nat :: 16 <= k < 20 ==> UuidText(u)[k + 3] == HexDigit(u[k])
    ensures forall k: nat :: 20 <= k < 32 ==> UuidText(u)[k + 4] == HexDigit(u[k])
    ensures forall n: Nibble :: HexDigit(n) == if n < 10 then '0' as int + n else 'a' as int + n - 10
  {
  }

  function DigitsFrom(t: Bytes, at: nat -> nat): Option<Uuid>
    requires forall k: nat :: k < 32 ==> at(k) < |t|
  {
    if exists k: nat :: k < 32 && Unhex(t[at(k)]).None? then None
    else Some(seq(32, k requires 0 <= k < 32 && Unhex(t[at(k)]).Some? => Unhex(t[at(k)]).value))
  }

  /** The hyphenated and the plain 32-digit forms. */
  function ParseUuid(t: Bytes): Option<Uuid> {
    if |t| == 36 && forall i: nat :: i < 36 && HyphenAt(i) ==> t[i] == 45 then DigitsFrom(t, TextIndex)
    else if |t| == 32 then DigitsFrom(t, k => k)
    else None
  }

  lemma ParseOfUuidText(u: Uuid)
    ensures ParseUuid(UuidText(u)) == Some(u)
  {
    var t := UuidText(u);
    forall k: nat | k < 32 ensures TextIndex(k) < 36 && Unhex(t[TextIndex(k)]) == Some(u[k]) {
      assert !HyphenAt(TextIndex(k)) && DigitIndex(TextIndex(k)) == k;
    }
    var d := DigitsFrom(t, TextIndex);
    assert d.value == u;
  }

  // ---- the cursor -----------------------------------------------------------------------------

  function EncodeCursor(micros: int, id: Bytes): Bytes {
    Base64Encode(SignedDecimal(micros) + [58] + id)
  }

  /** Before base64 a cursor is the decimal microseconds, a colon and the id. */
  lemma CursorText(micros: int, id: Bytes)
    ensures Base64Decode(EncodeCursor(micros, id)) == Some(SignedDecimal(micros) + [':' as int] + id)
  {
    DecodeOfEncode(SignedDecimal(micros) + [58] + id);
  }

  /** Bytes before and after the first colon. */
  function SplitAtColon(raw: Bytes): Option<(Bytes, Bytes)> {
    if raw == [] then None
    else if raw[0] == 58 then Some(([], raw[1..]))
    else
      var rest := SplitAtColon(raw[1..]);
      if rest.None? then None else Some(([raw[0]] + rest.value.0, rest.value.1))
  }

  /** None for garbage: no base64, no UTF-8, no colon or no number in front of it. */
  function DecodeCursor(cursor: Bytes): Option<(int, Bytes)> {
    var raw := Base64Decode(cursor);
    if raw.None? || !Utf8(raw.value) then None
    else
      var parts := SplitAtColon(raw.value);
      if parts.None? then None
      else
        var micros := ParseI64(parts.value.0);
        if micros.None? then None else Some((micros.value, parts.value.1))
  }

  lemma {:induction false} SplitAfterColonFree(a: Bytes, b: Bytes)
    requires 58 !in a
    ensures SplitAtColon(a + [58] + b) == Some((a, b))
  {
    var raw := a + [58] + b;
    if a == [] {
      assert raw[1..] == b;
    } else {
      assert raw[1..] == a[1..] + [58] + b;
      SplitAfterColonFree(a[1..], b);
      assert a == [a[0]] + a[1..];
    }
  }

  lemma ColonFree(micros: int)
    ensures 58 !in SignedDecimal(micros) && forall b :: b in SignedDecimal(micros) ==> b < 128
  {
    var d := SignedDecimal(micros);
    assert forall b :: b in d ==> b == 45 || Digit(b);
  }

  /** Round trip for every 64-bit microsecond count and every id in UTF-8, colons in the id included. */
  lemma CursorRoundTrip(micros: int, id: Bytes)
    requires I64_MIN <= micros <= I64_MAX
    requires Utf8(id)
    ensures DecodeCursor(EncodeCursor(micros, id)) == Some((micros, id))
  {
    var head := SignedDecimal(micros);
    var raw := head + [58] + id;
    DecodeOfEncode(raw);
    ColonFree(micros);
    assert raw == (head + [58]) + id;
    AsciiPrefixUtf8(head + [58], id);
    assert SplitAtColon(raw) == Some((head, id)) by { SplitAfterColonFree(head, id); }
    assert ParseI64(head) == Some(micros) by { ParseOfSignedDecimal(micros); }
  }
}
