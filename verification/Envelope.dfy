/**
  The signed envelope between the Rust backend and the Python sidecar: both sides serialise
  (user_id, email, name, timestamp) to JSON and sign the bytes. Section 7 of RFC 8259 governs the
  escapes. Fields are the bytes on the wire.
 */
module Envelope {
  import opened Basics
  import opened Bytes

  const QUOTE: Byte := 34
  const BACKSLASH: Byte := 92

  function HexLower(n: nat): Byte
    requires n < 16
  {
    if n < 10 then 48 + n else 87 + n
  }

  /** \u00XX with lower-case digits. */
  function UnicodeEscape(b: Byte): Bytes {
    [BACKSLASH, 117, 48, 48, HexLower(b / 16), HexLower(b % 16)]
  }

  /** The escapes both serialisers share: quote, backslash and the control characters. */
  function ShortOrUnicode(b: Byte): Bytes {
    if b == QUOTE then [BACKSLASH, QUOTE]
    else if b == BACKSLASH then [BACKSLASH, BACKSLASH]
    else if b == 8 then [BACKSLASH, 98]
    else if b == 9 then [BACKSLASH, 116]
    else if b == 10 then [BACKSLASH, 110]
    else if b == 12 then [BACKSLASH, 102]
    else if b == 13 then [BACKSLASH, 114]
    else UnicodeEscape(b)
  }

  /** serde_json: everything from 0x20 on other than quote and backslash goes out as it is. */
  function RustEscape(b: Byte): Bytes {
    if 32 <= b && b != QUOTE && b != BACKSLASH then [b] else ShortOrUnicode(b)
  }

  /** json.dumps with ensure_ascii on latin-1 text: only 0x20-0x7e go out as they are. */
  function PythonEscape(b: Byte): Bytes {
    if 32 <= b <= 126 && b != QUOTE && b != BACKSLASH then [b] else ShortOrUnicode(b)
  }

  function Escaped(s: Bytes, escape: Byte -> Bytes): Bytes {
    if s == [] then [] else escape(s[0]) + Escaped(s[1..], escape)
  }

  function Quoted(s: Bytes, escape: Byte -> Bytes): Bytes {
    [QUOTE] + Escaped(s, escape) + [QUOTE]
  }

  datatype Identity = Identity(userId: Bytes, email: Bytes, name: Bytes, timestamp: nat)

  function EmailTag(): Bytes { Ascii("{\"email\":") }
  function NameTag(): Bytes { Ascii(",\"name\":") }
  function TimestampTag(): Bytes { Ascii(",\"timestamp\":") }
  function UserIdTag(): Bytes { Ascii(",\"user_id\":") }

  // The compact object with sorted keys, for either side's escaping: each function adds one member in front.
  function FromUserId(i: Identity, escape: Byte -> Bytes): Bytes {
    UserIdTag() + Quoted(i.userId, escape) + Ascii("}")
  }

  function FromTimestamp(i: Identity, escape: Byte -> Bytes): Bytes {
    TimestampTag() + Decimal(i.timestamp) + FromUserId(i, escape)
  }

  function FromName(i: Identity, escape: Byte -> Bytes): Bytes {
    NameTag() + Quoted(i.name, escape) + FromTimestamp(i, escape)
  }

  function Payload(i: Identity, escape: Byte -> Bytes): Bytes {
    EmailTag() + Quoted(i.email, escape) + FromName(i, escape)
  }

  function RustPayload(i: Identity): Bytes { Payload(i, RustEscape) }

  // The timestamp header is re-serialised from the parsed number.
  function PythonPayload(i: Identity): Bytes { Payload(i, PythonEscape) }

  // ---- reading a payload back -----------------------------------------------------------------

  function HexValue(b: Byte): Option<nat> {
    if 48 <= b <= 57 then Some(b - 48) else if 97 <= b <= 102 then Some(b - 87) else None
  }

  /** One possibly escaped byte and what follows it. */
  function ReadByte(t: Bytes): Option<(Byte, Bytes)> {
    if t == [] then None
    else if t[0] != BACKSLASH then Some((t[0], t[1..]))
    else if |t| < 2 then None
    else if t[1] == QUOTE || t[1] == BACKSLASH then Some((t[1], t[2..]))
    else if t[1] == 98 then Some((8, t[2..]))
    else if t[1] == 116 then Some((9, t[2..]))
    else if t[1] == 110 then Some((10, t[2..]))
    else if t[1] == 102 then Some((12, t[2..]))
    else if t[1] == 114 then Some((13, t[2..]))
    else if |t| < 6 || t[1] != 117 then None
    else
      var hi, lo := HexValue(t[4]), HexValue(t[5]);
      if hi.None? || lo.None? then None else Some((hi.value * 16 + lo.value, t[6..]))
  }

  /** Content of a string literal after its opening quote, and what follows its closing one. */
  function ReadString(t: Bytes): Option<(Bytes, Bytes)>
    decreases |t|
  {
    if t == [] then None
    else if t[0] == QUOTE then Some(([], t[1..]))
    else
      var one := ReadByte(t);
      if one.None? then None
      else
        assert |one.value.1| < |t|;
        var rest := ReadString(one.value.1);
        if rest.None? then None else Some(([one.value.0] + rest.value.0, rest.value.1))
  }

  /** Escapes that `ReadByte` undoes; both sides' are. */
  ghost predicate Readable(escape: Byte -> Bytes) {
    forall b: Byte, t: Bytes ::
      var text := escape(b) + t;
      text != [] && text[0] != QUOTE && ReadByte(text) == Some((b, t))
  }

  lemma ReadEscaped(escape: Byte -> Bytes, b: Byte, t: Bytes)
    requires escape == RustEscape || escape == PythonEscape
    ensures ReadByte(escape(b) + t) == Some((b, t)) && (escape(b) + t)[0] != QUOTE
  {
    var e := escape(b);
    assert (e + t)[|e|..] == t;
    if |e| == 1 {
      assert (e + t)[1..] == t;
    }
  }

  lemma BothReadable()
    ensures Readable(RustEscape) && Readable(PythonEscape)
  {
    forall b: Byte, t: Bytes
      ensures ReadByte(RustEscape(b) + t) == Some((b, t)) && (RustEscape(b) + t)[0] != QUOTE
      ensures ReadByte(PythonEscape(b) + t) == Some((b, t)) && (PythonEscape(b) + t)[0] != QUOTE
    {
      ReadEscaped(RustEscape, b, t);
      ReadEscaped(PythonEscape, b, t);
    }
  }

  lemma {:induction false} ReadQuoted(escape: Byte -> Bytes, s: Bytes, t: Bytes)
    requires Readable(escape)
    ensures ReadString(Escaped(s, escape) + [QUOTE] + t) == Some((s, t))
  {
    var text := Escaped(s, escape) + [QUOTE] + t;
    if s == [] {
      assert text[1..] == t;
    } else {
      var rest := Escaped(s[1..], escape) + [QUOTE] + t;
      assert text == escape(s[0]) + rest by {
        ConcatAssociates(escape(s[0]), Escaped(s[1..], escape), [QUOTE]);
        ConcatAssociates(escape(s[0]), Escaped(s[1..], escape) + [QUOTE], t);
      }
      ReadQuoted(escape, s[1..], t);
      assert s == [s[0]] + s[1..];
    }
  }

  function Strip(t: Bytes, prefix: Bytes): Option<Bytes> {
    if prefix <= t then Some(t[|prefix|..]) else None
  }

  /** The digits in front of t. */
  function DigitPrefix(t: Bytes): (d: Bytes)
    ensures forall b :: b in d ==> Digit(b)
  {
    if t == [] || !Digit(t[0]) then [] else [t[0]] + DigitPrefix(t[1..])
  }

  lemma {:induction false} DigitPrefixStops(d: Bytes, t: Bytes)
    requires forall b :: b in d ==> Digit(b)
    requires t != [] && !Digit(t[0])
    ensures DigitPrefix(d + t) == d && |d| <= |d + t| && (d + t)[|d|..] == t
  {
    if d == [] {
      assert d + t == t;
    } else {
      assert d[0] in d && (d + t)[1..] == d[1..] + t;
      DigitPrefixStops(d[1..], t);
      assert d == [d[0]] + d[1..];
    }
  }

  // Field by field, each parser hands on what follows its field.
  function ReadField(t: Bytes, tag: Bytes): Option<(Bytes, Bytes)> {
    var body := Strip(t, tag + [QUOTE]);
    if body.None? then None else ReadString(body.value)
  }

  lemma ReadFieldOf(escape: Byte -> Bytes, tag: Bytes, s: Bytes, t: Bytes)
    requires Readable(escape)
    ensures ReadField(tag + Quoted(s, escape) + t, tag) == Some((s, t))
  {
    var whole := tag + Quoted(s, escape) + t;
    var body := Escaped(s, escape) + [QUOTE] + t;
    assert whole == (tag + [QUOTE]) + body;
    assert whole[|tag + [QUOTE]|..] == body;
    ReadQuoted(escape, s, t);
  }

  function ReadNumber(t: Bytes, tag: Bytes): Option<(nat, Bytes)> {
    var body := Strip(t, tag);
    if body.None? || |body.value| < |DigitPrefix(body.value)| then None
    else Some((Value(DigitPrefix(body.value)), body.value[|DigitPrefix(body.value)|..]))
  }

  lemma ReadNumberOf(tag: Bytes, n: nat, t: Bytes)
    requires t != [] && !Digit(t[0])
    ensures ReadNumber(tag + Decimal(n) + t, tag) == Some((n, t))
  {
    var whole, body := tag + Decimal(n) + t, Decimal(n) + t;
    assert whole == tag + body && whole[|tag|..] == body;
    DigitPrefixStops(Decimal(n), t);
    ValueOfDecimal(n);
  }

  /** A reader of exactly the payloads. */
  function ReadPayload(t: Bytes): Option<Identity> {
    var email := ReadField(t, EmailTag());
    if email.None? then None else
    var name := ReadField(email.value.1, NameTag());
    if name.None? then None else
    var ts := ReadNumber(name.value.1, TimestampTag());
    if ts.None? then None else
    var user := ReadField(ts.value.1, UserIdTag());
    if user.None? || user.value.1 != Ascii("}") then None
    else Some(Identity(user.value.0, email.value.0, name.value.0, ts.value.0))
  }

  lemma PayloadReads(i: Identity, escape: Byte -> Bytes)
    requires Readable(escape)
    ensures ReadPayload(Payload(i, escape)) == Some(i)
  {
    ReadFieldOf(escape, EmailTag(), i.email, FromName(i, escape));
    ReadFieldOf(escape, NameTag(), i.name, FromTimestamp(i, escape));
    ReadNumberOf(TimestampTag(), i.timestamp, FromUserId(i, escape));
    ReadFieldOf(escape, UserIdTag(), i.userId, Ascii("}"));
  }

  /** Every payload of either side can be read back, whatever bytes the fields hold. */
  lemma PayloadReadsBack(i: Identity)
    ensures ReadPayload(RustPayload(i)) == Some(i) && ReadPayload(PythonPayload(i)) == Some(i)
  {
    BothReadable();
    PayloadReads(i, RustEscape);
    PayloadReads(i, PythonEscape);
  }

  /** Distinct identities or timestamps never share a payload, on either side or across them. */
  lemma PayloadInjective(i: Identity, j: Identity)
    ensures RustPayload(i) == RustPayload(j) ==> i == j
    ensures PythonPayload(i) == PythonPayload(j) ==> i == j
    ensures RustPayload(i) == PythonPayload(j) ==> i == j
  {
    PayloadReadsBack(i);
    PayloadReadsBack(j);
  }

  // ---- what a payload looks like --------------------------------------------------------------

  /** The escapes of section 7 of RFC 8259 with a letter, and the numbered one in lower-case hex. */
  lemma ShortEscapes(b: Byte)
    requires b < 32 || b == QUOTE || b == BACKSLASH
    ensures RustEscape(b) == PythonEscape(b)
    ensures b == '\"' as int ==> RustEscape(b) == Ascii("\\\"")
    ensures b == '\\' as int ==> RustEscape(b) == Ascii("\\\\")
    ensures b == '\t' as int ==> RustEscape(b) == Ascii("\\t")
    ensures b == '\n' as int ==> RustEscape(b) == Ascii("\\n")
    ensures b == '\r' as int ==> RustEscape(b) == Ascii("\\r")
    ensures b == 8 ==> RustEscape(b) == Ascii("\\b")
    ensures b == 12 ==> RustEscape(b) == Ascii("\\f")
    ensures b < 32 && b !in [8, 9, 10, 12, 13] ==>
              RustEscape(b) == Ascii("\\u00") + [Ascii("0123456789abcdef")[b / 16], Ascii("0123456789abcdef")[b % 16]]
  {
  }

  predicate Verbatim(s: Bytes) { forall b :: b in s ==> 32 <= b <= 126 && b != QUOTE && b != BACKSLASH }

  lemma {:induction false} VerbatimUnescaped(s: Bytes, escape: Byte -> Bytes)
    requires Verbatim(s) && (escape == RustEscape || escape == PythonEscape)
    ensures Escaped(s, escape) == s
  {
    if s == [] {
    } else {
      assert s[0] in s && forall b :: b in s[1..] ==> b in s;
      VerbatimUnescaped(s[1..], escape);
      assert s == [s[0]] + s[1..];
    }
  }

  function InQuotes(s: Bytes): Bytes { ['"' as int] + s + ['"' as int] }

  /** For fields without anything to escape, the compact JSON object with its keys in order. */
  lemma PayloadText(i: Identity, escape: Byte -> Bytes)
    requires Verbatim(i.userId) && Verbatim(i.email) && Verbatim(i.name)
    requires escape == RustEscape || escape == PythonEscape
    ensures Payload(i, escape)
         == Ascii("{\"email\":") + InQuotes(i.email)
            + (Ascii(",\"name\":") + InQuotes(i.name)
               + (Ascii(",\"timestamp\":") + Decimal(i.timestamp)
                  + (Ascii(",\"user_id\":") + InQuotes(i.userId) + Ascii("}"))))
  {
    VerbatimUnescaped(i.userId, escape);
    VerbatimUnescaped(i.email, escape);
    VerbatimUnescaped(i.name, escape);
  }

  // ---- agreement of the two sides -------------------------------------------------------------

  predicate PlainAscii(s: Bytes) { forall k :: 0 <= k < |s| ==> s[k] <= 126 }

  lemma PlainConcat(a: Bytes, b: Bytes)
    ensures PlainAscii(a + b) <==> PlainAscii(a) && PlainAscii(b)
  {
    if PlainAscii(a + b) {
      forall k | 0 <= k < |a| ensures a[k] <= 126 { assert (a + b)[k] <= 126; }
      forall k | 0 <= k < |b| ensures b[k] <= 126 { assert (a + b)[|a| + k] <= 126; }
    }
  }

  lemma {:induction false} PythonIsAscii(s: Bytes)
    ensures PlainAscii(Escaped(s, PythonEscape))
  {
    if s == [] {
    } else {
      PythonIsAscii(s[1..]);
      PlainConcat(PythonEscape(s[0]), Escaped(s[1..], PythonEscape));
    }
  }

  lemma RustEscapeIsAscii(b: Byte)
    ensures PlainAscii(RustEscape(b)) <==> b <= 126
  {
    if 126 < b {
      assert RustEscape(b)[0] == b;
    }
  }

  lemma {:induction false} RustIsAsciiOnAscii(s: Bytes)
    ensures PlainAscii(Escaped(s, RustEscape)) <==> PlainAscii(s)
  {
    if s == [] {
    } else {
      RustIsAsciiOnAscii(s[1..]);
      RustEscapeIsAscii(s[0]);
      PlainConcat(RustEscape(s[0]), Escaped(s[1..], RustEscape));
      PlainConcat([s[0]], s[1..]);
      assert s == [s[0]] + s[1..];
    }
  }

  lemma {:induction false} SameEscapes(s: Bytes)
    requires PlainAscii(s)
    ensures Escaped(s, RustEscape) == Escaped(s, PythonEscape)
  {
    if s == [] {
    } else {
      SameEscapes(s[1..]);
    }
  }

  lemma PlainField(tag: Bytes, s: Bytes, escape: Byte -> Bytes, rest: Bytes)
    requires PlainAscii(tag)
    ensures PlainAscii(tag + Quoted(s, escape) + rest) <==> PlainAscii(Escaped(s, escape)) && PlainAscii(rest)
  {
    PlainConcat([QUOTE] + Escaped(s, escape), [QUOTE]);
    PlainConcat([QUOTE], Escaped(s, escape));
    PlainConcat(tag, Quoted(s, escape));
    PlainConcat(tag + Quoted(s, escape), rest);
  }

  lemma PlainNumber(i: Identity, escape: Byte -> Bytes)
    ensures PlainAscii(FromTimestamp(i, escape)) <==> PlainAscii(FromUserId(i, escape))
  {
    forall k | 0 <= k < |Decimal(i.timestamp)| ensures Decimal(i.timestamp)[k] <= 126 {
      assert Digit(Decimal(i.timestamp)[k]);
    }
    PlainConcat(TimestampTag(), Decimal(i.timestamp));
    PlainConcat(TimestampTag() + Decimal(i.timestamp), FromUserId(i, escape));
  }

  lemma PlainTail(i: Identity, escape: Byte -> Bytes)
    ensures PlainAscii(FromName(i, escape))
        <==> PlainAscii(Escaped(i.name, escape)) && PlainAscii(Escaped(i.userId, escape))
  {
    PlainField(NameTag(), i.name, escape, FromTimestamp(i, escape));
    PlainNumber(i, escape);
    PlainField(UserIdTag(), i.userId, escape, Ascii("}"));
  }

  lemma PlainPayload(i: Identity, escape: Byte -> Bytes)
    ensures PlainAscii(Payload(i, escape)) <==>
              && PlainAscii(Escaped(i.userId, escape)) && PlainAscii(Escaped(i.email, escape))
              && PlainAscii(Escaped(i.name, escape))
  {
    PlainTail(i, escape);
    PlainField(EmailTag(), i.email, escape, FromName(i, escape));
  }

  /**
    The two payloads are the same bytes exactly when every field is ASCII without DEL: beyond that
    the Rust side signs raw bytes where the Python side signs escapes.
   */
  lemma PayloadsAgree(i: Identity)
    ensures RustPayload(i) == PythonPayload(i)
        <==> PlainAscii(i.userId) && PlainAscii(i.email) && PlainAscii(i.name)
  {
    if PlainAscii(i.userId) && PlainAscii(i.email) && PlainAscii(i.name) {
      SameEscapes(i.userId); SameEscapes(i.email); SameEscapes(i.name);
    }
    PythonIsAscii(i.userId); PythonIsAscii(i.email); PythonIsAscii(i.name);
    RustIsAsciiOnAscii(i.userId); RustIsAsciiOnAscii(i.email); RustIsAsciiOnAscii(i.name);
    PlainPayload(i, RustEscape);
    PlainPayload(i, PythonEscape);
  }
}
