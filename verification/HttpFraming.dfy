/** Hand-written HTTP/1.1 framing of the sidecar client: section 2.1 and section 5 of RFC 9112. */
module HttpFraming {
  import opened Basics
  import opened Bytes
  import opened CursorCodec
  import opened SidecarRetry

  const CR: Byte := 13
  const LF: Byte := 10
  const SP: Byte := 32
  const MAX_HEADER_VALUE_LEN: nat := 256
  const MAX_RESPONSE_SIZE: nat := 1_048_576

  function Crlf(): Bytes { [CR, LF] }

  predicate LineSafe(b: Bytes) { CR !in b && LF !in b }

  predicate HeaderValueOk(value: Bytes) { LineSafe(value) && |value| <= MAX_HEADER_VALUE_LEN }

  function ValidateHeaderValue(name: string, value: Bytes): (bad: Option<SidecarError>)
    requires forall i :: 0 <= i < |name| ==> name[i] as int < 128
    ensures bad.None? <==> 10 !in value && 13 !in value && |value| <= 256
    ensures 10 in value || 13 in value ==>
              bad == Some(InvalidInput(Ascii(name) + Ascii(" contains invalid characters")))
    ensures 10 !in value && 13 !in value && 256 < |value| ==>
              bad == Some(InvalidInput(Ascii(name) + Ascii(" exceeds maximum length (256 bytes)")))
  {
    if CR in value || LF in value then Some(InvalidInput(Ascii(name) + Ascii(" contains invalid characters")))
    else if MAX_HEADER_VALUE_LEN < |value| then
      Some(InvalidInput(Ascii(name) + Ascii(" exceeds maximum length (256 bytes)")))
    else None
  }

  datatype AuthHeaders = AuthHeaders(userId: Bytes, email: Bytes, name: Bytes, timestamp: nat, signature: Bytes)

  predicate IsAscii(s: string) { forall i :: 0 <= i < |s| ==> s[i] as int < 128 }

  function Header(name: string, value: Bytes): Bytes
    requires IsAscii(name)
  {
    Ascii(name) + [58, SP] + value
  }

  // The intended lines, in order.
  function IdentityLines(a: AuthHeaders): seq<Bytes> {
    [Header("X-User-Id", a.userId), Header("X-User-Email", a.email), Header("X-User-Name", a.name)]
  }

  function SignatureLines(a: AuthHeaders, nonce: Uuid): seq<Bytes> {
    [Header("X-Timestamp", Decimal(a.timestamp)), Header("X-Nonce", UuidText(nonce)),
     Header("X-Auth-Signature", a.signature)]
  }

  function AuthLines(a: AuthHeaders, nonce: Uuid): seq<Bytes> {
    IdentityLines(a) + SignatureLines(a, nonce)
  }

  function RequestLine(path: Bytes): Bytes { Ascii("GET ") + path + Ascii(" HTTP/1.1") }

  function HostLines(): seq<Bytes> { [Header("Host", Ascii("localhost")), Header("Connection", Ascii("close"))] }

  function FixedLines(path: Bytes): seq<Bytes> {
    [RequestLine(path)] + HostLines()
  }

  function TraceLines(traceId: Option<Bytes>): seq<Bytes> {
    if traceId.Some? then [Header("x-trace-id", traceId.value)] else []
  }

  function OptionalAuthLines(auth: Option<AuthHeaders>, nonce: Uuid): seq<Bytes> {
    if auth.Some? then AuthLines(auth.value, nonce) else []
  }

  function RequestLines(path: Bytes, traceId: Option<Bytes>, auth: Option<AuthHeaders>, nonce: Uuid): seq<Bytes> {
    FixedLines(path)
    + TraceLines(traceId)
    + OptionalAuthLines(auth, nonce)
  }

  /** Every line with its terminator. */
  function Terminated(lines: seq<Bytes>): Bytes {
    if lines == [] then [] else lines[0] + Crlf() + Terminated(lines[1..])
  }

  predicate Accepted(path: Bytes, traceId: Option<Bytes>, auth: Option<AuthHeaders>) {
    && HeaderValueOk(path)
    && (traceId.Some? ==> HeaderValueOk(traceId.value))
    && (auth.Some? ==>
          && HeaderValueOk(auth.value.userId) && HeaderValueOk(auth.value.email)
          && HeaderValueOk(auth.value.name) && HeaderValueOk(auth.value.signature))
  }

  lemma {:induction false} TerminatedConcat(a: seq<Bytes>, b: seq<Bytes>)
    ensures Terminated(a + b) == Terminated(a) + Terminated(b)
  {
    if a == [] {
      assert a + b == b;
    } else {
      assert (a + b)[1..] == a[1..] + b;
      TerminatedConcat(a[1..], b);
    }
  }

  /** The first identity header with a bad value, in the order they are sent. */
  function ValidateAuth(a: AuthHeaders): (bad: Option<SidecarError>)
    ensures bad.None? <==>
              HeaderValueOk(a.userId) && HeaderValueOk(a.email) && HeaderValueOk(a.name) && HeaderValueOk(a.signature)
    ensures !HeaderValueOk(a.userId) ==> bad == ValidateHeaderValue("X-User-Id", a.userId)
    ensures HeaderValueOk(a.userId) && !HeaderValueOk(a.email) ==> bad == ValidateHeaderValue("X-User-Email", a.email)
    ensures HeaderValueOk(a.userId) && HeaderValueOk(a.email) && !HeaderValueOk(a.name) ==>
              bad == ValidateHeaderValue("X-User-Name", a.name)
    ensures HeaderValueOk(a.userId) && HeaderValueOk(a.email) && HeaderValueOk(a.name) && bad.Some? ==>
              bad == ValidateHeaderValue("X-Auth-Signature", a.signature)
  {
    if ValidateHeaderValue("X-User-Id", a.userId).Some? then ValidateHeaderValue("X-User-Id", a.userId)
    else if ValidateHeaderValue("X-User-Email", a.email).Some? then ValidateHeaderValue("X-User-Email", a.email)
    else if ValidateHeaderValue("X-User-Name", a.name).Some? then ValidateHeaderValue("X-User-Name", a.name)
    else ValidateHeaderValue("X-Auth-Signature", a.signature)
  }

  /** The first validation error, in the order path, trace id, identity headers. */
  method ValidateAll(path: Bytes, traceId: Option<Bytes>, auth: Option<AuthHeaders>) returns (bad: Option<SidecarError>)
    ensures bad.None? <==> Accepted(path, traceId, auth)
    ensures bad.Some? ==> bad.value.InvalidInput?
    ensures !HeaderValueOk(path) ==> bad == ValidateHeaderValue("path", path)
    ensures HeaderValueOk(path) && traceId.Some? && !HeaderValueOk(traceId.value) ==>
              bad == ValidateHeaderValue("trace_id", traceId.value)
    ensures HeaderValueOk(path) && (traceId.Some? ==> HeaderValueOk(traceId.value)) && auth.Some? ==>
              bad == ValidateAuth(auth.value)
  {
    bad := ValidateHeaderValue("path", path);
    if bad.Some? { return; }
    if traceId.Some? {
      bad := ValidateHeaderValue("trace_id", traceId.value);
      if bad.Some? { return; }
    }
    if auth.Some? {
      bad := ValidateAuth(auth.value);
    }
  }

  /** The request as written to the socket, or the validation error. */
  method BuildRequest(path: Bytes, traceId: Option<Bytes>, auth: Option<AuthHeaders>, nonce: Uuid)
    returns (r: Result<Bytes, SidecarError>)
    ensures r.Ok? <==> Accepted(path, traceId, auth)
    ensures r.Ok? ==> r.value == Terminated(RequestLines(path, traceId, auth, nonce)) + Crlf()
    ensures r.Err? ==> r.error.InvalidInput?
  {
    var bad := ValidateAll(path, traceId, auth);
    if bad.Some? {
      return Err(bad.value);
    }
    var request, lines := AddLine([], [], RequestLine(path));
    request, lines := AddLine(request, lines, Header("Host", Ascii("localhost")));
    request, lines := AddLine(request, lines, Header("Connection", Ascii("close")));
    assert lines == FixedLines(path);
    if traceId.Some? {
      request, lines := AddLine(request, lines, Header("x-trace-id", traceId.value));
    }
    if auth.Some? {
      request, lines := AddAuthLines(request, lines, auth.value, nonce);
    }
    assert lines == RequestLines(path, traceId, auth, nonce);
    return Ok(request + Crlf());
  }

  method AddAuthLines(request: Bytes, ghost lines: seq<Bytes>, a: AuthHeaders, nonce: Uuid)
    returns (r: Bytes, ghost more: seq<Bytes>)
    requires request == Terminated(lines)
    ensures more == lines + AuthLines(a, nonce) && r == Terminated(more)
  {
    r, more := AddIdentityLines(request, lines, a);
    r, more := AddSignatureLines(r, more, a, nonce);
  }

  method AddIdentityLines(request: Bytes, ghost lines: seq<Bytes>, a: AuthHeaders)
    returns (r: Bytes, ghost more: seq<Bytes>)
    requires request == Terminated(lines)
    ensures more == lines + IdentityLines(a) && r == Terminated(more)
  {
    r, more := AddLine(request, lines, Header("X-User-Id", a.userId));
    r, more := AddLine(r, more, Header("X-User-Email", a.email));
    r, more := AddLine(r, more, Header("X-User-Name", a.name));
  }

  method AddSignatureLines(request: Bytes, ghost lines: seq<Bytes>, a: AuthHeaders, nonce: Uuid)
    returns (r: Bytes, ghost more: seq<Bytes>)
    requires request == Terminated(lines)
    ensures more == lines + SignatureLines(a, nonce) && r == Terminated(more)
  {
    r, more := AddLine(request, lines, Header("X-Timestamp", Decimal(a.timestamp)));
    r, more := AddLine(r, more, Header("X-Nonce", UuidText(nonce)));
    r, more := AddLine(r, more, Header("X-Auth-Signature", a.signature));
  }

  method AddLine(request: Bytes, ghost lines: seq<Bytes>, line: Bytes) returns (r: Bytes, ghost more: seq<Bytes>)
    requires request == Terminated(lines)
    ensures more == lines + [line] && r == Terminated(more)
  {
    TerminatedConcat(lines, [line]);
    OneLine(line);
    r, more := request + line + Crlf(), lines + [line];
  }

  lemma OneLine(a: Bytes)
    ensures Terminated([a]) == a + Crlf()
  {
    assert [a][1..] == [];
  }

  // ---- splitting ------------------------------------------------------------------------------

  /** The pieces between CRLFs. */
  function SplitCrlf(t: Bytes): (pieces: seq<Bytes>)
    ensures pieces != []
  {
    if t == [] then [[]]
    else if 2 <= |t| && t[0] == CR && t[1] == LF then [[]] + SplitCrlf(t[2..])
    else
      var rest := SplitCrlf(t[1..]);
      [[t[0]] + rest[0]] + rest[1..]
  }

  lemma {:induction false} SplitLine(line: Bytes, rest: Bytes)
    requires LineSafe(line)
    ensures SplitCrlf(line + Crlf() + rest) == [line] + SplitCrlf(rest)
  {
    var t := line + Crlf() + rest;
    if line == [] {
      assert t[2..] == rest;
    } else {
      assert t[1..] == line[1..] + Crlf() + rest;
      SplitLine(line[1..], rest);
      assert line == [line[0]] + line[1..];
      assert ([line[1..]] + SplitCrlf(rest))[1..] == SplitCrlf(rest);
    }
  }

  predicate AllLineSafe(lines: seq<Bytes>) { forall i :: 0 <= i < |lines| ==> LineSafe(lines[i]) && lines[i] != [] }

  lemma {:induction false} SplitTerminated(lines: seq<Bytes>, rest: Bytes)
    requires AllLineSafe(lines)
    ensures SplitCrlf(Terminated(lines) + rest) == lines + SplitCrlf(rest)
  {
    if lines == [] {
      assert Terminated(lines) + rest == rest;
    } else {
      var more := Terminated(lines[1..]) + rest;
      assert Terminated(lines) + rest == lines[0] + Crlf() + more;
      SplitLine(lines[0], more);
      SplitTerminated(lines[1..], rest);
      assert lines == [lines[0]] + lines[1..];
    }
  }

  predicate SeparatorAt(t: Bytes, i: nat) {
    i + 4 <= |t| && t[i] == CR && t[i + 1] == LF && t[i + 2] == CR && t[i + 3] == LF
  }

  /** windows(4).position: the first CRLFCRLF. */
  function FirstSeparator(t: Bytes): (r: Option<nat>)
    ensures r.Some? ==> r.value + 4 <= |t| && SeparatorAt(t, r.value)
    ensures r.Some? ==> forall i: nat :: i < r.value ==> !SeparatorAt(t, i)
    ensures r.None? ==> forall i: nat :: !SeparatorAt(t, i)
  {
    if |t| < 4 then None
    else if SeparatorAt(t, 0) then Some(0)
    else
      var rest := FirstSeparator(t[1..]);
      assert forall i: nat :: 1 <= i ==> (SeparatorAt(t, i) <==> SeparatorAt(t[1..], i - 1));
      if rest.None? then None else Some(rest.value + 1)
  }

  /** The header block of non-empty lines ends at its own blank line, whatever bytes follow. */
  lemma {:induction false} SeparatorAfterLines(lines: seq<Bytes>, body: Bytes)
    requires lines != [] && AllLineSafe(lines)
    ensures FirstSeparator(Terminated(lines) + Crlf() + body) == Some(|Terminated(lines)| - 2)
  {
    var t := Terminated(lines) + Crlf() + body;
    var end := |Terminated(lines)| - 2;
    TerminatedEnds(lines);
    assert SeparatorAt(t, end);
    forall i: nat | i < end ensures !SeparatorAt(t, i) {
      NoSeparatorInside(lines, Crlf() + body, i);
      assert t == Terminated(lines) + (Crlf() + body);
    }
  }

  lemma {:induction false} TerminatedEnds(lines: seq<Bytes>)
    requires lines != []
    ensures var t := Terminated(lines); 2 <= |t| && t[|t| - 2] == CR && t[|t| - 1] == LF
  {
    if |lines| == 1 {
      OneLine(lines[0]);
    } else {
      TerminatedEnds(lines[1..]);
    }
  }

  lemma {:induction false} NoSeparatorInside(lines: seq<Bytes>, rest: Bytes, i: nat)
    requires lines != [] && AllLineSafe(lines) && i < |Terminated(lines)| - 2
    ensures !SeparatorAt(Terminated(lines) + rest, i)
  {
    var t := Terminated(lines) + rest;
    var n := |lines[0]|;
    assert t == lines[0] + Crlf() + (Terminated(lines[1..]) + rest);
    if |lines| == 1 {
      OneLine(lines[0]);
    }
    if i < n {
      assert t[i] == lines[0][i] && lines[0][i] in lines[0];
    } else if 1 < |lines| {
      if i < n + 2 {
        // the line after this one starts with a byte of its own
        assert t[n + 2] == lines[1][0] && lines[1][0] in lines[1];
        assert t[n + 1] == LF;
      } else {
        NoSeparatorInside(lines[1..], rest, i - n - 2);
        var u := Terminated(lines[1..]) + rest;
        assert t[n + 2..] == u;
        assert forall k: nat :: n + 2 <= k < |t| ==> t[k] == u[k - n - 2];
      }
    }
  }

  lemma HeaderSafe(name: string, value: Bytes)
    requires forall i :: 0 <= i < |name| ==> 14 <= name[i] as int < 128
    requires LineSafe(value)
    ensures LineSafe(Header(name, value)) && Header(name, value) != []
  {
    forall b | b in Header(name, value) ensures b != CR && b != LF {
      assert b in Ascii(name) || b in [58, SP] || b in value;
    }
  }

  lemma AuthLinesSafe(a: AuthHeaders, nonce: Uuid)
    requires LineSafe(a.userId) && LineSafe(a.email) && LineSafe(a.name) && LineSafe(a.signature)
    ensures AllLineSafe(AuthLines(a, nonce))
  {
    HeaderSafe("X-User-Id", a.userId);
    HeaderSafe("X-User-Email", a.email);
    HeaderSafe("X-User-Name", a.name);
    assert LineSafe(Decimal(a.timestamp)) by {
      assert forall b :: b in Decimal(a.timestamp) ==> Digit(b);
    }
    HeaderSafe("X-Timestamp", Decimal(a.timestamp));
    UuidTextSafe(nonce);
    HeaderSafe("X-Nonce", UuidText(nonce));
    HeaderSafe("X-Auth-Signature", a.signature);
  }

  lemma RequestLineSafe(path: Bytes)
    requires LineSafe(path)
    ensures LineSafe(RequestLine(path)) && RequestLine(path) != []
  {
    forall b | b in RequestLine(path) ensures b != CR && b != LF {
      assert b in Ascii("GET ") || b in path || b in Ascii(" HTTP/1.1");
    }
  }

  lemma RequestLinesSafe(path: Bytes, traceId: Option<Bytes>, auth: Option<AuthHeaders>, nonce: Uuid)
    requires Accepted(path, traceId, auth)
    ensures AllLineSafe(RequestLines(path, traceId, auth, nonce))
  {
    RequestLineSafe(path);
    HeaderSafe("Host", Ascii("localhost"));
    HeaderSafe("Connection", Ascii("close"));
    if traceId.Some? {
      HeaderSafe("x-trace-id", traceId.value);
    }
    if auth.Some? {
      AuthLinesSafe(auth.value, nonce);
    }
  }

  lemma UuidTextSafe(u: Uuid)
    ensures LineSafe(UuidText(u))
  {
  }

  /**
    For every accepted path, trace id and identity the bytes on the socket split at CRLF into
    exactly the intended lines and the closing blank line, and the first blank line is the last.
   */
  lemma RequestFraming(path: Bytes, traceId: Option<Bytes>, auth: Option<AuthHeaders>, nonce: Uuid)
    requires Accepted(path, traceId, auth)
    ensures var lines := RequestLines(path, traceId, auth, nonce);
            var request := Terminated(lines) + Crlf();
            && SplitCrlf(request) == lines + [[], []]
            && FirstSeparator(request) == Some(|request| - 4)
  {
    var lines := RequestLines(path, traceId, auth, nonce);
    RequestLinesSafe(path, traceId, auth, nonce);
    SplitTerminated(lines, Crlf());
    assert Crlf()[2..] == [];
    assert SplitCrlf(Crlf()) == [[], []];
    SeparatorAfterLines(lines, []);
    assert Terminated(lines) + Crlf() + [] == Terminated(lines) + Crlf();
  }

  // A header line as a server reads it: up to the first colon, and what follows the space behind it.
  datatype Field = Field(name: Bytes, value: Bytes)

  function FieldOf(line: Bytes): Option<Field> {
    var parts := SplitAtColon(line);
    if parts.None? || parts.value.1 == [] || parts.value.1[0] != SP then None
    else Some(Field(parts.value.0, parts.value.1[1..]))
  }

  function FieldsOf(lines: seq<Bytes>): seq<Option<Field>> {
    if lines == [] then [] else [FieldOf(lines[0])] + FieldsOf(lines[1..])
  }

  lemma {:induction false} FieldsConcat(a: seq<Bytes>, b: seq<Bytes>)
    ensures FieldsOf(a + b) == FieldsOf(a) + FieldsOf(b)
  {
    if a == [] {
      assert a + b == b;
    } else {
      assert (a + b)[1..] == a[1..] + b;
      FieldsConcat(a[1..], b);
    }
  }

  lemma OneField(name: string, value: Bytes)
    requires IsAscii(name) && ':' !in name
    ensures FieldsOf([Header(name, value)]) == [Some(Field(Ascii(name), value))]
  {
    var line := Header(name, value);
    assert line == Ascii(name) + [58] + ([SP] + value);
    assert 58 !in Ascii(name) by {
      forall b | b in Ascii(name) ensures b != 58 {
        var i :| 0 <= i < |name| && b == Ascii(name)[i];
        assert name[i] in name;
      }
    }
    SplitAfterColonFree(Ascii(name), [SP] + value);
    assert ([SP] + value)[1..] == value;
    assert FieldsOf([line][1..]) == [];
  }

  lemma IdentityFields(a: AuthHeaders)
    ensures FieldsOf(IdentityLines(a)) ==
              [Some(Field(Ascii("X-User-Id"), a.userId)), Some(Field(Ascii("X-User-Email"), a.email)),
               Some(Field(Ascii("X-User-Name"), a.name))]
  {
    OneField("X-User-Id", a.userId);
    OneField("X-User-Email", a.email);
    OneField("X-User-Name", a.name);
    var l := IdentityLines(a);
    FieldsConcat([l[0]], [l[1]]);
    FieldsConcat([l[0]] + [l[1]], [l[2]]);
    assert l == [l[0]] + [l[1]] + [l[2]];
  }

  lemma SignatureFields(a: AuthHeaders, nonce: Uuid)
    ensures FieldsOf(SignatureLines(a, nonce)) ==
              [Some(Field(Ascii("X-Timestamp"), Decimal(a.timestamp))), Some(Field(Ascii("X-Nonce"), UuidText(nonce))),
               Some(Field(Ascii("X-Auth-Signature"), a.signature))]
  {
    OneField("X-Timestamp", Decimal(a.timestamp));
    OneField("X-Nonce", UuidText(nonce));
    OneField("X-Auth-Signature", a.signature);
    var l := SignatureLines(a, nonce);
    FieldsConcat([l[0]], [l[1]]);
    FieldsConcat([l[0]] + [l[1]], [l[2]]);
    assert l == [l[0]] + [l[1]] + [l[2]];
  }

  function HostFieldList(): seq<Option<Field>> {
    [Some(Field(Ascii("Host"), Ascii("localhost"))), Some(Field(Ascii("Connection"), Ascii("close")))]
  }

  lemma FixedFields()
    ensures FieldsOf(HostLines()) == HostFieldList()
  {
    OneField("Host", Ascii("localhost"));
    OneField("Connection", Ascii("close"));
    var host, connection := Header("Host", Ascii("localhost")), Header("Connection", Ascii("close"));
    FieldsConcat([host], [connection]);
    assert [host] + [connection] == [host, connection];
  }

  function TraceFields(traceId: Option<Bytes>): seq<Option<Field>> {
    if traceId.Some? then [Some(Field(Ascii("x-trace-id"), traceId.value))] else []
  }

  function IdentityFieldList(auth: Option<AuthHeaders>): seq<Option<Field>> {
    if auth.None? then []
    else [Some(Field(Ascii("X-User-Id"), auth.value.userId)), Some(Field(Ascii("X-User-Email"), auth.value.email)),
          Some(Field(Ascii("X-User-Name"), auth.value.name))]
  }

  function SignatureFieldList(auth: Option<AuthHeaders>, nonce: Uuid): seq<Option<Field>> {
    if auth.None? then []
    else [Some(Field(Ascii("X-Timestamp"), Decimal(auth.value.timestamp))),
          Some(Field(Ascii("X-Nonce"), UuidText(nonce))),
          Some(Field(Ascii("X-Auth-Signature"), auth.value.signature))]
  }

  lemma AuthFields(auth: AuthHeaders, nonce: Uuid)
    ensures FieldsOf(AuthLines(auth, nonce)) == IdentityFieldList(Some(auth)) + SignatureFieldList(Some(auth), nonce)
  {
    IdentityFields(auth);
    SignatureFields(auth, nonce);
    FieldsConcat(IdentityLines(auth), SignatureLines(auth, nonce));
  }

  lemma LinesBehindFirst(path: Bytes, traceId: Option<Bytes>, auth: Option<AuthHeaders>, nonce: Uuid)
    ensures RequestLines(path, traceId, auth, nonce)[1..] ==
              HostLines()
              + TraceLines(traceId) + OptionalAuthLines(auth, nonce)
  {
  }

  lemma TraceFieldsOf(traceId: Option<Bytes>)
    ensures FieldsOf(TraceLines(traceId)) == TraceFields(traceId)
  {
    if traceId.Some? { OneField("x-trace-id", traceId.value); }
  }

  lemma AuthFieldsOf(auth: Option<AuthHeaders>, nonce: Uuid)
    ensures FieldsOf(OptionalAuthLines(auth, nonce)) == IdentityFieldList(auth) + SignatureFieldList(auth, nonce)
  {
    if auth.Some? { AuthFields(auth.value, nonce); }
  }

  lemma ThreeParts(lines: seq<Bytes>, a: seq<Bytes>, b: seq<Bytes>, c: seq<Bytes>)
    requires lines == a + b + c
    ensures FieldsOf(lines) == FieldsOf(a) + FieldsOf(b) + FieldsOf(c)
  {
    FieldsConcat(a, b);
    FieldsConcat(a + b, c);
  }

  lemma HeaderFields(path: Bytes, traceId: Option<Bytes>, auth: Option<AuthHeaders>, nonce: Uuid)
    ensures FieldsOf(RequestLines(path, traceId, auth, nonce)[1..]) ==
              HostFieldList()
              + TraceFields(traceId) + (IdentityFieldList(auth) + SignatureFieldList(auth, nonce))
  {
    LinesBehindFirst(path, traceId, auth, nonce);
    FixedFields();
    TraceFieldsOf(traceId);
    AuthFieldsOf(auth, nonce);
    ThreeParts(RequestLines(path, traceId, auth, nonce)[1..],
               HostLines(),
               TraceLines(traceId), OptionalAuthLines(auth, nonce));
  }

  /**
    A server that splits the accepted request at CRLF and each line at its first colon finds the
    request line and, under each name, the value meant for it, once, and no other field.
   */
  lemma RequestReadsBack(path: Bytes, traceId: Option<Bytes>, auth: Option<AuthHeaders>, nonce: Uuid)
    requires Accepted(path, traceId, auth)
    ensures var pieces := SplitCrlf(Terminated(RequestLines(path, traceId, auth, nonce)) + Crlf());
            && 3 <= |pieces| && pieces[|pieces| - 2] == pieces[|pieces| - 1] == []
            && pieces[0] == Ascii("GET ") + path + Ascii(" HTTP/1.1")
            && FieldsOf(pieces[1..|pieces| - 2]) ==
                 HostFieldList() + TraceFields(traceId) + (IdentityFieldList(auth) + SignatureFieldList(auth, nonce))
  {
    var lines := RequestLines(path, traceId, auth, nonce);
    RequestFraming(path, traceId, auth, nonce);
    HeaderFields(path, traceId, auth, nonce);
    assert (lines + [[], []])[1..|lines|] == lines[1..];
  }

  // ---- the response ---------------------------------------------------------------------------

  predicate Space(b: Byte) { 9 <= b <= 13 || b == 32 }

  /** Up to the first LF, without a CR in front of it. */
  function FirstLine(t: Bytes): Bytes {
    if t == [] || t[0] == LF then []
    else if t[0] == CR && 2 <= |t| && t[1] == LF then []
    else [t[0]] + FirstLine(t[1..])
  }

  function SkipSpace(t: Bytes): (r: Bytes)
    ensures |r| <= |t|
  {
    if t != [] && Space(t[0]) then SkipSpace(t[1..]) else t
  }

  function Word(t: Bytes): (w: Bytes)
    ensures w <= t
  {
    if t == [] || Space(t[0]) then [] else [t[0]] + Word(t[1..])
  }

  /** split_whitespace().nth(1) */
  function SecondWord(line: Bytes): Option<Bytes> {
    var t := SkipSpace(line);
    var rest := SkipSpace(t[|Word(t)|..]);
    if t == [] || rest == [] then None else Some(Word(rest))
  }

  /** Unsigned 16-bit parse: optional plus sign, digits only, in range. */
  function ParseU16(w: Bytes): Option<nat> {
    var digits := if w != [] && w[0] == 43 then w[1..] else w;
    if digits == [] || exists d :: d in digits && !Digit(d) then None
    else if Value(digits) <= 65535 then Some(Value(digits)) else None
  }

  function StatusOf(headers: Bytes): nat {
    var word := SecondWord(FirstLine(headers));
    if word.None? then 502
    else
      var code := ParseU16(word.value);
      if code.None? then 502 else code.value
  }

  /** Status and body of what was read; a head that is no UTF-8 is an error. */
  function ParseRead(response: Bytes): Result<(nat, Bytes), SidecarError> {
    var sep := FirstSeparator(response);
    if sep.None? then Err(InvalidResponse(Ascii("missing HTTP header separator")))
    else if !Utf8(response[..sep.value + 4]) then Err(InvalidResponse(Ascii("invalid utf-8")))
    else Ok((StatusOf(response[..sep.value + 4]), response[sep.value + 4..]))
  }

  /** At most one byte beyond the size limit is read of what the sidecar sent. */
  function ParseResponse(sent: Bytes): Result<(nat, Bytes), SidecarError> {
    var response := if MAX_RESPONSE_SIZE + 1 < |sent| then sent[..MAX_RESPONSE_SIZE + 1] else sent;
    if MAX_RESPONSE_SIZE < |response| then Err(InvalidResponse(Ascii("response exceeded maximum allowed size")))
    else ParseRead(response)
  }

  lemma {:induction false} FirstLineOf(line: Bytes, rest: Bytes)
    requires LineSafe(line)
    ensures FirstLine(line + Crlf() + rest) == line
  {
    var t := line + Crlf() + rest;
    if line == [] {
    } else {
      assert t[0] in line && t[1..] == line[1..] + Crlf() + rest;
      FirstLineOf(line[1..], rest);
    }
  }

  lemma {:induction false} WordOf(w: Bytes, rest: Bytes)
    requires forall b :: b in w ==> !Space(b)
    requires rest == [] || Space(rest[0])
    ensures Word(w + rest) == w
  {
    if w == [] {
      assert w + rest == rest;
    } else {
      assert w[0] in w && (w + rest)[1..] == w[1..] + rest;
      WordOf(w[1..], rest);
    }
  }

  lemma StatusLine(version: Bytes, code: nat, reason: Bytes)
    requires version != [] && forall b :: b in version ==> !Space(b)
    ensures SecondWord(version + [SP] + Decimal(code) + [SP] + reason) == Some(Decimal(code))
  {
    var d := Decimal(code);
    var tail := d + ([SP] + reason);
    var line := version + [SP] + d + [SP] + reason;
    assert line == version + ([SP] + tail) && version[0] in version;
    WordOf(version, [SP] + tail);
    assert line[|version|..] == [SP] + tail && ([SP] + tail)[1..] == tail;
    assert d[0] in d && Digit(d[0]);
    assert forall b :: b in d ==> Digit(b) && !Space(b);
    WordOf(d, [SP] + reason);
    assert tail[0] == d[0] && SkipSpace(tail) == tail;
    assert SkipSpace(line) == line && SkipSpace([SP] + tail) == tail;
  }

  lemma ParseOfDecimal16(code: nat)
    requires code <= 65535
    ensures ParseU16(Decimal(code)) == Some(code)
  {
    var d := Decimal(code);
    ValueOfDecimal(code);
    assert d[0] in d && Digit(d[0]);
  }

  /**
    Every well-formed response within the size limit comes back with its status and its exact
    body, however many blank lines the body contains.
   */
  lemma ResponseRoundTrip(version: Bytes, code: nat, reason: Bytes, headers: seq<Bytes>, body: Bytes)
    requires version != [] && LineSafe(version) && (forall b :: b in version ==> !Space(b))
    requires code <= 65535 && LineSafe(reason) && AllLineSafe(headers)
    requires var head := Terminated([version + [SP] + Decimal(code) + [SP] + reason] + headers) + Crlf();
             Utf8(head) && |head| + |body| <= MAX_RESPONSE_SIZE
    ensures var head := Terminated([version + [SP] + Decimal(code) + [SP] + reason] + headers) + Crlf();
            ParseResponse(head + body) == Ok((code, body))
  {
    var status := version + [SP] + Decimal(code) + [SP] + reason;
    var lines := [status] + headers;
    var head := Terminated(lines) + Crlf();
    assert LineSafe(status) by {
      assert forall b :: b in Decimal(code) ==> Digit(b);
    }
    assert FirstSeparator(head + body) == Some(|head| - 4) by { SeparatorAfterLines(lines, body); }
    assert (head + body)[..|head|] == head && (head + body)[|head|..] == body;
    assert StatusOf(head) == code by { StatusOfHead(version, code, reason, headers); }
    assert ParseRead(head + body) == Ok((code, body));
  }

  lemma StatusOfHead(version: Bytes, code: nat, reason: Bytes, headers: seq<Bytes>)
    requires version != [] && LineSafe(version) && (forall b :: b in version ==> !Space(b))
    requires code <= 65535 && LineSafe(reason)
    ensures StatusOf(Terminated([version + [SP] + Decimal(code) + [SP] + reason] + headers) + Crlf()) == code
  {
    var status := version + [SP] + Decimal(code) + [SP] + reason;
    var lines := [status] + headers;
    assert lines[1..] == headers;
    assert Terminated(lines) + Crlf() == status + Crlf() + (Terminated(headers) + Crlf());
    assert LineSafe(status) by {
      assert forall b :: b in Decimal(code) ==> Digit(b);
    }
    FirstLineOf(status, Terminated(headers) + Crlf());
    StatusLine(version, code, reason);
    ParseOfDecimal16(code);
  }

  /** The head ends at `end`: the first CRLFCRLF is there. */
  ghost predicate HeadEnds(t: Bytes, end: nat) {
    4 <= end <= |t| && SeparatorAt(t, end - 4) && forall i: nat :: i + 4 < end ==> !SeparatorAt(t, i)
  }

  lemma SeparatorIsHeadEnd(t: Bytes, end: nat)
    ensures HeadEnds(t, end) <==> FirstSeparator(t).Some? && end == FirstSeparator(t).value + 4
  {
    var sep := FirstSeparator(t);
    if HeadEnds(t, end) {
      assert SeparatorAt(t, end - 4);
      assert sep.Some? && !(sep.value + 4 < end);
    }
  }

  /**
    Parsing succeeds exactly on a response within the limit whose head ends somewhere and is UTF-8,
    and gives back everything behind the head as the body. Any failure is InvalidResponse.
   */
  lemma ParseSucceedsIff(sent: Bytes)
    ensures ParseResponse(sent).Ok? <==>
              |sent| <= 1_048_576 && exists end: nat :: HeadEnds(sent, end) && Utf8(sent[..end])
    ensures forall end: nat :: ParseResponse(sent).Ok? && HeadEnds(sent, end) ==>
              ParseResponse(sent).value == (StatusOf(sent[..end]), sent[end..])
    ensures ParseResponse(sent).Err? ==> ParseResponse(sent).error.InvalidResponse?
    ensures 1_048_576 < |sent| ==>
              ParseResponse(sent) == Err(InvalidResponse(Ascii("response exceeded maximum allowed size")))
    ensures |sent| <= 1_048_576 && (forall end: nat :: !HeadEnds(sent, end)) ==>
              ParseResponse(sent) == Err(InvalidResponse(Ascii("missing HTTP header separator")))
  {
    if |sent| <= MAX_RESPONSE_SIZE {
      ReadSucceedsIff(sent);
    }
  }

  lemma ReadSucceedsIff(response: Bytes)
    ensures ParseRead(response).Ok? <==> exists end: nat :: HeadEnds(response, end) && Utf8(response[..end])
    ensures forall end: nat :: ParseRead(response).Ok? && HeadEnds(response, end) ==>
              ParseRead(response).value == (StatusOf(response[..end]), response[end..])
    ensures ParseRead(response).Err? ==> ParseRead(response).error.InvalidResponse?
    ensures (forall end: nat :: !HeadEnds(response, end)) ==>
              ParseRead(response) == Err(InvalidResponse(Ascii("missing HTTP header separator")))
  {
    forall end: nat
      ensures HeadEnds(response, end) <==>
                FirstSeparator(response).Some? && end == FirstSeparator(response).value + 4
    {
      SeparatorIsHeadEnd(response, end);
    }
    if FirstSeparator(response).Some? {
      assert HeadEnds(response, FirstSeparator(response).value + 4);
    }
  }

  // ---- what the status is ---------------------------------------------------------------------

  predicate NoSpace(t: Bytes) { forall b :: b in t ==> !Space(b) }

  predicate AllSpace(t: Bytes) { forall b :: b in t ==> Space(b) }

  ghost predicate WordsAre(line: Bytes, pre: Bytes, first: Bytes, gap: Bytes, second: Bytes, rest: Bytes) {
    && line == pre + first + gap + second + rest
    && AllSpace(pre) && AllSpace(gap) && NoSpace(first) && NoSpace(second)
    && first != [] && gap != [] && second != [] && (rest == [] || Space(rest[0]))
  }

  ghost predicate IsSecondWord(line: Bytes, w: Bytes) {
    exists pre, first, gap, rest :: WordsAre(line, pre, first, gap, w, rest)
  }

  lemma {:induction false} SkipSpaceSplits(t: Bytes) returns (spaces: Bytes)
    ensures t == spaces + SkipSpace(t) && AllSpace(spaces)
    ensures SkipSpace(t) == [] || !Space(SkipSpace(t)[0])
  {
    if t != [] && Space(t[0]) {
      spaces := SkipSpaceSplits(t[1..]);
      spaces := [t[0]] + spaces;
    } else {
      spaces := [];
    }
  }

  lemma {:induction false} SkipSpaceOf(spaces: Bytes, t: Bytes)
    requires AllSpace(spaces) && (t == [] || !Space(t[0]))
    ensures SkipSpace(spaces + t) == t
  {
    if spaces == [] {
      assert spaces + t == t;
    } else {
      assert spaces[0] in spaces && (spaces + t)[1..] == spaces[1..] + t;
      SkipSpaceOf(spaces[1..], t);
    }
  }

  lemma {:induction false} WordSplits(t: Bytes)
    ensures NoSpace(Word(t))
    ensures var rest := t[|Word(t)|..]; rest == [] || Space(rest[0])
    ensures t != [] && !Space(t[0]) ==> Word(t) != []
  {
    if t == [] || Space(t[0]) {
    } else {
      WordSplits(t[1..]);
      assert t[|Word(t)|..] == t[1..][|Word(t[1..])|..];
    }
  }

  lemma SecondWordIsOne(line: Bytes)
    requires SecondWord(line).Some?
    ensures IsSecondWord(line, SecondWord(line).value)
  {
    var pre := SkipSpaceSplits(line);
    var t := SkipSpace(line);
    WordSplits(t);
    var first, behind := Word(t), t[|Word(t)|..];
    var gap := SkipSpaceSplits(behind);
    var u := SkipSpace(behind);
    WordSplits(u);
    var rest := u[|Word(u)|..];
    assert t == first + behind && u == Word(u) + rest;
    ConcatAssociates(pre, first, behind);
    ConcatAssociates(pre + first, gap, u);
    ConcatAssociates(pre + first + gap, Word(u), rest);
    assert WordsAre(line, pre, first, gap, Word(u), rest);
  }

  lemma IsSecondWordFound(line: Bytes, pre: Bytes, first: Bytes, gap: Bytes, w: Bytes, rest: Bytes)
    requires WordsAre(line, pre, first, gap, w, rest)
    ensures SecondWord(line) == Some(w)
  {
    var u := w + rest;
    var behind := gap + u;
    var t := first + behind;
    ConcatAssociates(pre + first + gap, w, rest);
    ConcatAssociates(pre + first, gap, u);
    ConcatAssociates(pre, first, behind);
    assert first[0] in first && w[0] in w && gap[0] in gap;
    SkipSpaceOf(pre, t);
    WordOf(first, behind);
    assert t[|first|..] == behind;
    SkipSpaceOf(gap, u);
    WordOf(w, rest);
  }

  /** Where white space stands is exactly where the second word is found. */
  lemma SecondWordMeans(line: Bytes, w: Bytes)
    ensures SecondWord(line) == Some(w) <==> IsSecondWord(line, w)
  {
    if SecondWord(line) == Some(w) {
      SecondWordIsOne(line);
    }
    if IsSecondWord(line, w) {
      var pre, first, gap, rest :| WordsAre(line, pre, first, gap, w, rest);
      IsSecondWordFound(line, pre, first, gap, w, rest);
    }
  }

  // The line ends at the first LF, which takes one CR in front of it along, or with the text.
  ghost predicate IsFirstLine(t: Bytes, line: Bytes) {
    && LF !in line
    && (t == line
        || line + [CR, LF] <= t
        || (line + [LF] <= t && (line == [] || line[|line| - 1] != CR)))
  }

  lemma {:induction false} FirstLineIsOne(t: Bytes)
    ensures IsFirstLine(t, FirstLine(t))
  {
    if t == [] || t[0] == LF {
    } else if t[0] == CR && 2 <= |t| && t[1] == LF {
    } else {
      FirstLineIsOne(t[1..]);
      var line := FirstLine(t[1..]);
      assert t == [t[0]] + t[1..];
      if line + [CR, LF] <= t[1..] {
        assert [t[0]] + line + [CR, LF] == [t[0]] + (line + [CR, LF]);
      } else if line + [LF] <= t[1..] {
        assert [t[0]] + line + [LF] == [t[0]] + (line + [LF]);
      }
    }
  }

  lemma {:induction false} FirstLineIsUnique(t: Bytes, line: Bytes)
    requires IsFirstLine(t, line)
    ensures FirstLine(t) == line
  {
    if line == [] {
    } else {
      assert t[0] == line[0] && line[0] in line;
      assert line == [line[0]] + line[1..];
      if line + [CR, LF] <= t {
        assert (line + [CR, LF])[1..] == line[1..] + [CR, LF];
        assert t[1] == (line + [CR, LF])[1];
      } else if t != line {
        assert (line + [LF])[1..] == line[1..] + [LF];
        assert t[1] == (line + [LF])[1];
      }
      FirstLineIsUnique(t[1..], line[1..]);
    }
  }

  // An optional plus sign and digits, in 16 bits.
  ghost predicate Reads16(w: Bytes, code: nat) {
    exists digits: Bytes :: PlainDigits(digits) && (w == digits || w == [43] + digits) && code == Value(digits) <= 65535
  }

  predicate PlainDigits(digits: Bytes) { digits != [] && forall d :: d in digits ==> Digit(d) }

  lemma ParseU16Means(w: Bytes, code: nat)
    ensures ParseU16(w) == Some(code) <==> Reads16(w, code)
  {
    var digits := if w != [] && w[0] == 43 then w[1..] else w;
    if ParseU16(w) == Some(code) {
      assert PlainDigits(digits) && (w == digits || w == [43] + digits);
    }
    if Reads16(w, code) {
      var plain: Bytes :|
        PlainDigits(plain) && (w == plain || w == [43] + plain) && code == Value(plain) <= 65535;
      assert plain[0] in plain && Digit(plain[0]);
      assert plain == digits;
    }
  }

  ghost predicate StatusReads(head: Bytes, code: nat) {
    exists line, w :: IsFirstLine(head, line) && IsSecondWord(line, w) && Reads16(w, code)
  }

  /** The status is the 16-bit number that is the first line's second word, and 502 if there is none. */
  lemma StatusExactly(head: Bytes, code: nat)
    ensures StatusOf(head) == code <==>
              StatusReads(head, code) || (code == 502 && forall n: nat :: !StatusReads(head, n))
  {
    var line := FirstLine(head);
    FirstLineIsOne(head);
    forall n: nat
      ensures StatusReads(head, n) <==> SecondWord(line).Some? && ParseU16(SecondWord(line).value) == Some(n)
    {
      if SecondWord(line).Some? && ParseU16(SecondWord(line).value) == Some(n) {
        SecondWordMeans(line, SecondWord(line).value);
        ParseU16Means(SecondWord(line).value, n);
      }
      if StatusReads(head, n) {
        var l, w :| IsFirstLine(head, l) && IsSecondWord(l, w) && Reads16(w, n);
        FirstLineIsUnique(head, l);
        SecondWordMeans(line, w);
        ParseU16Means(w, n);
      }
    }
  }
}
