/** response.ts: the mutable response record, its status validation and its wire format
    `<STATUS><SPACE><META><CR><LF>` followed by the body for success (2x) statuses only. */
module Response {
  import opened Basics
  import opened Text
  import opened Encoding
  import opened Errors

  /** The body field: `null`, a string (sent UTF-8 encoded) or a `Uint8Array` (sent as is). */
  datatype Body = Null | Str(text: string) | Bytes(bytes: seq<byte>)

  /** The three fields of a response at one moment. */
  datatype Fields = Fields(status: int, meta: string, body: Body)

  const DefaultMeta: string := "text/plain"

  /** What `new GemResponse()` holds. */
  const DefaultFields: Fields := Fields(20, DefaultMeta, Null)

  /** The status range `validate` accepts. */
  predicate ValidStatus(status: int) {
    10 <= status <= 69
  }

  /** The error `validate` throws (the misspelling is the source's own). */
  function InvalidStatus(status: int): Thrown {
    JsError("Error", "Invaild response status: " + IntToString(status))
  }

  /** The fields of `GemResponse.fromError(err)`: the error's status, no body, and the message as meta
      only when the error is exposed; otherwise `undefined` is passed and the parameter default
      'text/plain' applies. */
  function ErrorFields(err: GemError): Fields {
    Fields(err.status, if err.expose then err.message else DefaultMeta, Null)
  }

  /** The header line `${status} ${meta}\r\n` as bytes. */
  function Header(status: int, meta: string): seq<byte> {
    Encode(IntToString(status) + " " + meta + "\r\n")
  }

  function BodyBytes(b: Body): seq<byte> {
    match b
    case Null => []
    case Str(t) => Encode(t)
    case Bytes(x) => x
  }

  /** The body is written only when there is one and the status class `Math.floor(status / 10)` is 2. */
  predicate SendsBody(f: Fields) {
    f.body != Null && f.status / 10 == 2
  }

  /** The bytes `sendTo` writes: `validate()` first, so an out-of-range status yields no bytes at all;
      otherwise the header, followed by the body bytes exactly when `SendsBody`. */
  function Serialize(f: Fields): (r: Result<seq<byte>, Thrown>)
    ensures r.Ok? <==> ValidStatus(f.status)
    ensures r.Err? ==> r.error == InvalidStatus(f.status)
    ensures r.Ok? ==> |r.value| == |Header(f.status, f.meta)| + (if SendsBody(f) then |BodyBytes(f.body)| else 0)
  {
    if !ValidStatus(f.status) then Err(InvalidStatus(f.status))
    else if SendsBody(f) then Ok(Header(f.status, f.meta) + BodyBytes(f.body))
    else Ok(Header(f.status, f.meta))
  }

  class GemResponse {
    var status: int
    var meta: string
    var body: Body

    /** `new GemResponse(status = 20, meta = 'text/plain', body = null)` */
    constructor (status: int := 20, meta: string := DefaultMeta, body: Body := Null)
      ensures Snapshot() == Fields(status, meta, body)
    {
      this.status := status;
      this.meta := meta;
      this.body := body;
    }

    function Snapshot(): Fields
      reads this
    {
      Fields(status, meta, body)
    }

    /** `GemResponse.fromError(err)` */
    static method FromError(err: GemError) returns (r: GemResponse)
      ensures fresh(r) && r.Snapshot() == ErrorFields(err)
    {
      r := new GemResponse(err.status, if err.expose then err.message else DefaultMeta);
    }

    /** `validate()`: fails exactly when the status is outside 10..69; changes nothing. */
    method Validate() returns (r: Result<(), Thrown>)
      ensures r.Ok? <==> ValidStatus(status)
      ensures r.Err? ==> r.error == InvalidStatus(status)
    {
      if status < 10 || status > 69 {
        return Err(InvalidStatus(status));
      }
      return Ok(());
    }

    /** The byte construction of `sendTo` (the `toUint8Array` of application.ts), without the write
        and close. Having no `modifies` clause, it leaves status, meta and body as they were. */
    method ToBytes() returns (r: Result<seq<byte>, Thrown>)
      ensures r == Serialize(Snapshot())
    {
      var v := Validate();
      if v.Err? {
        return Err(v.error);
      }
      var response := Header(status, meta);
      if body != Null && status / 10 == 2 {
        response := response + BodyBytes(body);
      }
      return Ok(response);
    }
  }

  // ---------------------------------------------------------------- reading the wire format back

  /** The position of the first CR LF pair in `b`. */
  function FirstCrlf(b: seq<byte>): (k: Option<nat>)
    ensures k.Some? ==> k.value + 1 < |b| && b[k.value] == CR && b[k.value + 1] == LF
  {
    if |b| < 2 then None
    else if b[0] == CR && b[1] == LF then Some(0)
    else match FirstCrlf(b[1..])
      case None => None
      case Some(j) => Some(j + 1)
  }

  lemma {:induction false} FirstCrlfAt(p: seq<byte>, q: seq<byte>)
    requires CR !in p
    ensures FirstCrlf(p + [CR, LF] + q) == Some(|p|)
  {
    if p != [] {
      assert (p + [CR, LF] + q)[1..] == p[1..] + [CR, LF] + q;
      FirstCrlfAt(p[1..], q);
    }
  }

  /** A response as a client reads it: two status digits, a space, the meta bytes up to the first
      CR LF, and everything after that as the body. */
  datatype Received = Received(status: int, meta: seq<byte>, body: seq<byte>)

  predicate IsDigitByte(b: byte) {
    0x30 <= b <= 0x39
  }

  function ParseResponse(b: seq<byte>): Option<Received> {
    match FirstCrlf(b)
    case None => None
    case Some(k) =>
      if k >= 3 && IsDigitByte(b[0]) && IsDigitByte(b[1]) && b[2] == 0x20
      then Some(Received((b[0] as int - 0x30) * 10 + (b[1] as int - 0x30), b[3..k], b[k + 2..]))
      else None
  }

  /** The bytes of the status digits: two ASCII digits for a status in range. */
  lemma StatusDigitBytes(status: int)
    requires ValidStatus(status)
    ensures Encode(IntToString(status)) == [(0x30 + status / 10) as byte, (0x30 + status % 10) as byte]
  {
    TwoDigits(status);
    var d := IntToString(status);
    assert d == [DigitChar(status / 10), DigitChar(status % 10)];
    assert d[1..][1..] == [];
    assert Encode(d) == EncodeChar(d[0]) + (EncodeChar(d[1]) + Encode([]));
  }

  lemma EncodeSeparators()
    ensures Encode(" ") == [0x20]
    ensures Encode("\r\n") == [CR, LF]
  {
    assert Encode("\r\n") == EncodeChar('\r') + Encode("\n");
  }

  /** The header of a valid status is its two ASCII digits and a space, then the meta, then CR LF. */
  lemma HeaderBytes(status: int, meta: string)
    requires ValidStatus(status)
    ensures Header(status, meta) == [(0x30 + status / 10) as byte, (0x30 + status % 10) as byte, 0x20] + Encode(meta) + [CR, LF]
  {
    var digits := IntToString(status);
    var a, m := Encode(digits), Encode(meta);
    assert a == [(0x30 + status / 10) as byte, (0x30 + status % 10) as byte] by {
      StatusDigitBytes(status);
    }
    assert Header(status, meta) == Encode(digits + " " + meta) + [CR, LF] by {
      EncodeSeparators();
      EncodeAppend(digits + " " + meta, "\r\n");
    }
    assert Encode(digits + " " + meta) == a + [0x20] + m by {
      EncodeSeparators();
      EncodeAppend(digits + " ", meta);
      EncodeAppend(digits, " ");
    }
  }

  /** The bytes of a valid response: two status digits, a space, the meta, CR LF, then the body
      bytes exactly when `SendsBody`. */
  lemma SerializedLayout(f: Fields)
    requires ValidStatus(f.status)
    ensures Serialize(f) == Ok([(0x30 + f.status / 10) as byte, (0x30 + f.status % 10) as byte, 0x20]
                               + Encode(f.meta) + [CR, LF] + (if SendsBody(f) then BodyBytes(f.body) else []))
  {
    HeaderBytes(f.status, f.meta);
    if !SendsBody(f) {
      assert Header(f.status, f.meta) + [] == Header(f.status, f.meta);
    }
  }

  /** Reading back bytes laid out as status digits, space, meta without CR, CR LF and a rest. */
  lemma {:induction false} ParseLayout(status: int, meta: seq<byte>, rest: seq<byte>)
    requires ValidStatus(status) && CR !in meta
    ensures ParseResponse([(0x30 + status / 10) as byte, (0x30 + status % 10) as byte, 0x20] + meta + [CR, LF] + rest)
         == Some(Received(status, meta, rest))
  {
    var p := [(0x30 + status / 10) as byte, (0x30 + status % 10) as byte, 0x20] + meta;
    assert CR !in p;
    var b := p + [CR, LF] + rest;
    FirstCrlfAt(p, rest);
    assert b[3..|p|] == meta;
    assert b[|p| + 2..] == rest;
  }

  /** Round trip: a client reading serialised bytes gets back the status, the meta (encoded), and
      the body exactly when the status is 2x and a body is set; otherwise no body bytes at all.
      The meta must not contain CR, or its own CR LF would end the header early. */
  lemma SerializeRoundTrip(f: Fields)
    requires ValidStatus(f.status) && '\r' !in f.meta
    ensures Serialize(f).Ok?
    ensures ParseResponse(Serialize(f).value)
         == Some(Received(f.status, Encode(f.meta), if SendsBody(f) then BodyBytes(f.body) else []))
  {
    SerializedLayout(f);
    EncodeKeepsAsciiOut(f.meta, '\r');
    ParseLayout(f.status, Encode(f.meta), if SendsBody(f) then BodyBytes(f.body) else []);
  }
}
