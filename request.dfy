/** request.ts: a request is the raw request line plus the URL parsed from it; `fromConnection`
    frames one request line from the bytes a connection delivers, in a fixed 1026-byte buffer. */
module Request {
  import opened Basics
  import opened Encoding
  import opened Errors

  /** The parts of a parsed (WHATWG) URL the rest of the model reads. */
  datatype Url = Url(protocol: string, hostname: string, port: string, pathname: string, search: string)

  datatype GemRequest = GemRequest(raw: string, url: Url)

  /** `new URL(text)`, a collaborator: `None` when it throws. */
  type UrlParser = string -> Option<Url>

  /** `new TextDecoder().decode(bytes)`, a collaborator. */
  type Decoder = seq<byte> -> string

  /** The size of the request buffer: at most 1024 bytes of URL plus CR LF. */
  const MaxLength: nat := 1026

  const InvalidUrl: Thrown := GemErr(NewGemError(59, Some("Invalid URL")))
  const UrlTooLong: Thrown := GemErr(NewGemError(59, Some("URL Too Long")))
  const PrematureClose: Thrown := JsError("Error", "Client prematurely closed the connection")

  /** `new GemRequest(raw)`: `raw` is kept exactly as given; when the URL parser rejects it,
      construction fails with GemError(59, 'Invalid URL'). */
  function NewRequest(raw: string, parseUrl: UrlParser): (r: Result<GemRequest, Thrown>)
    ensures r.Ok? <==> parseUrl(raw).Some?
    ensures r.Ok? ==> r.value.raw == raw && Some(r.value.url) == parseUrl(raw)
    ensures r.Err? ==> r.error == InvalidUrl
  {
    match parseUrl(raw)
    case Some(url) => Ok(GemRequest(raw, url))
    case None => Err(InvalidUrl)
  }

  /** The accumulated bytes end with the terminator: `req[off - 1] === LF && req[off - 2] === CR`
      (with fewer than two bytes one of the indices is negative and reads `undefined`). */
  predicate EndsWithCrlf(b: seq<byte>) {
    |b| >= 2 && b[|b| - 1] == LF && b[|b| - 2] == CR
  }

  /** The chunks of a connection, one after the other. */
  function Concat(chunks: seq<seq<byte>>): seq<byte> {
    if chunks == [] then [] else chunks[0] + Concat(chunks[1..])
  }

  /** Framing ends once the accumulated bytes are too long or end with CR LF. */
  predicate Stops(acc: seq<byte>) {
    |acc| > MaxLength || EndsWithCrlf(acc)
  }

  /** How framing ends for the accumulated bytes it stopped at: too long wins over a terminator;
      otherwise all of the bytes, terminator included, are decoded into the request line. */
  function StopResult(acc: seq<byte>, decode: Decoder, parseUrl: UrlParser): Result<GemRequest, Thrown> {
    if |acc| > MaxLength then Err(UrlTooLong) else NewRequest(decode(acc), parseUrl)
  }

  /** Framing, read by read: `acc` holds the bytes accumulated so far and `chunks` what the
      connection still delivers before end-of-stream. */
  function Frame(acc: seq<byte>, chunks: seq<seq<byte>>, decode: Decoder, parseUrl: UrlParser): Result<GemRequest, Thrown>
    decreases |chunks|
  {
    if chunks == [] then Err(PrematureClose)
    else if |acc| + |chunks[0]| > MaxLength then Err(UrlTooLong)
    else if EndsWithCrlf(acc + chunks[0]) then NewRequest(decode(acc + chunks[0]), parseUrl)
    else Frame(acc + chunks[0], chunks[1..], decode, parseUrl)
  }

  lemma ConcatPrefix(chunks: seq<seq<byte>>, i: nat)
    requires 1 <= i <= |chunks|
    ensures Concat(chunks[..i]) == chunks[0] + Concat(chunks[1..][..i - 1])
  {
    assert chunks[..i][1..] == chunks[1..][..i - 1];
  }

  /** Framing ends at the first read after which the accumulated bytes are too long or end with
      CR LF, and with exactly the outcome `StopResult` gives for those bytes: the chunks before it are
      all consumed, none after it is. */
  lemma {:induction false} FrameStopsAt(acc: seq<byte>, chunks: seq<seq<byte>>, j: nat, decode: Decoder, parseUrl: UrlParser)
    requires 1 <= j <= |chunks|
    requires Stops(acc + Concat(chunks[..j]))
    requires forall i :: 1 <= i < j ==> !Stops(acc + Concat(chunks[..i]))
    ensures Frame(acc, chunks, decode, parseUrl) == StopResult(acc + Concat(chunks[..j]), decode, parseUrl)
    decreases |chunks|
  {
    ConcatPrefix(chunks, 1);
    assert Concat(chunks[..1]) == chunks[0];
    if j > 1 {
      assert !Stops(acc + Concat(chunks[..1]));
      forall i | 1 <= i < j - 1
        ensures !Stops(acc + chunks[0] + Concat(chunks[1..][..i]))
      {
        ConcatPrefix(chunks, i + 1);
        assert acc + chunks[0] + Concat(chunks[1..][..i]) == acc + Concat(chunks[..i + 1]);
      }
      ConcatPrefix(chunks, j);
      assert acc + chunks[0] + Concat(chunks[1..][..j - 1]) == acc + Concat(chunks[..j]);
      FrameStopsAt(acc + chunks[0], chunks[1..], j - 1, decode, parseUrl);
    }
  }

  /** When no read makes the accumulated bytes too long or CR LF-terminated, framing fails with
      "Client prematurely closed the connection" once the connection ends; a CR LF anywhere but at
      the tail does not end framing. */
  lemma {:induction false} FrameUntilEnd(acc: seq<byte>, chunks: seq<seq<byte>>, decode: Decoder, parseUrl: UrlParser)
    requires forall i :: 1 <= i <= |chunks| ==> !Stops(acc + Concat(chunks[..i]))
    ensures Frame(acc, chunks, decode, parseUrl) == Err(PrematureClose)
    decreases |chunks|
  {
    if chunks != [] {
      ConcatPrefix(chunks, 1);
      assert Concat(chunks[..1]) == chunks[0];
      assert !Stops(acc + chunks[0]);
      forall i | 1 <= i <= |chunks| - 1
        ensures !Stops(acc + chunks[0] + Concat(chunks[1..][..i]))
      {
        ConcatPrefix(chunks, i + 1);
        assert acc + chunks[0] + Concat(chunks[1..][..i]) == acc + Concat(chunks[..i + 1]);
      }
      FrameUntilEnd(acc + chunks[0], chunks[1..], decode, parseUrl);
    }
  }

  /** `req.set(chunk, off)` */
  method CopyInto(req: array<byte>, off: nat, chunk: seq<byte>)
    requires off + |chunk| <= req.Length
    modifies req
    ensures req[..off] == old(req[..off])
    ensures req[off..off + |chunk|] == chunk
    ensures req[off + |chunk|..] == old(req[off + |chunk|..])
  {
    for j := 0 to |chunk|
      invariant req[..off] == old(req[..off])
      invariant req[off + |chunk|..] == old(req[off + |chunk|..])
      invariant req[off..off + j] == chunk[..j]
    {
      req[off + j] := chunk[j];
      assert req[off..off + j + 1] == req[off..off + j] + [chunk[j]];
    }
  }

  /** `GemRequest.fromConnection(conn)`: `chunks` are what successive `conn.read` calls return,
      end-of-stream (`null`) coming after the last one. Chunks are copied into the buffer in arrival
      order at the running offset. */
  method FromConnection(chunks: seq<seq<byte>>, decode: Decoder, parseUrl: UrlParser) returns (r: Result<GemRequest, Thrown>)
    ensures r == Frame([], chunks, decode, parseUrl)
  {
    var req := new byte[MaxLength];
    var off := 0;
    var k := 0;
    while k < |chunks|
      invariant k <= |chunks|
      invariant off <= MaxLength
      invariant Frame([], chunks, decode, parseUrl) == Frame(req[..off], chunks[k..], decode, parseUrl)
    {
      var chunk := chunks[k];
      FrameStep(req[..off], chunks, k, decode, parseUrl);
      k := k + 1;
      if off + |chunk| > MaxLength {
        return Err(UrlTooLong);
      }
      ghost var before := req[..off];
      CopyInto(req, off, chunk);
      off := off + |chunk|;
      assert req[..off] == before + chunk;
      if off >= 2 && req[off - 1] == LF && req[off - 2] == CR {
        return NewRequest(decode(req[..off]), parseUrl);
      }
    }
    return Err(PrematureClose);
  }

  lemma FrameStep(acc: seq<byte>, chunks: seq<seq<byte>>, k: nat, decode: Decoder, parseUrl: UrlParser)
    requires k < |chunks|
    ensures Frame(acc, chunks[k..], decode, parseUrl)
         == if |acc| + |chunks[k]| > MaxLength then Err(UrlTooLong)
            else if EndsWithCrlf(acc + chunks[k]) then NewRequest(decode(acc + chunks[k]), parseUrl)
            else Frame(acc + chunks[k], chunks[k + 1..], decode, parseUrl)
  {
    assert chunks[k..][0] == chunks[k] && chunks[k..][1..] == chunks[k + 1..];
  }

  /** A request of exactly 1026 bytes, terminator included, is still accepted; one byte more is too long. */
  lemma MaxLengthBoundary(line: seq<byte>, decode: Decoder, parseUrl: UrlParser)
    requires EndsWithCrlf(line)
    ensures |line| == MaxLength ==> Frame([], [line], decode, parseUrl) == NewRequest(decode(line), parseUrl)
    ensures |line| == MaxLength + 1 ==> Frame([], [line], decode, parseUrl) == Err(UrlTooLong)
    ensures |line| == MaxLength + 1 ==> Frame([], [line[..MaxLength], line[MaxLength..]], decode, parseUrl) == Err(UrlTooLong)
  {
    assert [] + line == line;
    if |line| == MaxLength + 1 {
      var a, b := line[..MaxLength], line[MaxLength..];
      assert [] + a == a && a[|a| - 1] == line[MaxLength - 1] == CR;
      assert [a, b][1..] == [b];
    }
  }
}
