/** application.ts: the application object (its handler list and `closed` flag), the listen-address
    grammar, how a request is run through the handlers, and how a failed request is answered. */
module Application {
  import opened Basics
  import opened Text
  import opened Encoding
  import opened Errors
  import opened Response
  import opened Request
  import opened Context
  import opened Middleware

  // ---------------------------------------------------------------- listen options

  /** The listen options the model reads: host, port and the `secure` flag (`None` is `undefined`). */
  datatype ListenOptions = ListenOptions(hostname: Option<string>, port: int, secure: Option<bool>)

  /** What `listen` accepts: an address string or an options object. */
  datatype ListenArg = Address(addr: string) | Options(options: ListenOptions)

  datatype Transport = Tcp | Tls

  /** `defaultGetSocket`: plain TCP exactly when `secure === false`; TLS otherwise, when `secure` is
      undefined as well. */
  function TransportFor(o: ListenOptions): (t: Transport)
    ensures t == Tcp <==> o.secure == Some(false)
  {
    if o.secure == Some(false) then Tcp else Tls
  }

  // ---------------------------------------------------------------- the address grammar

  /** The position of the last `c` in `s`. */
  function LastIndex(s: string, c: char): (k: Option<nat>)
    ensures k.Some? ==> k.value < |s| && s[k.value] == c && c !in s[k.value + 1..]
    ensures k.None? ==> c !in s
  {
    if |s| == 0 then None
    else if s[|s| - 1] == c then Some(|s| - 1)
    else
      var k := LastIndex(s[..|s| - 1], c);
      assert k.Some? ==> s[k.value + 1..] == s[..|s| - 1][k.value + 1..] + [s[|s| - 1]];
      assert k.None? ==> s == s[..|s| - 1] + [s[|s| - 1]];
      k
  }

  lemma {:induction false} LastIndexAt(a: string, c: char, b: string)
    requires c !in b
    ensures LastIndex(a + [c] + b, c) == Some(|a|)
    decreases |b|
  {
    var s := a + [c] + b;
    if b != [] {
      assert s[..|s| - 1] == a + [c] + b[..|b| - 1];
      assert s[|s| - 1] == b[|b| - 1];
      LastIndexAt(a, c, b[..|b| - 1]);
    }
  }

  /** The two capture groups of `ADDR_REGEXP`: the host (brackets stripped) and the port digits. */
  datatype AddressMatch = AddressMatch(hostname: string, port: string)

  predicate OpensBracket(s: string) {
    |s| > 0 && s[0] == '['
  }

  predicate ClosesBracket(s: string) {
    |s| > 0 && s[|s| - 1] == ']'
  }

  /** `p` less its leading '[', if any. */
  function DropOpen(p: string): (q: string)
    ensures p == (if OpensBracket(p) then "[" else "") + q
  {
    if OpensBracket(p) then p[1..] else p
  }

  /** `q` less its trailing ']', if any. */
  function DropClose(q: string): (h: string)
    ensures q == h + (if ClosesBracket(q) then "]" else "")
  {
    if ClosesBracket(q) then q[..|q| - 1] else q
  }

  function StripBrackets(p: string): string {
    DropClose(DropOpen(p))
  }

  /** `ADDR_REGEXP.exec(s)` for `^\[?([^\]]*)\]?:([0-9]{1,5})$`. The port digits contain no colon,
      so the separator is the last colon of `s`. Before it, a leading '[' is taken by the optional
      bracket (the regular expression tries that first, and if the rest fails without it, it fails
      with it too), a trailing ']' by the closing one, and what remains is the host, which must hold
      no ']'. */
  function MatchAddress(s: string): (m: Option<AddressMatch>)
    ensures m.Some? ==> ']' !in m.value.hostname && 1 <= |m.value.port| <= 5 && AllDigits(m.value.port)
  {
    match LastIndex(s, ':')
    case None => None
    case Some(c) => AddressAt(s, c)
  }

  /** The match for the separator at position `c`: the stripped host before it and the digits after it. */
  function AddressAt(s: string, c: nat): (m: Option<AddressMatch>)
    requires c < |s|
  {
    var host := StripBrackets(s[..c]);
    var digits := s[c + 1..];
    if ']' !in host && 1 <= |digits| <= 5 && AllDigits(digits) then Some(AddressMatch(host, digits))
    else None
  }

  /** The language of the regular expression, written as a decomposition: an optional '[', a host
      without ']', an optional ']', a colon and one to five digits. */
  predicate Decomposes(s: string, open: bool, host: string, close: bool, digits: string) {
    && s == (if open then "[" else "") + host + (if close then "]" else "") + ":" + digits
    && ']' !in host
    && 1 <= |digits| <= 5 && AllDigits(digits)
  }

  /** Every match is a decomposition of the address, with the opening bracket taken whenever the
      address starts with one. */
  lemma AddressSound(s: string)
    requires MatchAddress(s).Some?
    ensures var m := MatchAddress(s).value;
      exists close: bool :: Decomposes(s, OpensBracket(s), m.hostname, close, m.port)
  {
    var c := MatchedColon(s);
    assert MatchAddress(s).value == AddressMatch(StripBrackets(s[..c]), s[c + 1..]);
    SplitAtColon(s, c);
    ReassembleAddress(s, s[..c], s[c + 1..]);
  }

  /** A matched address is split at its last colon. */
  lemma MatchedColon(s: string) returns (c: nat)
    requires MatchAddress(s).Some?
    ensures c < |s| && s[c] == ':' && LastIndex(s, ':') == Some(c)
    ensures MatchAddress(s) == AddressAt(s, c)
  {
    c := LastIndex(s, ':').value;
  }

  lemma SplitAtColon(s: string, c: nat)
    requires c < |s| && s[c] == ':'
    ensures s == s[..c] + ":" + s[c + 1..]
    ensures OpensBracket(s[..c]) == OpensBracket(s)
  {
    assert s == s[..c] + [s[c]] + s[c + 1..];
    if c > 0 {
      assert s[..c][0] == s[0];
    }
  }

  lemma ReassembleAddress(s: string, p: string, digits: string)
    requires s == p + ":" + digits && OpensBracket(p) == OpensBracket(s)
    requires ']' !in StripBrackets(p) && 1 <= |digits| <= 5 && AllDigits(digits)
    ensures Decomposes(s, OpensBracket(s), StripBrackets(p), ClosesBracket(DropOpen(p)), digits)
  {
    var q := DropOpen(p);
    assert p == (if OpensBracket(s) then "[" else "") + StripBrackets(p) + (if ClosesBracket(q) then "]" else "");
  }

  lemma NoColonInDigits(digits: string)
    requires AllDigits(digits)
    ensures ':' !in digits
  {
    forall k | 0 <= k < |digits| ensures digits[k] != ':' {
      assert IsDigit(digits[k]);
    }
  }

  /** Stripping a decomposed host part gives the host back, less a leading '[' when the
      decomposition left that '[' in the host. */
  lemma StripDecomposed(open: bool, host: string, close: bool)
    requires ']' !in host
    ensures var p := (if open then "[" else "") + host + (if close then "]" else "");
      StripBrackets(p) == if !open && OpensBracket(host) then host[1..] else host
  {
    var p := (if open then "[" else "") + host + (if close then "]" else "");
    var q := if OpensBracket(p) then p[1..] else p;
    var h := if !open && OpensBracket(host) then host[1..] else host;
    assert OpensBracket(p) == (open || OpensBracket(host));
    assert q == h + (if close then "]" else "");
    assert ']' !in h;
    if |h| > 0 {
      assert h[|h| - 1] in h;
    }
  }

  /** Every decomposition is matched, and the captured host is the decomposition's host, less the
      leading '[' the optional bracket takes when the decomposition left it in the host. */
  lemma AddressComplete(s: string, open: bool, host: string, close: bool, digits: string)
    requires Decomposes(s, open, host, close, digits)
    ensures MatchAddress(s) == Some(AddressMatch(if !open && OpensBracket(host) then host[1..] else host, digits))
  {
    var p := (if open then "[" else "") + host + (if close then "]" else "");
    assert s == p + [':'] + digits;
    NoColonInDigits(digits);
    LastIndexAt(p, ':', digits);
    assert MatchAddress(s) == AddressAt(s, |p|);
    AroundColon(p, digits);
    var h := if !open && OpensBracket(host) then host[1..] else host;
    StripDecomposed(open, host, close);
    assert ']' !in h by {
      if h != host {
        assert h == host[1..];
      }
    }
    assert AddressAt(s, |p|) == Some(AddressMatch(h, digits));
  }

  lemma AroundColon(p: string, digits: string)
    ensures (p + [':'] + digits)[..|p|] == p && (p + [':'] + digits)[|p| + 1..] == digits
  {
  }

  /** The address of the documentation: an empty host. */
  lemma PortOnlyAddress()
    ensures MatchAddress(":1965") == Some(AddressMatch("", "1965"))
  {
    AddressComplete(":1965", false, "", false, "1965");
  }

  lemma HostAndPortAddress()
    ensures MatchAddress("127.0.0.1:8001") == Some(AddressMatch("127.0.0.1", "8001"))
  {
    AddressComplete("127.0.0.1:8001", false, "127.0.0.1", false, "8001");
  }

  /** A bracketed IPv6 host loses its brackets and keeps its colons. */
  lemma BracketedAddress()
    ensures MatchAddress("[::1]:8001") == Some(AddressMatch("::1", "8001"))
  {
    assert Decomposes("[::1]:8001", true, "::1", true, "8001");
    AddressComplete("[::1]:8001", true, "::1", true, "8001");
  }

  /** Six port digits are too many. */
  lemma LongPortRefused()
    ensures MatchAddress("localhost:123456") == None
  {
    NoColonInDigits("123456");
    LastIndexAt("localhost", ':', "123456");
    assert "localhost:123456" == "localhost" + [':'] + "123456";
  }

  /** A ']' can only be the last character before the colon. */
  lemma InnerBracketRefused()
    ensures MatchAddress("[a]b:1") == None
  {
    NoColonInDigits("1");
    LastIndexAt("[a]b", ':', "1");
    assert "[a]b:1" == "[a]b" + [':'] + "1";
    assert "[a]b:1"[..4] == "[a]b";
    assert DropOpen("[a]b") == "a]b";
    assert !ClosesBracket("a]b");
    assert StripBrackets("[a]b") == "a]b";
    assert "a]b"[1] == ']';
  }

  // ---------------------------------------------------------------- listen

  const NoMiddleware: Thrown := JsError("TypeError", "There is no middleware to process requests.")

  function InvalidAddress(s: string): Thrown {
    JsError("TypeError", "Invalid address passed: \"" + s + "\"")
  }

  /** The options `listen` ends up with, or the error it throws before creating any listener. */
  function ListenConfig(mw: seq<Handler>, arg: ListenArg): (r: Result<ListenOptions, Thrown>)
    ensures |mw| == 0 ==> r == Err(NoMiddleware)
    ensures |mw| > 0 && arg.Options? ==> r == Ok(arg.options)
    ensures |mw| > 0 && arg.Address? ==> (r.Ok? <==> MatchAddress(arg.addr).Some?)
    ensures |mw| > 0 && arg.Address? && r.Err? ==> r.error == InvalidAddress(arg.addr)
    ensures arg.Address? && r.Ok? ==>
      && r.value.secure == Some(false)
      && r.value.hostname == Some(MatchAddress(arg.addr).value.hostname)
      && ']' !in r.value.hostname.value
      && 0 <= r.value.port < 100000
  {
    if |mw| == 0 then Err(NoMiddleware)
    else match arg
      case Options(o) => Ok(o)
      case Address(s) =>
        match MatchAddress(s)
        case None => Err(InvalidAddress(s))
        case Some(m) =>
          DecimalValueBound(m.port);
          assert Pow10(|m.port|) <= 100000 by {
            PowMonotone(|m.port|, 5);
          }
          Ok(ListenOptions(Some(m.hostname), DecimalValue(m.port), Some(false)))
  }

  lemma {:induction false} PowMonotone(j: nat, k: nat)
    requires j <= k
    ensures Pow10(j) <= Pow10(k)
    decreases k
  {
    if j < k {
      PowMonotone(j, k - 1);
    }
  }

  lemma ListenAddress(mw: seq<Handler>, s: string)
    requires |mw| > 0 && MatchAddress(s).Some?
    ensures ListenConfig(mw, Address(s))
         == Ok(ListenOptions(Some(MatchAddress(s).value.hostname), DecimalValue(MatchAddress(s).value.port), Some(false)))
  {
  }

  /** An address string always listens over plain TCP, and the port is the decimal value of the
      digits, with no range check beyond the five-digit limit. */
  lemma AddressListensOverTcp(mw: seq<Handler>, s: string)
    requires |mw| > 0 && MatchAddress(s).Some?
    ensures ListenConfig(mw, Address(s)).Ok?
    ensures TransportFor(ListenConfig(mw, Address(s)).value) == Tcp
    ensures ListenConfig(mw, Address(s)).value.port == DecimalValue(MatchAddress(s).value.port)
  {
  }

  // ---------------------------------------------------------------- running a request

  /** `executeRequest(request)`: the handlers run, with no tail, over the request and a fresh
      default response. */
  function Execute(mw: seq<Handler>, request: GemRequest): (Outcome, Fields) {
    var (o, st) := DispatchResult(ScriptsFor(mw, request), None, 0, Initial(DefaultFields));
    (o, st.response)
  }

  /** `handleRequest`: frame the request, run the handlers, and build the bytes to write; any of the
      three steps may throw. */
  function Respond(mw: seq<Handler>, chunks: seq<seq<byte>>, decode: Decoder, parseUrl: UrlParser): Result<seq<byte>, Thrown> {
    match Frame([], chunks, decode, parseUrl)
    case Err(e) => Err(e)
    case Ok(request) =>
      var (o, f) := Execute(mw, request);
      if o.Failed? then Err(o.err) else Serialize(f)
  }

  /** What one connection ends with: the bytes written to it (if any) and the lines logged. */
  datatype Handled = Handled(written: Option<seq<byte>>, logs: seq<string>)

  /** The two `.catch` handlers of the accept loop. A GemError is answered with its own response;
      when even that cannot be serialised, the second handler logs the failure and nothing is
      written. Any other value is logged and answered with status 40. Only a GemError with an
      out-of-range status leaves the client without an answer. */
  function Recover(e: Thrown): (h: Handled)
    ensures e.GemErr? ==> (h.written.Some? <==> ValidStatus(e.gem.status))
    ensures e.GemErr? ==> (h.logs == [] <==> ValidStatus(e.gem.status))
    ensures e.GemErr? ==> |h.logs| <= 1
    ensures !e.GemErr? ==> h.written.Some? && h.logs == [LoggedMessage(e)]
  {
    match e
    case GemErr(g) =>
      (match Serialize(ErrorFields(g))
       case Ok(b) => Handled(Some(b), [])
       case Err(e2) => Handled(None, [LoggedMessage(e2)]))
    case _ => Handled(Some(Serialize(ErrorFields(NewGemError(40))).value), [LoggedMessage(e)])
  }

  /** How the accept loop finishes a connection: the bytes `handleRequest` wrote, or the catch handlers. */
  function Answer(r: Result<seq<byte>, Thrown>): Handled {
    match r
    case Ok(b) => Handled(Some(b), [])
    case Err(e) => Recover(e)
  }

  function Connection(mw: seq<Handler>, chunks: seq<seq<byte>>, decode: Decoder, parseUrl: UrlParser): Handled {
    Answer(Respond(mw, chunks, decode, parseUrl))
  }

  /** The log line of a failed `accept`: none when the listener was closed on purpose. */
  function AcceptFailureLog(e: Thrown, closed: bool): (logs: seq<string>)
    ensures logs == [] <==> LoggedMessage(e) == "Listener has been closed" && closed
    ensures logs != [] ==> logs == [LoggedMessage(e)]
  {
    if LoggedMessage(e) == "Listener has been closed" && closed then [] else [LoggedMessage(e)]
  }

  /** What a run of the accept loop over `conns` writes, connection by connection. */
  function ServedWritten(mw: seq<Handler>, conns: seq<seq<seq<byte>>>, decode: Decoder, parseUrl: UrlParser): seq<Option<seq<byte>>>
    decreases |conns|
  {
    if conns == [] then []
    else ServedWritten(mw, conns[..|conns| - 1], decode, parseUrl) + [Connection(mw, conns[|conns| - 1], decode, parseUrl).written]
  }

  /** The logs of a run of the accept loop over `conns`, connection by connection. */
  function ServedLogs(mw: seq<Handler>, conns: seq<seq<seq<byte>>>, decode: Decoder, parseUrl: UrlParser): seq<string>
    decreases |conns|
  {
    if conns == [] then []
    else ServedLogs(mw, conns[..|conns| - 1], decode, parseUrl) + Connection(mw, conns[|conns| - 1], decode, parseUrl).logs
  }

  lemma ServedStep(mw: seq<Handler>, conns: seq<seq<seq<byte>>>, k: nat, decode: Decoder, parseUrl: UrlParser)
    requires k < |conns|
    ensures ServedWritten(mw, conns[..k + 1], decode, parseUrl)
         == ServedWritten(mw, conns[..k], decode, parseUrl) + [Connection(mw, conns[k], decode, parseUrl).written]
    ensures ServedLogs(mw, conns[..k + 1], decode, parseUrl)
         == ServedLogs(mw, conns[..k], decode, parseUrl) + Connection(mw, conns[k], decode, parseUrl).logs
  {
    assert conns[..k + 1][..k] == conns[..k];
  }

  /** Each connection is written exactly what handling it gives, whatever came before it. */
  lemma {:induction false} ServedWrittenEach(mw: seq<Handler>, conns: seq<seq<seq<byte>>>, decode: Decoder, parseUrl: UrlParser)
    ensures |ServedWritten(mw, conns, decode, parseUrl)| == |conns|
    ensures forall k :: 0 <= k < |conns| ==>
      ServedWritten(mw, conns, decode, parseUrl)[k] == Connection(mw, conns[k], decode, parseUrl).written
    decreases |conns|
  {
    if conns != [] {
      var init := conns[..|conns| - 1];
      ServedWrittenEach(mw, init, decode, parseUrl);
      forall k | 0 <= k < |conns|
        ensures ServedWritten(mw, conns, decode, parseUrl)[k] == Connection(mw, conns[k], decode, parseUrl).written
      {
        if k < |conns| - 1 {
          assert init[k] == conns[k];
        }
      }
    }
  }

  class GemApplication {
    var middleware: seq<Handler>
    var closed: bool
    /** The listener once `listen` has created one. */
    var socket: Option<Transport>

    constructor ()
      ensures middleware == [] && !closed && socket == None
    {
      middleware := [];
      closed := false;
      socket := None;
    }

    /** `use(func)`: appends the handler after the earlier ones. */
    method Use(func: Handler)
      modifies this
      ensures middleware == old(middleware) + [func]
      ensures closed == old(closed) && socket == old(socket)
    {
      middleware := middleware + [func];
    }

    /** `close()`: from now on a failed accept with 'Listener has been closed' is not logged.
        Nothing sets `closed` back. */
    method Close()
      modifies this
      ensures closed
      ensures middleware == old(middleware) && socket == old(socket)
    {
      closed := true;
    }

    /** `listen(options)` up to its accept loop: the handler check, the address parsing and the
        choice of transport. */
    method Listen(arg: ListenArg) returns (r: Result<Transport, Thrown>)
      modifies this
      ensures middleware == old(middleware) && closed == old(closed)
      ensures match ListenConfig(middleware, arg)
        case Ok(o) => r == Ok(TransportFor(o)) && socket == Some(TransportFor(o))
        case Err(e) => r == Err(e) && socket == old(socket)
    {
      if |middleware| == 0 {
        return Err(NoMiddleware);
      }
      var options: ListenOptions;
      match arg {
        case Options(o) =>
          options := o;
        case Address(s) =>
          var m := MatchAddress(s);
          if m.None? {
            return Err(InvalidAddress(s));
          }
          options := ListenOptions(Some(m.value.hostname), DecimalValue(m.value.port), Some(false));
          ListenAddress(middleware, s);
      }
      var t := TransportFor(options);
      socket := Some(t);
      r := Ok(t);
    }

    /** `executeRequest(request)`: a fresh default response goes through the composed handlers;
        the result is that response object, or the value the chain rejected with. */
    method ExecuteRequest(request: GemRequest) returns (r: Result<GemResponse, Thrown>)
      ensures var (o, f) := Execute(middleware, request);
        && (r.Ok? <==> o.Done?)
        && (r.Ok? ==> fresh(r.value) && r.value.Snapshot() == f)
        && (r.Err? ==> r.error == o.err)
    {
      var response := new GemResponse();
      var context := GemContext(request, response);
      var o, _ := ComposedMiddleware(middleware, context, None);
      if o.Failed? {
        return Err(o.err);
      }
      return Ok(context.response);
    }

    /** `handle(url)`: builds the request from the URL text, then executes it. */
    method Handle(url: string, parseUrl: UrlParser) returns (r: Result<GemResponse, Thrown>)
      ensures match NewRequest(url, parseUrl)
        case Err(e) => r == Err(e)
        case Ok(request) =>
          var (o, f) := Execute(middleware, request);
          && (r.Ok? <==> o.Done?)
          && (r.Ok? ==> fresh(r.value) && r.value.Snapshot() == f)
          && (r.Err? ==> r.error == o.err)
    {
      var request := NewRequest(url, parseUrl);
      if request.Err? {
        return Err(request.error);
      }
      r := ExecuteRequest(request.value);
    }

    /** `handleRequest(conn)` up to the write: the bytes it would write, or what it throws. */
    method HandleRequest(chunks: seq<seq<byte>>, decode: Decoder, parseUrl: UrlParser) returns (r: Result<seq<byte>, Thrown>)
      ensures r == Respond(middleware, chunks, decode, parseUrl)
    {
      var request := FromConnection(chunks, decode, parseUrl);
      if request.Err? {
        return Err(request.error);
      }
      var response := ExecuteRequest(request.value);
      if response.Err? {
        return Err(response.error);
      }
      r := response.value.ToBytes();
    }

    /** The accept loop of `listen`: each accepted connection (given as the chunks it delivers) is
        handled and answered in turn, until `accept` fails with `acceptFailure`. */
    method Serve(conns: seq<seq<seq<byte>>>, acceptFailure: Thrown, decode: Decoder, parseUrl: UrlParser)
      returns (written: seq<Option<seq<byte>>>, logs: seq<string>)
      requires socket.Some?
      ensures |written| == |conns|
      ensures forall k :: 0 <= k < |conns| ==> written[k] == Connection(middleware, conns[k], decode, parseUrl).written
      ensures logs == ServedLogs(middleware, conns, decode, parseUrl) + AcceptFailureLog(acceptFailure, closed)
    {
      written, logs := [], [];
      var k := 0;
      while k < |conns|
        invariant k <= |conns|
        invariant written == ServedWritten(middleware, conns[..k], decode, parseUrl)
        invariant logs == ServedLogs(middleware, conns[..k], decode, parseUrl)
      {
        var r := HandleRequest(conns[k], decode, parseUrl);
        var h := Answer(r);
        ServedStep(middleware, conns, k, decode, parseUrl);
        written := written + [h.written];
        logs := logs + h.logs;
        k := k + 1;
      }
      assert conns[..k] == conns;
      ServedWrittenEach(middleware, conns, decode, parseUrl);
      var message := LoggedMessage(acceptFailure);
      if !(message == "Listener has been closed" && closed) {
        logs := logs + [message];
      }
    }
  }

  // ---------------------------------------------------------------- answers to failures

  /** A GemError with a status in range is answered with exactly its header: the client reads its
      status and, when exposed, its message as meta, and no body; nothing is logged. */
  lemma GemErrorAnswered(g: GemError)
    requires ValidStatus(g.status)
    ensures var meta := if g.expose then g.message else DefaultMeta;
      Recover(GemErr(g)) == Handled(Some(Header(g.status, meta)), [])
    ensures '\r' !in g.message ==>
      ParseResponse(Recover(GemErr(g)).written.value)
      == Some(Received(g.status, Encode(if g.expose then g.message else DefaultMeta), []))
  {
    var f := ErrorFields(g);
    assert !SendsBody(f);
    if '\r' !in g.message {
      assert '\r' !in f.meta;
      SerializeRoundTrip(f);
    }
  }

  /** A GemError whose status is outside 10..69 cannot be answered: nothing is written, and the
      serialisation failure is logged. */
  lemma OutOfRangeGemError(g: GemError)
    requires !ValidStatus(g.status)
    ensures Recover(GemErr(g)) == Handled(None, ["Invaild response status: " + IntToString(g.status)])
  {
  }

  /** The answer to any failure other than a GemError: "40 Server Error", beginning with the
      characters '4' and '0'. */
  lemma ServerErrorBytes()
    ensures Serialize(ErrorFields(NewGemError(40))) == Ok(Header(40, "Server Error"))
  {
    ServerErrorFields();
  }

  lemma ServerErrorFields()
    ensures ErrorFields(NewGemError(40)) == Fields(40, "Server Error", Null)
  {
    ExampleMessages();
  }

  lemma ServerErrorPrefix()
    ensures [0x34, 0x30] <= Header(40, "Server Error")
  {
    HeaderBytes(40, "Server Error");
  }

  lemma ServerErrorText()
    ensures Header(40, "Server Error") == Encode("40 Server Error\r\n")
  {
    assert IntToString(40) == "40" by {
      TwoDigits(40);
    }
    assert "40" + " " + "Server Error" + "\r\n" == "40 Server Error\r\n";
  }

  /** Any other thrown value is logged (its message, or "Application Error") and answered with
      "40 Server Error". */
  lemma OtherFailureAnswered(e: Thrown)
    requires !e.GemErr?
    ensures Recover(e) == Handled(Some(Encode("40 Server Error\r\n")), [LoggedMessage(e)])
    ensures [0x34, 0x30] <= Recover(e).written.value
  {
    ServerErrorBytes();
    ServerErrorText();
    ServerErrorPrefix();
  }

  const AnError: Thrown := GemErr(NewGemError(41, Some("An Error!")))

  /** `app.use(() => { throw err; })`: a handler that throws `err` whatever the request. */
  function Throwing(err: Thrown): Handler {
    _ => [Throw(err)]
  }

  /** The repository's test: with a handler throwing `new GemError(41, 'An Error!')`, a well-formed
      request is answered "41 An Error!\r\n" and nothing is logged. */
  lemma ThrownGemErrorExample(line: seq<byte>, decode: Decoder, parseUrl: UrlParser)
    requires EndsWithCrlf(line) && |line| <= MaxLength && parseUrl(decode(line)).Some?
    ensures Connection([Throwing(AnError)], [line], decode, parseUrl) == Handled(Some(Encode("41 An Error!\r\n")), [])
  {
    var mw := [Throwing(AnError)];
    assert [] + line == line;
    var request := NewRequest(decode(line), parseUrl).value;
    assert Frame([], [line], decode, parseUrl) == Ok(request);
    var scripts := ScriptsFor(mw, request);
    assert scripts[0] == [Throw(AnError)];
    ReachedThrowRejects(scripts, None, 0, 0, Initial(DefaultFields));
    assert Execute(mw, request).0 == Failed(AnError);
    assert Respond(mw, [line], decode, parseUrl) == Err(AnError);
    AnErrorRecovered();
  }

  lemma AnErrorRecovered()
    ensures Recover(AnError) == Handled(Some(Encode("41 An Error!\r\n")), [])
  {
    var g := NewGemError(41, Some("An Error!"));
    assert ErrorFields(g) == Fields(41, "An Error!", Null);
    assert Serialize(ErrorFields(g)) == Ok(Header(41, "An Error!"));
    ExampleHeaderText();
  }

  lemma ExampleHeaderText()
    ensures Header(41, "An Error!") == Encode("41 An Error!\r\n")
  {
    assert IntToString(41) == "41" by {
      TwoDigits(41);
    }
    assert "41" + " " + "An Error!" + "\r\n" == "41 An Error!\r\n";
  }

  /** A request line longer than the buffer is answered "59 URL Too Long" before any handler runs,
      whether it arrives in one read or as a full buffer followed by the rest. */
  lemma TooLongAnswered(mw: seq<Handler>, line: seq<byte>, decode: Decoder, parseUrl: UrlParser)
    requires EndsWithCrlf(line) && |line| == MaxLength + 1
    ensures Connection(mw, [line], decode, parseUrl) == Handled(Some(Header(59, "URL Too Long")), [])
    ensures Connection(mw, [line[..MaxLength], line[MaxLength..]], decode, parseUrl) == Handled(Some(Header(59, "URL Too Long")), [])
  {
    MaxLengthBoundary(line, decode, parseUrl);
  }

  /** A connection that ends before any read makes the bytes too long or CR LF-terminated is logged
      and answered with status 40. */
  lemma PrematureCloseAnswered(mw: seq<Handler>, chunks: seq<seq<byte>>, decode: Decoder, parseUrl: UrlParser)
    requires forall i :: 1 <= i <= |chunks| ==> !Stops([] + Concat(chunks[..i]))
    ensures Connection(mw, chunks, decode, parseUrl)
         == Handled(Some(Encode("40 Server Error\r\n")), ["Client prematurely closed the connection"])
  {
    FrameUntilEnd([], chunks, decode, parseUrl);
    OtherFailureAnswered(PrematureClose);
  }

  /** When no handler assigns a response field, the response is the default one: a run that
      resolves is answered "20 text/plain" with no body. */
  lemma EmptyChainAnswer(mw: seq<Handler>, request: GemRequest)
    requires forall k :: 0 <= k < |mw| ==> NoAssign(mw[k](request))
    ensures Execute(mw, request).1 == DefaultFields
    ensures Execute([], request) == (Done, DefaultFields)
    ensures Serialize(DefaultFields) == Ok(Header(20, "text/plain"))
  {
    DispatchKeepsResponse(ScriptsFor(mw, request), None, 0, Initial(DefaultFields));
  }
}
