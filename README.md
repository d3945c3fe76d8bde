# gem — a Dafny model of a Gemini server framework

gem is a small Deno framework for Gemini servers. A `GemApplication` holds an ordered list of
middleware. It listens on TCP or TLS and frames one request line from every accepted connection.
It runs the middleware over a fresh `GemResponse` through a koa-style `compose`, and writes
`<STATUS> <META>\r\n`, with a body for 2x statuses only.

Failures are turned into Gemini error responses:
- a thrown `GemError` becomes its own status line;
- anything else is logged and answered with `40 Server Error`.

The core also has two helpers built on top of the middleware:
- `GemRouter` dispatches on the URL path;
- `send` serves a file from under a root directory.

This project models that core. Its modules follow the source files:

| module | source file | form |
|---|---|---|
| `Errors` | error.ts | datatypes and functions |
| `Response` | response.ts | `class GemResponse` with mutable `status`, `meta`, `body`; the wire format as a function `Serialize`, and a reader `ParseResponse` for the round trip |
| `Request` | request.ts | `NewRequest`, and `FromConnection`, a loop copying chunks into a 1026-byte `array` buffer, proved equal to the framing function `Frame` |
| `Context` | context.ts | the context pair and the handlers' field assignments |
| `Middleware` | middleware.ts | `class Run` with the mutable `index` of one composed call; `Dispatch` and `Invoke` are proved equal to the specification functions `DispatchResult` and `HandlerResult` |
| `Application` | application.ts | `class GemApplication` with `middleware`, `closed` and the socket; `listen` is split into `Listen` (checks and address parsing) and `Serve` (the accept loop) |
| `Router` | router.ts | `class GemRouter` with its route list, and the `Routes` loop proved against `RoutesResult` |
| `Send` | send.ts and `GemContext.send` of context.ts | `IsHidden` and `Send` as methods, proved against the functions `FirstSegment` and `SendPlan` |

The helper modules are:
- `Basics` (Option and Result);
- `Text` (`startsWith`, `includes`, decimal numbers and `split`);
- `Encoding` (`TextEncoder` as UTF-8).

A middleware is modelled as a `Handler`: a function from the request it reads (`ctx.request`) to a script of steps. The router's `routes()` and `ctx.send(opts)` are handlers of this kind (`Router.RouterHandler`, `Send.SendHandler`). The steps are:
- `Push(n)` is an observation the handler records, like the `callStack.push(n)` of the repository's tests;
- `Assign` is an assignment to a response field;
- `Throw` is a thrown value;
- `Next` is `await next()`.

Route handlers are sequences of assignments and throws, given the params of their match.

Collaborators whose code is not part of this model are parameters of the operations that use them:
- the WHATWG URL parser, as `UrlParser`;
- `TextDecoder`, as `Decoder`;
- path-to-regexp's `match`, as `Matcher`;
- the std `path` functions and `contentType`, as `PathLib`;
- `Deno.stat` and `Deno.readFile`, as `FileSystem`;
- the bytes a connection delivers, as a sequence of chunks;
- the accepted connections, as a sequence of such sequences.

Where the documentation and the code disagree, the model follows the code. The doc comments of
`listen` (application.ts:56-60 and 74-78) say an undefined `secure` means raw TCP. However,
`defaultGetSocket` (application.ts:34) uses TCP only when `secure === false`. So an options
object without `secure` listens over TLS, and `TransportFor` states that. A string address always
sets `secure: false`, so a string address always means TCP.

`handleRequest` and the accept loop call `GemRequest.fromReader` and
`GemResponse.toUint8Array`, which request.ts and response.ts do not define. They are modelled as
`fromConnection` and as the byte construction of `sendTo` (validate, then header, then the body
for 2x), which is what their names and call sites require.

## Model

| member | source | states |
|---|---|---|
| `Errors.GetMessageForStatus` | error.ts:11-13 | the default message is always an entry of the status table or the empty string |
| `Errors.ProtocolStatusMessage` | error.ts:11-34 | for every status 10..69 the message is the table entry, or "" when there is none; the tens-digit fallback never applies in that range |
| `Errors.NewGemError` | error.ts:1-9 | status and expose are kept and the name is "GemError"; a given message is kept as is, the empty string included (`??`); a missing one becomes the status's default message |
| `Errors.ExampleMessages` | error.ts:11-34 | 51 → "Not found", 40 → "Server Error", 59 → "Bad request", 45 → "" (no entry, and 4 is no key), 510 → "Not found" by the fallback, and an explicit "" message is kept |
| `Response.Serialize` | response.ts:12-31 | the bytes exist iff the status is within 10..69, otherwise the error is "Invaild response status: " + status; their length is the header's plus the body's exactly when a body is set and the status is 2x |
| `Response.GemResponse.constructor` | response.ts:4 | the new response holds the given status, meta and body (defaults 20, "text/plain", null) |
| `Response.GemResponse.FromError` | response.ts:8-10 | a fresh response with the error's status and no body, whose meta is the message if the error is exposed and "text/plain" otherwise |
| `Response.GemResponse.Validate` | response.ts:27-31 | fails iff the status is outside 10..69, with the "Invaild response status" error, and changes nothing |
| `Response.GemResponse.ToBytes` | response.ts:12-25 | the bytes are those `Serialize` gives for the response's current fields |
| `Response.HeaderBytes` | response.ts:14 | for a valid status the header is its two ASCII digits, a space, the UTF-8 meta and CR LF |
| `Response.SerializeRoundTrip` | response.ts:12-25 | a client reading the bytes back gets the status, the encoded meta, and the body bytes exactly when a body is set and the status is 2x (and no bytes otherwise), provided the meta has no CR |
| `Text.Split` | send.ts:19 | `split('/')` yields at least one part, no part contains the separator, joining the parts gives the input back, and the first part is everything before the first separator |
| `Request.NewRequest` | request.ts:9-15 | succeeds iff the URL parser accepts the text, keeping the raw text and the parsed URL; otherwise fails with GemError(59, "Invalid URL") |
| `Request.CopyInto` | request.ts:32 | `req.set(chunk, off)` writes the chunk at the offset and leaves every byte before and after it unchanged |
| `Request.FromConnection` | request.ts:17-40 | the buffer-and-offset loop gives exactly the outcome of the framing function `Frame` over the delivered chunks |
| `Request.FrameStopsAt` | request.ts:20-38 | framing ends at the first read after which the accumulated bytes exceed 1026 or end in CR LF; "URL Too Long" wins over the terminator, otherwise all the bytes read are decoded into the request |
| `Request.FrameUntilEnd` | request.ts:22-26 | when no read makes the bytes too long or CR LF-terminated, the result is "Client prematurely closed the connection"; an inner CR LF does not end the request |
| `Request.MaxLengthBoundary` | request.ts:16-30 | a terminated line of exactly 1026 bytes is accepted; one of 1027 bytes is "URL Too Long", whether read at once or as a full 1026-byte buffer followed by the last byte |
| `Context.Assign` | response.ts:4 | assigning one public field of the response replaces that field and leaves the other two as they were |
| `Middleware.Run.constructor` | middleware.ts:14 | a composed call starts with `index` -1, nothing entered and nothing recorded, over the context's response |
| `Middleware.Run.Dispatch` | middleware.ts:16-29 | `dispatch(i)` does to the index, the response and the record exactly what `DispatchResult` says |
| `Middleware.Run.Invoke` | middleware.ts:28 | a handler's statements, run in order with `dispatch(i + 1)` as `next`, have the effect `HandlerResult` gives |
| `Middleware.ComposedMiddleware` | middleware.ts:10-33 | each handler (and the tail) runs the statements it takes for `ctx.request`; the composed function settles, records and leaves the response as `DispatchResult` over those statements from position 0 with a fresh index of -1 |
| `Middleware.DispatchAdvances` | middleware.ts:16-29 | a dispatch never lowers the index, keeps the positions entered so far, and appends new ones in strictly increasing order, each above the old index and at most the new one; a dispatch past the index check leaves the index at least `i` |
| `Middleware.HandlerAdvances` | middleware.ts:21-28 | running a handler's statements advances the run state in the same sense: index never lower, new positions strictly increasing and above the old index |
| `Middleware.EachPositionOnce` | middleware.ts:14-20 | over a whole run the positions entered are strictly increasing, so no handler (nor the tail) runs twice |
| `Middleware.NextTwiceFails` | middleware.ts:17-19 | a handler that awaits `next()` a second time, after the first resolved and with any observations and assignments in between, is rejected with "next() called multiple times."; the index and the positions entered stay as the first call left them |
| `Middleware.ThrowRejects` | middleware.ts:28 | a handler that reaches a `throw` after only observations and assignments rejects with the thrown value |
| `Middleware.NextPropagates` | middleware.ts:28 | a rejected `await next()` rejects the awaiting handler with the same value and state |
| `Middleware.ReachedThrowRejects` | middleware.ts:16-28 | once dispatch reaches a handler that throws before calling `next`, the dispatch rejects with that value |
| `Middleware.DispatchKeepsResponse` | middleware.ts:16-29 | when no handler of the chain, nor the tail, assigns a response field, the run leaves the response as it was, however it ends |
| `Middleware.NoNextStopsChain` | middleware.ts:21-28 | when handler k never calls `next`, no later handler and not the tail is entered |
| `Middleware.Onion` | middleware.ts:16-31 | handlers of the form push(before); await next(); push(after) record all befores in registration order, then the tail, then all afters in reverse order, and the run resolves |
| `Middleware.DispatchFailure` | middleware.ts:16-29 | a run rejects only with "next() called multiple times." or with a value that a `throw` statement of some handler or of the tail holds |
| `Middleware.ExecutionOrderExamples` | middleware.ts:16-31 | the orders of the execution-order tests: [1] when `next` is not called, [1, 2], and [1, 3, 4, 2] for an awaited `next()`; plus [1, 3, 2]; the empty chain resolves at once with the index at 0. The [1, 2] test (application.test.ts:74-88) calls `next()` without awaiting it; the awaited model gives the same trace only because nothing follows that `next()` |
| `Application.TransportFor` | application.ts:32-41 | the listener is TCP iff `secure` is exactly false; true or absent means TLS |
| `Application.MatchAddress` | application.ts:9 | the address pattern, applied by `listen` at lines 101-105: a match has no ']' in its hostname and 1 to 5 port digits (fully characterised by the next two rows) |
| `Application.AddressSound` | application.ts:9 | a matched address is an optional '[', the hostname, an optional ']', ':' and the port digits, with no ']' in the hostname and 1 to 5 digits |
| `Application.AddressComplete` | application.ts:9 | every string of that shape matches and yields its port digits and its hostname; when the shape has no opening '[' but the hostname starts with one, the optional `\[?` takes it and the hostname loses it |
| `Application.PortOnlyAddress` | application.ts:9 | ":1965" gives an empty hostname and port "1965" |
| `Application.HostAndPortAddress` | application.ts:9 | "127.0.0.1:8001" gives hostname "127.0.0.1" and port "8001" |
| `Application.BracketedAddress` | application.ts:9 | "[::1]:8001" gives hostname "::1": the last ':' separates the port |
| `Application.LongPortRefused` | application.ts:9 | a six-digit port does not match |
| `Application.InnerBracketRefused` | application.ts:9 | a ']' inside the hostname does not match |
| `Application.ListenConfig` | application.ts:95-107 | no middleware is a TypeError; options pass through; an address is accepted iff it matches, else "Invalid address passed"; an accepted address sets `secure: false` and the matched hostname, with a port below 100000 |
| `Application.AddressListensOverTcp` | application.ts:100-109 | listening on a matching address string always opens raw TCP, on the decimal value of the port digits |
| `Application.AcceptFailureLog` | application.ts:133-140 | a failed accept is logged unless its message is "Listener has been closed" and the application was closed, and then exactly one line, the message |
| `Application.GemApplication.constructor` | application.ts:43-50 | no middleware, not closed, no socket |
| `Application.GemApplication.Use` | application.ts:52-54 | the handler is appended after the earlier ones; nothing else changes |
| `Application.GemApplication.Close` | application.ts:156-159 | the application is closed from then on; the middleware and socket are kept |
| `Application.GemApplication.Listen` | application.ts:95-109 | on success the socket is the transport `TransportFor` picks for the configured options; on failure the error is thrown and the socket is untouched |
| `Application.GemApplication.ExecuteRequest` | application.ts:161-168 | resolves iff the chain resolves, with a fresh response holding the fields the chain left on the default response; otherwise rejects with the chain's value |
| `Application.GemApplication.Handle` | application.ts:151-154 | an unparsable URL rejects with "Invalid URL"; otherwise as `ExecuteRequest` |
| `Application.GemApplication.HandleRequest` | application.ts:170-175 | framing, then the chain, then the byte construction: the bytes or the first failure, as `Respond` states |
| `Application.GemApplication.Serve` | application.ts:111-140 | each accepted connection is written exactly what handling it and the two catch handlers give; the logs are those of the connections in order, then the accept failure's line unless it was a deliberate close |
| `Application.Recover` | application.ts:114-131 | a thrown GemError is answered iff its status is in range, and nothing is logged iff it is answered; any other thrown value is always answered and its message is logged |
| `Application.GemErrorAnswered` | application.ts:114-117 | a GemError with a valid status is answered with exactly its header and no body, and nothing is logged; provided the message has no CR, the client reads back its status and, when exposed, its message |
| `Application.OutOfRangeGemError` | application.ts:114-131 | a GemError with a status outside 10..69 gets no answer at all; the second catch logs the "Invaild response status" message |
| `Application.OtherFailureAnswered` | application.ts:118-125 | any other thrown value is logged with its message (or "Application Error") and answered "40 Server Error\r\n", which starts with '4' '0' |
| `Application.ThrownGemErrorExample` | application.test.ts:204-209 | with a single handler throwing GemError(41, "An Error!"), every well-formed request line (CR LF-terminated, at most 1026 bytes, a parsable URL) is answered "41 An Error!\r\n" and nothing is logged |
| `Application.TooLongAnswered` | request.ts:28-30 | a 1027-byte request line, in one read or as a full buffer followed by the last byte, is answered "59 URL Too Long" before any handler runs, and nothing is logged |
| `Application.PrematureCloseAnswered` | request.ts:24-26 | a connection that ends, after any number of reads, before the bytes read are too long or end in CR LF is logged and answered "40 Server Error" |
| `Application.EmptyChainAnswer` | application.ts:161-168 | for any request, when no handler assigns a response field, the response left is the default one, whose bytes are "20 text/plain" CR LF with no body; with no handlers at all the run also resolves |
| `Router.NewRouterContext` | router.ts:29-35 | the router context shares the request and the very same response object, and carries the params |
| `Router.ApplyFailure` | router.ts:61 | a handler can only reject with a value it throws itself |
| `Router.ApplyNoRaise` | router.ts:61 | a handler that throws nothing runs to completion |
| `Router.MatchingExactly` | router.ts:58-63 | the routes considered are exactly those whose pattern matches the pathname, each with the params of its match, in strictly increasing registration order |
| `Router.RouteRunCalls` | router.ts:58-63 | the loop does not stop at the first match: it invokes a prefix of the matching routes; all of them when no handler throws; otherwise it stops at a handler that threw, and rejects with the value that handler threw |
| `Router.GateClosed` | router.ts:57 | when the raw request does not start with the URL prefix, no handler runs and the response is unchanged |
| `Router.AllMatchesInvoked` | router.ts:54-66 | behind the prefix, with handlers that throw nothing, every matching route is invoked once in registration order and the middleware resolves |
| `Router.GemRouter.constructor` | router.ts:45-48 | the URL prefix is kept, the route prefix is the given one or "", and there are no routes |
| `Router.GemRouter.On` | router.ts:50-52 | the route, under the router's prefix, is appended after all earlier routes |
| `Router.GemRouter.Routes` | router.ts:54-66 | the middleware's outcome, invocations and final response are exactly `RoutesResult` over the registered routes |
| `Router.RunHandler` | router.ts:61 | a route handler's assignments are applied to the shared response in order, up to its first throw |
| `Router.RouterAsHandler` | router.ts:54-66 | registered as a chain handler, the router middleware has exactly the effect `RoutesResult` describes on the response, and the same outcome |
| `Router.RouterEndsChain` | router.ts:55-65 | registered through `use`, the router never calls `next`, so no handler registered after it runs |
| `Router.RouterHandler` | router.ts:54-66 | `routes()` as a handler: for no request does it call `next`, and for a request outside the URL prefix it does nothing |
| `Router.RouterFirst` | router.ts:54-66 | registered first on a chain, the router settles the run and leaves the response exactly as `Routes` does for the request |
| `Send.IsHidden` | send.ts:18-26 | the loop returns on its first iteration: a path is hidden iff its first '/'-segment starts with '.' and is neither "." nor ".." |
| `Send.FirstSegmentOnly` | send.ts:19-24 | whatever follows the first '/' does not affect which segment is inspected |
| `Send.HiddenExamples` | send.ts:18-26 | ".git/config" is hidden; "public/.env", "./index.gmi" and "" are not |
| `Send.Located` | send.ts:45-56 | a failed first `stat` is GemError(51); a non-directory, or a directory without an index option, is read at its own path; a directory with an index is read at the joined index path when that is a file, and is GemError(51) otherwise; every failure is GemError(51) |
| `Send.ReadFailure` | send.ts:68-77 | a failed read is either GemError(51) or the thrown value itself |
| `Send.Send` | send.ts:28-82 | a refused path throws and a hidden path returns, both leaving the response as it was; a served file sets exactly status 20, the meta and the file's bytes, as `SendPlan` decides |
| `Send.ContextSend` | context.ts:14-17 | sends `opts.path` when given (even ""), otherwise the request's pathname, with the effect of `Send` |
| `Send.PlanSteps` | context.ts:14-17 | the statements of `ctx => ctx.send(opts)`: never `next`, and a throw first exactly when `send` fails, holding its error |
| `Send.SendHandler` | context.ts:14-17 | `ctx.send(opts)` as a handler: for no request does it call `next`, and it throws first exactly when `send` fails for that request's path |
| `Send.SendAsHandler` | send.ts:79-81 | run as a chain handler, sending has the effect `ContextSend` promises: untouched on a skip, the failure thrown, or exactly status 20, the meta and the bytes |
| `Send.TraversalRefused` | send.ts:34-37 | a path normalising to one that starts with ".." is refused with status 59 whatever the file system holds |
| `Send.HiddenSkipped` | send.ts:41-43 | a hidden path, unless `hidden` is true, is skipped whatever the file system holds |
| `Send.SendFailures` | send.ts:28-82 | every failure is status 59 (travelling up), status 51 (missing), or an error `readFile` threw, passed on unchanged |
| `Send.DirectoryWithoutIndexFile` | send.ts:48-53 | a directory with an index option whose index is not a file is answered 51 |
| `Send.MetaPrecedence` | send.ts:58-66 | the caller's table wins, then .gmi/.gemini as "text/gemini; lang=en", then the media-type lookup, then "text/plain"; no table behaves as an empty one |
| `Send.ReadFailureMapping` | send.ts:71-77 | NotFound errors and errors (a GemError included) whose message mentions "os error 21" become 51; every other error and every non-Error value is rethrown unchanged |
| `Send.ServedFileReceived` | send.ts:79-81 | provided the meta has no CR, a served file reaches the client as status 20, the meta, and the file's bytes unchanged |

## Left out

- Sockets, TLS certificates and `Deno.listen`/`Deno.listenTls` are not modelled. `Listen` records only which transport it would open.
- `close()` does not stop an accept loop here: the accept failure is an input of `Serve`.
- The accept loop does not await `handleRequest`, so connections are handled concurrently. `Serve` handles them one after the other, so the interleaving of log lines between connections is not modelled.
- The log records `console.error` output as a sequence of messages, without the "Error: " prefix argument.
- The `signal` option and abort are not modelled.
- Handlers that call `next()` without awaiting it are not modelled. `Next` is always `await next()`. The repository's test at application.test.ts:115, which observes [1, 3, 2, 4], relies on that.
- Execute, Respond: a handler's statements are chosen from the request when the handler starts, so a handler cannot branch on what the rest of the chain did to the response, cannot catch a rejected `next()` (a rejection always propagates), and cannot replace `ctx.response` by another object; handlers assign its fields only.
- Router.RunHandler: a route handler receives only its decoded parameters, not the whole `GemRouterContext`, so it cannot read `ctx.request` or branch on it; the request is consulted only by the router itself (its prefix gate and its path matcher).
- Asynchronous route handlers are not modelled. The router does not await its handlers, so a rejected promise from an async handler is lost, and only synchronous throws reach the chain.
- The URL parser, `TextDecoder`, path-to-regexp's `match` with `decodeURIComponent`, the std `normalize`/`join`/`extname` and the media-type lookup `contentType` are parameters, not definitions.
- The file system is a parameter. `stat` and `readFile` are deterministic functions of the path, so races between them are not modelled.
- Response statuses are integers. A fractional or NaN status, which JavaScript would print differently, is not modelled.
- Strings are sequences of Unicode scalar values, so lone UTF-16 surrogates (which `TextEncoder` replaces by U+FFFD) cannot occur.
- `Request.FromConnection` takes the chunks as given. A real `conn.read` into the 1026-byte `buf` never returns more than 1026 bytes at once; larger chunks are accepted by the model and framed the same way (too long).
- `SendOptions.hidden` is a boolean or absent. Other truthy values that JavaScript would accept are not modelled.
- mod.ts, deps.ts and the examples directory only re-export and demonstrate the core, so they are not modelled.
