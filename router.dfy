/** router.ts: a router keeps an ordered list of (pattern, handler) routes; its middleware, when the
    raw request starts with the URL prefix, invokes every route whose pattern matches the pathname,
    in registration order, and never calls `next`. */
module Router {
  import opened Basics
  import opened Text
  import opened Errors
  import opened Response
  import opened Request
  import opened Context
  import opened Middleware

  /** The `params` of a path match. */
  type Params = map<string, string>

  /** `match(pattern, { decode: decodeURIComponent })(pathname)` of path-to-regexp, a collaborator:
      the params when the pathname matches the pattern, `None` (the `false` result) otherwise. */
  type Matcher = (string, string) -> Option<Params>

  /** What a route handler does with its context, synchronously: assign a response field, or throw. */
  datatype Action = Set(a: Assignment) | Raise(err: Thrown)

  /** A route handler: what it does, given the params it is called with. */
  type RouteHandler = Params -> seq<Action>

  datatype Route = Route(pattern: string, handler: RouteHandler)

  datatype RouterOptions = RouterOptions(urlPrefix: string, prefix: Option<string>)

  /** `GemRouterContext`: the request and response of the context it wraps, plus the params. */
  datatype GemRouterContext = GemRouterContext(request: GemRequest, response: GemResponse, params: Params)

  /** `new GemRouterContext(context, params)`: the same request and the same response object. */
  function NewRouterContext(context: GemContext, params: Params): (c: GemRouterContext)
    ensures c.request == context.request && c.response == context.response && c.params == params
  {
    GemRouterContext(context.request, context.response, params)
  }

  /** One handler invocation: the position of its route and the params it was given. */
  datatype Call = Call(route: nat, params: Params)

  // ---------------------------------------------------------------- specification

  /** A handler's actions on the response fields, up to the first throw. */
  function Apply(actions: seq<Action>, f: Fields): (Outcome, Fields) {
    if actions == [] then (Done, f)
    else match actions[0]
      case Set(a) => Apply(actions[1..], Assigned(f, a))
      case Raise(e) => (Failed(e), f)
  }

  /** Only a value the handler throws can come out of it. */
  lemma {:induction false} ApplyFailure(actions: seq<Action>, f: Fields)
    ensures Apply(actions, f).0.Failed? ==> Raise(Apply(actions, f).0.err) in actions
  {
    if actions != [] && actions[0].Set? {
      ApplyFailure(actions[1..], Assigned(f, actions[0].a));
    }
  }

  /** A handler that throws nothing runs to completion. */
  lemma {:induction false} ApplyNoRaise(actions: seq<Action>, f: Fields)
    requires forall k :: 0 <= k < |actions| ==> actions[k].Set?
    ensures Apply(actions, f).0 == Done
  {
    if actions != [] {
      ApplyNoRaise(actions[1..], Assigned(f, actions[0].a));
    }
  }

  /** Every route from position `k` whose pattern matches the pathname, with its params, in order. */
  function Matching(routes: seq<Route>, k: nat, pathname: string, matcher: Matcher): seq<Call>
    requires k <= |routes|
    decreases |routes| - k
  {
    if k == |routes| then []
    else match matcher(routes[k].pattern, pathname)
      case None => Matching(routes, k + 1, pathname, matcher)
      case Some(p) => [Call(k, p)] + Matching(routes, k + 1, pathname, matcher)
  }

  /** `Matching` holds exactly the matching routes with the params of their match, in strictly
      increasing route order (so each at most once). */
  lemma {:induction false} MatchingExactly(routes: seq<Route>, k: nat, pathname: string, matcher: Matcher)
    requires k <= |routes|
    ensures var m := Matching(routes, k, pathname, matcher);
      forall c :: c in m <==> k <= c.route < |routes| && matcher(routes[c.route].pattern, pathname) == Some(c.params)
    ensures var m := Matching(routes, k, pathname, matcher);
      forall a, b :: 0 <= a < b < |m| ==> m[a].route < m[b].route
    ensures var m := Matching(routes, k, pathname, matcher);
      forall a :: 0 <= a < |m| ==> k <= m[a].route
    decreases |routes| - k
  {
    if k < |routes| {
      var rest := Matching(routes, k + 1, pathname, matcher);
      MatchingExactly(routes, k + 1, pathname, matcher);
      match matcher(routes[k].pattern, pathname)
      case None =>
        assert Matching(routes, k, pathname, matcher) == rest;
      case Some(p) =>
        var m := [Call(k, p)] + rest;
        assert Matching(routes, k, pathname, matcher) == m;
        assert forall a :: 0 < a < |m| ==> m[a] == rest[a - 1];
    }
  }

  /** The loop of the router middleware from route `k` on, over response fields `f`: how it ends,
      the invocations it makes, and the fields afterwards. A throw ends the loop. */
  function RouteRun(routes: seq<Route>, k: nat, pathname: string, matcher: Matcher, f: Fields): (Outcome, seq<Call>, Fields)
    requires k <= |routes|
    decreases |routes| - k
  {
    if k == |routes| then (Done, [], f)
    else match matcher(routes[k].pattern, pathname)
      case None => RouteRun(routes, k + 1, pathname, matcher, f)
      case Some(p) =>
        var (o, f1) := Apply(routes[k].handler(p), f);
        if o.Failed? then (o, [Call(k, p)], f1)
        else
          var (o2, c2, f2) := RouteRun(routes, k + 1, pathname, matcher, f1);
          (o2, [Call(k, p)] + c2, f2)
  }

  /** The router middleware: nothing at all unless the raw request starts with the URL prefix. */
  function RoutesResult(routes: seq<Route>, urlPrefix: string, request: GemRequest, matcher: Matcher, f: Fields): (Outcome, seq<Call>, Fields) {
    if StartsWith(request.raw, urlPrefix) then RouteRun(routes, 0, request.url.pathname, matcher, f)
    else (Done, [], f)
  }

  /** No first-match stop: the invocations are the matching routes, in registration order, each with
      the params of its match — all of them when no handler throws; up to and including the first
      handler that throws otherwise, and the loop rejects with the value that handler threw. */
  lemma {:induction false} RouteRunCalls(routes: seq<Route>, k: nat, pathname: string, matcher: Matcher, f: Fields)
    requires k <= |routes|
    ensures var (o, calls, _) := RouteRun(routes, k, pathname, matcher, f);
      && calls <= Matching(routes, k, pathname, matcher)
      && (o.Done? ==> calls == Matching(routes, k, pathname, matcher))
      && (o.Failed? ==>
            calls != [] && calls[|calls| - 1].route < |routes|
            && Raise(o.err) in routes[calls[|calls| - 1].route].handler(calls[|calls| - 1].params))
  {
    RouteRunPrefix(routes, k, pathname, matcher, f);
    RouteRunBlame(routes, k, pathname, matcher, f);
  }

  lemma {:induction false} RouteRunPrefix(routes: seq<Route>, k: nat, pathname: string, matcher: Matcher, f: Fields)
    requires k <= |routes|
    ensures var r := RouteRun(routes, k, pathname, matcher, f);
      r.1 <= Matching(routes, k, pathname, matcher) && (r.0.Done? ==> r.1 == Matching(routes, k, pathname, matcher))
    decreases |routes| - k
  {
    if k < |routes| {
      match matcher(routes[k].pattern, pathname)
      case None =>
        RouteRunPrefix(routes, k + 1, pathname, matcher, f);
      case Some(p) =>
        var (o, f1) := Apply(routes[k].handler(p), f);
        if o.Done? {
          RouteRunPrefix(routes, k + 1, pathname, matcher, f1);
        }
    }
  }

  lemma {:induction false} RouteRunBlame(routes: seq<Route>, k: nat, pathname: string, matcher: Matcher, f: Fields)
    requires k <= |routes|
    ensures var (o, calls, _) := RouteRun(routes, k, pathname, matcher, f);
      o.Failed? ==>
        calls != [] && calls[|calls| - 1].route < |routes|
        && Raise(o.err) in routes[calls[|calls| - 1].route].handler(calls[|calls| - 1].params)
    decreases |routes| - k
  {
    if k < |routes| {
      match matcher(routes[k].pattern, pathname)
      case None =>
        RouteRunBlame(routes, k + 1, pathname, matcher, f);
      case Some(p) =>
        var (o, f1) := Apply(routes[k].handler(p), f);
        ApplyFailure(routes[k].handler(p), f);
        if o.Done? {
          RouteRunBlame(routes, k + 1, pathname, matcher, f1);
          var (o2, c2, f2) := RouteRun(routes, k + 1, pathname, matcher, f1);
          if o2.Failed? {
            assert ([Call(k, p)] + c2)[|c2|] == c2[|c2| - 1];
          }
        }
    }
  }

  /** When the raw request does not start with the URL prefix, no handler runs and the response is
      left as it was. */
  lemma GateClosed(routes: seq<Route>, urlPrefix: string, request: GemRequest, matcher: Matcher, f: Fields)
    requires !StartsWith(request.raw, urlPrefix)
    ensures RoutesResult(routes, urlPrefix, request, matcher, f) == (Done, [], f)
  {
  }

  /** When no handler throws, every matching route is invoked once, in registration order. */
  lemma AllMatchesInvoked(routes: seq<Route>, urlPrefix: string, request: GemRequest, matcher: Matcher, f: Fields)
    requires StartsWith(request.raw, urlPrefix)
    requires forall k, p, j :: 0 <= k < |routes| && 0 <= j < |routes[k].handler(p)| ==> routes[k].handler(p)[j].Set?
    ensures RoutesResult(routes, urlPrefix, request, matcher, f).0 == Done
    ensures RoutesResult(routes, urlPrefix, request, matcher, f).1 == Matching(routes, 0, request.url.pathname, matcher)
  {
    RouteRunCalls(routes, 0, request.url.pathname, matcher, f);
  }

  // ---------------------------------------------------------------- the router object

  class GemRouter {
    const urlPrefix: string
    const prefix: string
    var registeredRoutes: seq<Route>

    /** `new GemRouter(options)`: the prefix is `options.prefix || ''`. */
    constructor (options: RouterOptions)
      ensures urlPrefix == options.urlPrefix
      ensures prefix == (if options.prefix.Some? then options.prefix.value else "")
      ensures registeredRoutes == []
    {
      urlPrefix := options.urlPrefix;
      prefix := if options.prefix.Some? && options.prefix.value != "" then options.prefix.value else "";
      registeredRoutes := [];
    }

    /** `on(route, handler)`: the route, under the router's prefix, goes after all earlier ones. */
    method On(route: string, handler: RouteHandler)
      modifies this
      ensures registeredRoutes == old(registeredRoutes) + [Route(prefix + route, handler)]
    {
      registeredRoutes := registeredRoutes + [Route(prefix + route, handler)];
    }

    /** The middleware `routes()` returns, applied to a context. */
    method Routes(ctx: GemContext, matcher: Matcher) returns (o: Outcome, calls: seq<Call>)
      modifies ctx.response
      ensures (o, calls, ctx.response.Snapshot())
           == RoutesResult(registeredRoutes, urlPrefix, ctx.request, matcher, old(ctx.response.Snapshot()))
    {
      o, calls := Done, [];
      var raw := ctx.request.raw;
      if !StartsWith(raw, urlPrefix) {
        return;
      }
      var routes := registeredRoutes;
      var pathname := ctx.request.url.pathname;
      var k := 0;
      ghost var r0 := RouteRun(routes, 0, pathname, matcher, ctx.response.Snapshot());
      assert [] + r0.1 == r0.1;
      while k < |routes|
        invariant k <= |routes| && routes == registeredRoutes
        invariant RouteRun(routes, 0, pathname, matcher, old(ctx.response.Snapshot()))
               == After(calls, RouteRun(routes, k, pathname, matcher, ctx.response.Snapshot()))
      {
        RouteRunStep(routes, k, pathname, matcher, calls, ctx.response.Snapshot());
        var amatch := matcher(routes[k].pattern, pathname);
        if amatch.Some? {
          var params := amatch.value;
          var routerContext := NewRouterContext(ctx, params);
          calls := calls + [Call(k, params)];
          var r := RunHandler(routes[k].handler(params), routerContext.response);
          if r.Failed? {
            return r, calls;
          }
        }
        k := k + 1;
      }
      assert calls + [] == calls;
    }
  }

  /** A run's result with `calls` made before it. */
  function After(calls: seq<Call>, r: (Outcome, seq<Call>, Fields)): (Outcome, seq<Call>, Fields) {
    (r.0, calls + r.1, r.2)
  }

  /** One turn of the router loop at route `k`, over response fields `f`. */
  lemma RouteRunStep(routes: seq<Route>, k: nat, pathname: string, matcher: Matcher, calls: seq<Call>, f: Fields)
    requires k < |routes|
    ensures matcher(routes[k].pattern, pathname).None? ==>
      After(calls, RouteRun(routes, k, pathname, matcher, f)) == After(calls, RouteRun(routes, k + 1, pathname, matcher, f))
    ensures matcher(routes[k].pattern, pathname).Some? ==>
      var p := matcher(routes[k].pattern, pathname).value;
      var (o, f1) := Apply(routes[k].handler(p), f);
      After(calls, RouteRun(routes, k, pathname, matcher, f))
        == if o.Failed? then (o, calls + [Call(k, p)], f1)
           else After(calls + [Call(k, p)], RouteRun(routes, k + 1, pathname, matcher, f1))
  {
    if matcher(routes[k].pattern, pathname).Some? {
      var p := matcher(routes[k].pattern, pathname).value;
      var (o, f1) := Apply(routes[k].handler(p), f);
      if o.Done? {
        var rest := RouteRun(routes, k + 1, pathname, matcher, f1);
        assert calls + ([Call(k, p)] + rest.1) == calls + [Call(k, p)] + rest.1;
      }
    }
  }

  /** `func(routerContext)`: the handler's actions on the shared response, up to the first throw. */
  method RunHandler(actions: seq<Action>, response: GemResponse) returns (o: Outcome)
    modifies response
    ensures (o, response.Snapshot()) == Apply(actions, old(response.Snapshot()))
  {
    var j := 0;
    while j < |actions|
      invariant j <= |actions|
      invariant Apply(actions[j..], response.Snapshot()) == Apply(actions, old(response.Snapshot()))
    {
      assert actions[j..][1..] == actions[j + 1..];
      match actions[j] {
        case Set(a) =>
          Context.Assign(response, a);
        case Raise(e) =>
          return Failed(e);
      }
      j := j + 1;
    }
    return Done;
  }

  // ---------------------------------------------------------------- the router in a chain

  function StepFor(a: Action): Step {
    match a
    case Set(x) => Assign(x)
    case Raise(e) => Throw(e)
  }

  function ActionSteps(actions: seq<Action>): (s: Script)
    ensures |s| == |actions| && forall k :: 0 <= k < |s| ==> s[k] == StepFor(actions[k])
  {
    seq(|actions|, k requires 0 <= k < |actions| => StepFor(actions[k]))
  }

  /** The router middleware as the script of a chain handler, for one request: the steps of every
      matching route's handler, one after the other. It holds no `Next`. */
  function RouterSteps(routes: seq<Route>, k: nat, pathname: string, matcher: Matcher): (s: Script)
    requires k <= |routes|
    ensures Next !in s
    decreases |routes| - k
  {
    if k == |routes| then []
    else match matcher(routes[k].pattern, pathname)
      case None => RouterSteps(routes, k + 1, pathname, matcher)
      case Some(p) =>
        var a := ActionSteps(routes[k].handler(p));
        var rest := RouterSteps(routes, k + 1, pathname, matcher);
        assert Next !in a;
        assert forall x :: x in a + rest ==> x in a || x in rest;
        a + rest
  }

  function RouterScript(routes: seq<Route>, urlPrefix: string, request: GemRequest, matcher: Matcher): (s: Script)
    ensures Next !in s
  {
    if StartsWith(request.raw, urlPrefix) then RouterSteps(routes, 0, request.url.pathname, matcher) else []
  }

  /** A handler's steps from `pc` on behave as the script starting there. */
  lemma {:induction false} HandlerShift(mw: seq<Script>, tail: Option<Script>, i: nat, a: Script, b: Script, j: nat, st: State)
    requires i <= |mw| && j <= |b|
    ensures HandlerResult(mw, tail, i, a + b, |a| + j, st) == HandlerResult(mw, tail, i, b, j, st)
    decreases |b| - j
  {
    if j < |b| {
      assert (a + b)[|a| + j] == b[j];
      match b[j]
      case Push(n) =>
        HandlerShift(mw, tail, i, a, b, j + 1, st.(trace := st.trace + [n]));
      case Assign(x) =>
        HandlerShift(mw, tail, i, a, b, j + 1, st.(response := Assigned(st.response, x)));
      case Throw(e) =>
      case Next =>
        var st1 := DispatchResult(mw, tail, i + 1, st).1;
        HandlerShift(mw, tail, i, a, b, j + 1, st1);
    }
  }

  /** Running two scripts one after the other: the second starts where the first ended, unless the
      first failed. */
  lemma {:induction false} HandlerConcat(mw: seq<Script>, tail: Option<Script>, i: nat, a: Script, b: Script, st: State)
    requires i <= |mw|
    ensures HandlerResult(mw, tail, i, a + b, 0, st)
         == var (o, st1) := HandlerResult(mw, tail, i, a, 0, st);
            if o.Failed? then (o, st1) else HandlerResult(mw, tail, i, b, 0, st1)
    decreases |a|
  {
    if a == [] {
      assert a + b == b;
    } else {
      var st' := match a[0]
        case Push(n) => st.(trace := st.trace + [n])
        case Assign(x) => st.(response := Assigned(st.response, x))
        case _ => DispatchResult(mw, tail, i + 1, st).1;
      assert (a + b)[0] == a[0];
      if a[0].Throw? || (a[0].Next? && DispatchResult(mw, tail, i + 1, st).0.Failed?) {
      } else {
        assert HandlerResult(mw, tail, i, a + b, 0, st) == HandlerResult(mw, tail, i, a + b, 1, st');
        assert HandlerResult(mw, tail, i, a, 0, st) == HandlerResult(mw, tail, i, a, 1, st');
        HandlerShift(mw, tail, i, [a[0]], a[1..] + b, 0, st');
        assert [a[0]] + (a[1..] + b) == a + b;
        HandlerShift(mw, tail, i, [a[0]], a[1..], 0, st');
        assert [a[0]] + a[1..] == a;
        HandlerConcat(mw, tail, i, a[1..], b, st');
      }
    }
  }

  /** A handler's actions, run as steps of the chain, do to the run state what `Apply` does to the
      response fields. */
  lemma {:induction false} ActionsAsSteps(mw: seq<Script>, tail: Option<Script>, i: nat, actions: seq<Action>, st: State)
    requires i <= |mw|
    ensures var (o, f) := Apply(actions, st.response);
      HandlerResult(mw, tail, i, ActionSteps(actions), 0, st) == (o, st.(response := f))
    decreases |actions|
  {
    if actions != [] {
      var s := ActionSteps(actions);
      assert s == [s[0]] + ActionSteps(actions[1..]);
      match actions[0]
      case Set(x) =>
        var st' := st.(response := Assigned(st.response, x));
        assert HandlerResult(mw, tail, i, s, 0, st) == HandlerResult(mw, tail, i, s, 1, st');
        HandlerShift(mw, tail, i, [s[0]], ActionSteps(actions[1..]), 0, st');
        ActionsAsSteps(mw, tail, i, actions[1..], st');
      case Raise(e) =>
    }
  }

  lemma {:induction false} RouterStepsRun(mw: seq<Script>, tail: Option<Script>, i: nat, routes: seq<Route>, k: nat, pathname: string, matcher: Matcher, st: State)
    requires i <= |mw| && k <= |routes|
    ensures var (o, _, f) := RouteRun(routes, k, pathname, matcher, st.response);
      HandlerResult(mw, tail, i, RouterSteps(routes, k, pathname, matcher), 0, st) == (o, st.(response := f))
    decreases |routes| - k
  {
    if k < |routes| {
      match matcher(routes[k].pattern, pathname)
      case None =>
        RouterStepsRun(mw, tail, i, routes, k + 1, pathname, matcher, st);
      case Some(p) =>
        var actions := routes[k].handler(p);
        HandlerConcat(mw, tail, i, ActionSteps(actions), RouterSteps(routes, k + 1, pathname, matcher), st);
        ActionsAsSteps(mw, tail, i, actions, st);
        var f1 := Apply(actions, st.response).1;
        RouterStepsRun(mw, tail, i, routes, k + 1, pathname, matcher, st.(response := f1));
        assert st.(response := f1).(response := RouteRun(routes, k + 1, pathname, matcher, f1).2)
            == st.(response := RouteRun(routes, k + 1, pathname, matcher, f1).2);
    }
  }

  /** Registered as handler `i` of a chain, the router middleware has the effect of `Routes` on the
      response and settles the same way. */
  lemma RouterAsHandler(mw: seq<Script>, tail: Option<Script>, i: nat, routes: seq<Route>, urlPrefix: string, request: GemRequest, matcher: Matcher, st: State)
    requires i <= |mw|
    ensures var (o, _, f) := RoutesResult(routes, urlPrefix, request, matcher, st.response);
      HandlerResult(mw, tail, i, RouterScript(routes, urlPrefix, request, matcher), 0, st) == (o, st.(response := f))
  {
    if StartsWith(request.raw, urlPrefix) {
      RouterStepsRun(mw, tail, i, routes, 0, request.url.pathname, matcher, st);
    } else {
      assert st.(response := st.response) == st;
    }
  }

  /** `routes()` as `use` receives it: for each request, the router's script for that request. */
  function RouterHandler(routes: seq<Route>, urlPrefix: string, matcher: Matcher): (h: Handler)
    ensures forall request :: Next !in h(request)
    ensures forall request: GemRequest :: !StartsWith(request.raw, urlPrefix) ==> h(request) == []
  {
    request => RouterScript(routes, urlPrefix, request, matcher)
  }

  /** Registered first on a chain, the router decides the run: it settles as `Routes` does for the
      request, leaving the response as `Routes` leaves it. */
  lemma RouterFirst(mw: seq<Handler>, tail: Option<Script>, routes: seq<Route>, urlPrefix: string, matcher: Matcher, request: GemRequest, response: Fields)
    requires |mw| > 0 && mw[0] == RouterHandler(routes, urlPrefix, matcher)
    ensures var (o, _, f) := RoutesResult(routes, urlPrefix, request, matcher, response);
      var (o', st) := DispatchResult(ScriptsFor(mw, request), tail, 0, Initial(response));
      o' == o && st.response == f
  {
    var scripts := ScriptsFor(mw, request);
    var st0 := Initial(response).(index := 0, entered := Initial(response).entered + [0]);
    assert DispatchResult(scripts, tail, 0, Initial(response)) == HandlerResult(scripts, tail, 0, scripts[0], 0, st0);
    RouterAsHandler(scripts, tail, 0, routes, urlPrefix, request, matcher, st0);
  }

  /** The router never calls `next`: in a chain, no handler registered after it runs. */
  lemma RouterEndsChain(mw: seq<Handler>, tail: Option<Script>, k: nat, routes: seq<Route>, urlPrefix: string, matcher: Matcher, request: GemRequest, response: Fields)
    requires k < |mw| && mw[k] == RouterHandler(routes, urlPrefix, matcher)
    ensures forall e :: e in DispatchResult(ScriptsFor(mw, request), tail, 0, Initial(response)).1.entered ==> e <= k
  {
    NoNextStopsChain(ScriptsFor(mw, request), tail, k, response);
  }
}
