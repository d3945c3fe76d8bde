/** middleware.ts: `compose` turns the ordered handler list into one function. Each call of that
    function owns a mutable `index`, initially -1; `dispatch(i)` refuses any `i <= index`, records `i`,
    and invokes handler `i` (or, at `i == length`, the optional tail `next`) with `dispatch(i + 1)` as
    its continuation.

    A handler is modelled as a function from the request it reads to a script of statements run in
    order; `Next` is `await next()`, so a handler resumes only after the rest of the chain has
    settled. */
module Middleware {
  import opened Basics
  import opened Errors
  import opened Response
  import opened Request
  import opened Context

  datatype Step =
    | Push(n: int)            // `callStack.push(n)`: an observation the handler records
    | Assign(a: Assignment)   // `ctx.response.<field> = value`
    | Throw(err: Thrown)      // `throw err`
    | Next                    // `await next()`

  type Script = seq<Step>

  /** A handler as `use` receives it: which statements it runs may depend on `ctx.request`. */
  type Handler = GemRequest -> Script

  /** The scripts the handlers run for one request. */
  function ScriptsFor(mw: seq<Handler>, request: GemRequest): (s: seq<Script>)
    ensures |s| == |mw| && forall i :: 0 <= i < |mw| ==> s[i] == mw[i](request)
  {
    seq(|mw|, i requires 0 <= i < |mw| => mw[i](request))
  }

  /** How a dispatch settles: resolved, or rejected with the thrown value. */
  datatype Outcome = Done | Failed(err: Thrown)

  const MultipleNext: Thrown := JsError("Error", "next() called multiple times.")

  /** Everything a run changes: the captured `index`, the positions whose handler was invoked (in
      order), the values handlers pushed, and the response fields. */
  datatype State = State(index: int, entered: seq<int>, trace: seq<int>, response: Fields)

  /** The state at the start of a run: `let index = -1`. */
  function Initial(response: Fields): State {
    State(-1, [], [], response)
  }

  /** `dispatch(i)` */
  function DispatchResult(mw: seq<Script>, tail: Option<Script>, i: nat, st: State): (Outcome, State)
    requires i <= |mw| + 1
    decreases |mw| + 1 - i, 1, 0
  {
    if i <= st.index then (Failed(MultipleNext), st)
    else if i < |mw| then
      HandlerResult(mw, tail, i, mw[i], 0, st.(index := i, entered := st.entered + [i]))
    else if i == |mw| && tail.Some? then
      HandlerResult(mw, tail, i, tail.value, 0, st.(index := i, entered := st.entered + [i]))
    else (Done, st.(index := i))
  }

  /** Handler `i` (its script `script`), from statement `pc` on. */
  function HandlerResult(mw: seq<Script>, tail: Option<Script>, i: nat, script: Script, pc: nat, st: State): (Outcome, State)
    requires i <= |mw| && pc <= |script|
    decreases |mw| + 1 - i, 0, |script| - pc
  {
    if pc == |script| then (Done, st)
    else match script[pc]
      case Push(n) => HandlerResult(mw, tail, i, script, pc + 1, st.(trace := st.trace + [n]))
      case Assign(a) => HandlerResult(mw, tail, i, script, pc + 1, st.(response := Assigned(st.response, a)))
      case Throw(e) => (Failed(e), st)
      case Next =>
        var (o, st1) := DispatchResult(mw, tail, i + 1, st);
        if o.Failed? then (o, st1) else HandlerResult(mw, tail, i, script, pc + 1, st1)
  }

  /** The state of one call of `composedMiddleware`: the handlers and tail it closes over, the
      context's response, and the mutable `index`. `entered` and `trace` record what happened. */
  class Run {
    const middleware: seq<Script>
    const tail: Option<Script>
    const response: GemResponse
    var index: int
    var entered: seq<int>
    var trace: seq<int>

    constructor (middleware: seq<Script>, tail: Option<Script>, response: GemResponse)
      ensures this.middleware == middleware && this.tail == tail && this.response == response
      ensures Snapshot() == Initial(response.Snapshot())
    {
      this.middleware := middleware;
      this.tail := tail;
      this.response := response;
      index := -1;
      entered := [];
      trace := [];
    }

    function Snapshot(): State
      reads this, response
    {
      State(index, entered, trace, response.Snapshot())
    }

    /** `dispatch(i)` */
    method Dispatch(i: nat) returns (o: Outcome)
      requires i <= |middleware| + 1
      modifies this, response
      ensures (o, Snapshot()) == DispatchResult(middleware, tail, i, old(Snapshot()))
      decreases |middleware| + 1 - i, 1, 0
    {
      if i <= index {
        return Failed(MultipleNext);
      }
      index := i;
      var fn: Option<Script> := if i < |middleware| then Some(middleware[i]) else None;
      if i == |middleware| {
        fn := tail;
      }
      if fn.None? {
        return Done;
      }
      entered := entered + [i];
      o := Invoke(i, fn.value);
    }

    /** `fn(context, dispatch.bind(null, i + 1))`: runs the handler's statements in order. */
    method Invoke(i: nat, script: Script) returns (o: Outcome)
      requires i <= |middleware|
      modifies this, response
      ensures (o, Snapshot()) == HandlerResult(middleware, tail, i, script, 0, old(Snapshot()))
      decreases |middleware| + 1 - i, 0, |script|
    {
      var pc := 0;
      while pc < |script|
        invariant pc <= |script|
        invariant HandlerResult(middleware, tail, i, script, pc, Snapshot())
               == HandlerResult(middleware, tail, i, script, 0, old(Snapshot()))
        decreases |script| - pc
      {
        match script[pc] {
          case Push(n) =>
            trace := trace + [n];
          case Assign(a) =>
            Context.Assign(response, a);
          case Throw(e) =>
            return Failed(e);
          case Next =>
            var r := Dispatch(i + 1);
            if r.Failed? {
              return r;
            }
        }
        pc := pc + 1;
      }
      return Done;
    }
  }

  /** `compose(middleware)(context, next)`: a fresh `index` per call; each handler (and the tail
      `next`) runs the statements it takes for `context.request`. Returns how the run settled and
      the values handlers pushed. */
  method ComposedMiddleware(middleware: seq<Handler>, context: GemContext, next: Option<Handler>) returns (o: Outcome, trace: seq<int>)
    modifies context.response
    ensures var tail := if next.Some? then Some(next.value(context.request)) else None;
      var (o', st) := DispatchResult(ScriptsFor(middleware, context.request), tail, 0, Initial(old(context.response.Snapshot())));
      o == o' && trace == st.trace && context.response.Snapshot() == st.response
  {
    var scripts := ScriptsFor(middleware, context.request);
    var tail: Option<Script> := if next.Some? then Some(next.value(context.request)) else None;
    var run := new Run(scripts, tail, context.response);
    o := run.Dispatch(0);
    trace := run.trace;
  }

  // ---------------------------------------------------------------- properties of a run

  predicate Increasing(s: seq<int>) {
    forall a, b :: 0 <= a < b < |s| ==> s[a] < s[b]
  }

  /** What a dispatch may do to the run state: `index` never goes down, and the positions it enters
      are appended in strictly increasing order, each above the old `index` and at most the new one. */
  predicate Advances(st: State, st1: State) {
    && st.index <= st1.index
    && |st.entered| <= |st1.entered| && st1.entered[..|st.entered|] == st.entered
    && Increasing(st1.entered[|st.entered|..])
    && (forall e :: e in st1.entered[|st.entered|..] ==> st.index < e <= st1.index)
  }

  lemma AdvancesTrans(a: State, b: State, c: State)
    requires Advances(a, b) && Advances(b, c)
    ensures Advances(a, c)
  {
    var nb, nc := b.entered[|a.entered|..], c.entered[|b.entered|..];
    assert c.entered[..|b.entered|] == b.entered;
    assert c.entered[..|a.entered|] == b.entered[..|a.entered|];
    assert c.entered[|a.entered|..] == nb + nc;
    IncreasingConcat(nb, nc, b.index);
  }

  /** Two increasing runs, the first at most `m` and the second above it, make one increasing run. */
  lemma IncreasingConcat(nb: seq<int>, nc: seq<int>, m: int)
    requires Increasing(nb) && Increasing(nc)
    requires forall e :: e in nb ==> e <= m
    requires forall e :: e in nc ==> m < e
    ensures Increasing(nb + nc)
  {
    forall x, y | 0 <= x < y < |nb + nc|
      ensures (nb + nc)[x] < (nb + nc)[y]
    {
      if y < |nb| {
      } else if x >= |nb| {
        assert (nb + nc)[x] == nc[x - |nb|] && (nb + nc)[y] == nc[y - |nb|];
      } else {
        assert nb[x] in nb && nc[y - |nb|] in nc;
      }
    }
  }

  /** Every dispatch advances the run state; a dispatch that gets past the index check leaves
      `index` at least at its own position. Hence, from `index = -1`, each handler position is entered
      at most once per run, in increasing order. */
  lemma {:induction false} DispatchAdvances(mw: seq<Script>, tail: Option<Script>, i: nat, st: State)
    requires i <= |mw| + 1
    ensures Advances(st, DispatchResult(mw, tail, i, st).1)
    ensures i > st.index ==> DispatchResult(mw, tail, i, st).1.index >= i
    decreases |mw| + 1 - i, 1, 0
  {
    if i > st.index {
      var st1 := st.(index := i, entered := st.entered + [i]);
      assert st1.entered[|st.entered|..] == [i];
      if i < |mw| {
        HandlerAdvances(mw, tail, i, mw[i], 0, st1);
        AdvancesTrans(st, st1, DispatchResult(mw, tail, i, st).1);
      } else if i == |mw| && tail.Some? {
        HandlerAdvances(mw, tail, i, tail.value, 0, st1);
        AdvancesTrans(st, st1, DispatchResult(mw, tail, i, st).1);
      }
    }
  }

  lemma {:induction false} HandlerAdvances(mw: seq<Script>, tail: Option<Script>, i: nat, script: Script, pc: nat, st: State)
    requires i <= |mw| && pc <= |script|
    ensures Advances(st, HandlerResult(mw, tail, i, script, pc, st).1)
    decreases |mw| + 1 - i, 0, |script| - pc
  {
    if pc < |script| {
      match script[pc]
      case Push(n) =>
        HandlerAdvances(mw, tail, i, script, pc + 1, st.(trace := st.trace + [n]));
      case Assign(a) =>
        HandlerAdvances(mw, tail, i, script, pc + 1, st.(response := Assigned(st.response, a)));
      case Throw(e) =>
      case Next =>
        var (o, st1) := DispatchResult(mw, tail, i + 1, st);
        DispatchAdvances(mw, tail, i + 1, st);
        if o.Done? {
          HandlerAdvances(mw, tail, i, script, pc + 1, st1);
          AdvancesTrans(st, st1, HandlerResult(mw, tail, i, script, pc + 1, st1).1);
        }
    }
  }

  /** Over a whole run, no handler position (nor the tail) is entered twice. */
  lemma EachPositionOnce(mw: seq<Script>, tail: Option<Script>, response: Fields)
    ensures Increasing(DispatchResult(mw, tail, 0, Initial(response)).1.entered)
  {
    DispatchAdvances(mw, tail, 0, Initial(response));
  }

  /** `next()` called a second time by the same handler, after the first call resolved and with
      only observations and assignments in between, rejects with "next() called multiple times.";
      the index and the positions entered stay as the first call left them, and with nothing in
      between the whole state does. */
  lemma NextTwiceFails(mw: seq<Script>, tail: Option<Script>, i: nat, script: Script, pc: nat, q: nat, st: State)
    requires i <= |mw| && pc < q < |script| && script[pc] == Next && script[q] == Next
    requires forall j :: pc < j < q ==> script[j].Push? || script[j].Assign?
    requires DispatchResult(mw, tail, i + 1, st).0 == Done
    ensures var st1 := DispatchResult(mw, tail, i + 1, st).1;
      var (o, st2) := HandlerResult(mw, tail, i, script, pc, st);
      o == Failed(MultipleNext) && st2.index == st1.index && st2.entered == st1.entered
      && (q == pc + 1 ==> st2 == st1)
  {
    var st1 := DispatchResult(mw, tail, i + 1, st).1;
    DispatchAdvances(mw, tail, i + 1, st);
    assert HandlerResult(mw, tail, i, script, pc, st) == HandlerResult(mw, tail, i, script, pc + 1, st1);
    SecondNextFails(mw, tail, i, script, pc + 1, q, st1);
  }

  /** From `j` on, observations and assignments up to a `Next` at `q`, with the index already past
      `i`: that `Next` rejects, and only the trace and the response have moved. */
  lemma {:induction false} SecondNextFails(mw: seq<Script>, tail: Option<Script>, i: nat, script: Script, j: nat, q: nat, st: State)
    requires i <= |mw| && j <= q < |script| && script[q] == Next
    requires forall k :: j <= k < q ==> script[k].Push? || script[k].Assign?
    requires st.index >= i + 1
    ensures var (o, st2) := HandlerResult(mw, tail, i, script, j, st);
      o == Failed(MultipleNext) && st2.index == st.index && st2.entered == st.entered
      && (j == q ==> st2 == st)
    decreases q - j
  {
    if j == q {
      assert DispatchResult(mw, tail, i + 1, st) == (Failed(MultipleNext), st);
    } else {
      match script[j]
      case Push(n) =>
        SecondNextFails(mw, tail, i, script, j + 1, q, st.(trace := st.trace + [n]));
      case Assign(a) =>
        SecondNextFails(mw, tail, i, script, j + 1, q, st.(response := Assigned(st.response, a)));
    }
  }

  // ---------------------------------------------------------------- throws propagate

  /** A handler that reaches a `throw` after only observations and assignments rejects with it. */
  lemma {:induction false} ThrowRejects(mw: seq<Script>, tail: Option<Script>, i: nat, script: Script, pc: nat, q: nat, st: State)
    requires i <= |mw| && pc <= q < |script| && script[q].Throw?
    requires forall j :: pc <= j < q ==> script[j].Push? || script[j].Assign?
    ensures HandlerResult(mw, tail, i, script, pc, st).0 == Failed(script[q].err)
    decreases q - pc
  {
    if pc < q {
      match script[pc]
      case Push(n) =>
        ThrowRejects(mw, tail, i, script, pc + 1, q, st.(trace := st.trace + [n]));
      case Assign(a) =>
        ThrowRejects(mw, tail, i, script, pc + 1, q, st.(response := Assigned(st.response, a)));
    }
  }

  /** A rejection of `await next()` rejects the handler that awaited it, with the same value and
      nothing more done. */
  lemma NextPropagates(mw: seq<Script>, tail: Option<Script>, i: nat, script: Script, pc: nat, st: State)
    requires i <= |mw| && pc < |script| && script[pc] == Next
    requires DispatchResult(mw, tail, i + 1, st).0.Failed?
    ensures HandlerResult(mw, tail, i, script, pc, st) == DispatchResult(mw, tail, i + 1, st)
  {
  }

  /** Once dispatch reaches handler `i` and that handler throws before any `next`, the dispatch
      rejects with the thrown value. */
  lemma ReachedThrowRejects(mw: seq<Script>, tail: Option<Script>, i: nat, q: nat, st: State)
    requires st.index < i < |mw| && q < |mw[i]| && mw[i][q].Throw?
    requires forall j :: 0 <= j < q ==> mw[i][j].Push? || mw[i][j].Assign?
    ensures DispatchResult(mw, tail, i, st).0 == Failed(mw[i][q].err)
  {
    ThrowRejects(mw, tail, i, mw[i], 0, q, st.(index := i, entered := st.entered + [i]));
  }

  // ---------------------------------------------------------------- handlers that leave the response alone

  predicate NoAssign(script: Script) {
    forall k :: 0 <= k < |script| ==> !script[k].Assign?
  }

  /** No handler of the chain, nor the tail, assigns a response field. */
  predicate LeavesResponse(mw: seq<Script>, tail: Option<Script>) {
    && (forall k :: 0 <= k < |mw| ==> NoAssign(mw[k]))
    && (tail.Some? ==> NoAssign(tail.value))
  }

  /** A chain whose handlers assign nothing leaves the response as it was, however the run ends. */
  lemma {:induction false} DispatchKeepsResponse(mw: seq<Script>, tail: Option<Script>, i: nat, st: State)
    requires i <= |mw| + 1 && LeavesResponse(mw, tail)
    ensures DispatchResult(mw, tail, i, st).1.response == st.response
    decreases |mw| + 1 - i, 1, 0
  {
    if i > st.index {
      var st1 := st.(index := i, entered := st.entered + [i]);
      if i < |mw| {
        HandlerKeepsResponse(mw, tail, i, mw[i], 0, st1);
      } else if i == |mw| && tail.Some? {
        HandlerKeepsResponse(mw, tail, i, tail.value, 0, st1);
      }
    }
  }

  lemma {:induction false} HandlerKeepsResponse(mw: seq<Script>, tail: Option<Script>, i: nat, script: Script, pc: nat, st: State)
    requires i <= |mw| && pc <= |script| && LeavesResponse(mw, tail) && NoAssign(script)
    ensures HandlerResult(mw, tail, i, script, pc, st).1.response == st.response
    decreases |mw| + 1 - i, 0, |script| - pc
  {
    if pc < |script| {
      match script[pc]
      case Push(n) =>
        HandlerKeepsResponse(mw, tail, i, script, pc + 1, st.(trace := st.trace + [n]));
      case Throw(e) =>
      case Next =>
        var (o, st1) := DispatchResult(mw, tail, i + 1, st);
        DispatchKeepsResponse(mw, tail, i + 1, st);
        if o.Done? {
          HandlerKeepsResponse(mw, tail, i, script, pc + 1, st1);
        }
    }
  }

  // ---------------------------------------------------------------- a handler that does not call next

  lemma {:induction false} DispatchStaysAtOrBelow(mw: seq<Script>, tail: Option<Script>, k: nat, i: nat, st: State)
    requires i <= k < |mw|
    requires Next !in mw[k]
    requires st.index <= k
    ensures DispatchResult(mw, tail, i, st).1.index <= k
    decreases |mw| + 1 - i, 1, 0
  {
    if i > st.index {
      assert mw[i][0..] == mw[i];
      HandlerStaysAtOrBelow(mw, tail, k, i, mw[i], 0, st.(index := i, entered := st.entered + [i]));
    }
  }

  lemma {:induction false} HandlerStaysAtOrBelow(mw: seq<Script>, tail: Option<Script>, k: nat, i: nat, script: Script, pc: nat, st: State)
    requires i <= k < |mw| && pc <= |script| && st.index <= k
    requires Next !in mw[k]
    requires i == k ==> Next !in script[pc..]
    ensures HandlerResult(mw, tail, i, script, pc, st).1.index <= k
    decreases |mw| + 1 - i, 0, |script| - pc
  {
    if pc < |script| {
      assert script[pc + 1..] == script[pc..][1..];
      match script[pc]
      case Push(n) =>
        HandlerStaysAtOrBelow(mw, tail, k, i, script, pc + 1, st.(trace := st.trace + [n]));
      case Assign(a) =>
        HandlerStaysAtOrBelow(mw, tail, k, i, script, pc + 1, st.(response := Assigned(st.response, a)));
      case Throw(e) =>
      case Next =>
        if i == k {
          assert false;
        }
        var (o, st1) := DispatchResult(mw, tail, i + 1, st);
        DispatchStaysAtOrBelow(mw, tail, k, i + 1, st);
        if o.Done? {
          HandlerStaysAtOrBelow(mw, tail, k, i, script, pc + 1, st1);
        }
    }
  }

  /** A handler that never calls `next` ends the chain: no handler after it, and not the tail,
      is entered during the run. */
  lemma NoNextStopsChain(mw: seq<Script>, tail: Option<Script>, k: nat, response: Fields)
    requires k < |mw| && Next !in mw[k]
    ensures forall e :: e in DispatchResult(mw, tail, 0, Initial(response)).1.entered ==> e <= k
  {
    DispatchAdvances(mw, tail, 0, Initial(response));
    DispatchStaysAtOrBelow(mw, tail, k, 0, Initial(response));
  }

  // ---------------------------------------------------------------- onion order

  /** Handlers of the shape `push(before); await next(); push(after)`. */
  function Wrapped(pairs: seq<(int, int)>): (mw: seq<Script>)
    ensures |mw| == |pairs|
  {
    seq(|pairs|, k requires 0 <= k < |pairs| => [Push(pairs[k].0), Next, Push(pairs[k].1)])
  }

  function Befores(pairs: seq<(int, int)>): seq<int> {
    if pairs == [] then [] else [pairs[0].0] + Befores(pairs[1..])
  }

  function AftersReversed(pairs: seq<(int, int)>): seq<int> {
    if pairs == [] then [] else AftersReversed(pairs[1..]) + [pairs[0].1]
  }

  predicate OnlyPushes(s: Script) {
    forall k :: 0 <= k < |s| ==> s[k].Push?
  }

  function Pushed(s: Script): seq<int>
    requires OnlyPushes(s)
  {
    if s == [] then [] else [s[0].n] + Pushed(s[1..])
  }

  lemma {:induction false} PushesOnly(mw: seq<Script>, tail: Option<Script>, i: nat, script: Script, pc: nat, st: State)
    requires i <= |mw| && pc <= |script| && OnlyPushes(script)
    ensures HandlerResult(mw, tail, i, script, pc, st) == (Done, st.(trace := st.trace + Pushed(script[pc..])))
    decreases |script| - pc
  {
    if pc < |script| {
      var n := script[pc].n;
      assert script[pc] == Push(n);
      var st1 := st.(trace := st.trace + [n]);
      assert HandlerResult(mw, tail, i, script, pc, st) == HandlerResult(mw, tail, i, script, pc + 1, st1);
      PushesOnly(mw, tail, i, script, pc + 1, st1);
      assert script[pc..][1..] == script[pc + 1..];
      assert Pushed(script[pc..]) == [n] + Pushed(script[pc + 1..]);
      assert st1.trace + Pushed(script[pc + 1..]) == st.trace + Pushed(script[pc..]);
    } else {
      assert st.trace + Pushed(script[pc..]) == st.trace;
    }
  }

  /** One layer of the onion: handler `i` pushes its first value, dispatches the rest, then pushes
      its second value. */
  lemma WrappedLayer(pairs: seq<(int, int)>, tail: Option<Script>, i: nat, st: State)
    requires i < |pairs| && st.index < i
    ensures var st2 := st.(index := i, entered := st.entered + [i], trace := st.trace + [pairs[i].0]);
      var (o, st3) := DispatchResult(Wrapped(pairs), tail, i + 1, st2);
      DispatchResult(Wrapped(pairs), tail, i, st) == if o.Done? then (Done, st3.(trace := st3.trace + [pairs[i].1])) else (o, st3)
  {
    var mw := Wrapped(pairs);
    var (a, b) := pairs[i];
    var st1 := st.(index := i, entered := st.entered + [i]);
    var st2 := st1.(trace := st1.trace + [a]);
    assert mw[i] == [Push(a), Next, Push(b)];
    assert DispatchResult(mw, tail, i, st) == HandlerResult(mw, tail, i, mw[i], 0, st1);
    assert HandlerResult(mw, tail, i, mw[i], 0, st1) == HandlerResult(mw, tail, i, mw[i], 1, st2);
    var (o, st3) := DispatchResult(mw, tail, i + 1, st2);
    if o.Done? {
      assert HandlerResult(mw, tail, i, mw[i], 1, st2) == HandlerResult(mw, tail, i, mw[i], 2, st3);
      assert HandlerResult(mw, tail, i, mw[i], 2, st3) == HandlerResult(mw, tail, i, mw[i], 3, st3.(trace := st3.trace + [b]));
    }
  }

  /** Past the last handler, dispatch runs the tail (when there is one) to completion. */
  lemma TailOnly(mw: seq<Script>, tail: Option<Script>, st: State)
    requires st.index < |mw|
    requires tail.Some? ==> OnlyPushes(tail.value)
    ensures DispatchResult(mw, tail, |mw|, st).0 == Done
    ensures DispatchResult(mw, tail, |mw|, st).1.trace == st.trace + (if tail.Some? then Pushed(tail.value) else [])
  {
    if tail.Some? {
      var st1 := st.(index := |mw|, entered := st.entered + [|mw|]);
      PushesOnly(mw, tail, |mw|, tail.value, 0, st1);
      assert tail.value[0..] == tail.value;
    }
  }

  /** Peeling the first pair off a suffix of `pairs`. */
  lemma SuffixParts(pairs: seq<(int, int)>, i: nat)
    requires i < |pairs|
    ensures Befores(pairs[i..]) == [pairs[i].0] + Befores(pairs[i + 1..])
    ensures AftersReversed(pairs[i..]) == AftersReversed(pairs[i + 1..]) + [pairs[i].1]
  {
    assert pairs[i..][1..] == pairs[i + 1..];
  }

  /** One step of the onion: if the run from handler `i + 1` is in onion order, so is the run from `i`. */
  lemma OnionStep(pairs: seq<(int, int)>, tail: Option<Script>, i: nat, st: State)
    requires i < |pairs| && st.index < i
    requires tail.Some? ==> OnlyPushes(tail.value)
    requires var st2 := st.(index := i, entered := st.entered + [i], trace := st.trace + [pairs[i].0]);
      && DispatchResult(Wrapped(pairs), tail, i + 1, st2).0 == Done
      && DispatchResult(Wrapped(pairs), tail, i + 1, st2).1.trace
         == st2.trace + Befores(pairs[i + 1..]) + (if tail.Some? then Pushed(tail.value) else []) + AftersReversed(pairs[i + 1..])
    ensures DispatchResult(Wrapped(pairs), tail, i, st).0 == Done
    ensures DispatchResult(Wrapped(pairs), tail, i, st).1.trace
         == st.trace + Befores(pairs[i..]) + (if tail.Some? then Pushed(tail.value) else []) + AftersReversed(pairs[i..])
  {
    var st2 := st.(index := i, entered := st.entered + [i], trace := st.trace + [pairs[i].0]);
    var t := if tail.Some? then Pushed(tail.value) else [];
    var st3 := DispatchResult(Wrapped(pairs), tail, i + 1, st2).1;
    WrappedLayer(pairs, tail, i, st);
    assert DispatchResult(Wrapped(pairs), tail, i, st) == (Done, st3.(trace := st3.trace + [pairs[i].1]));
    SuffixParts(pairs, i);
    Reassociate(st.trace, pairs[i].0, Befores(pairs[i + 1..]), t, AftersReversed(pairs[i + 1..]), pairs[i].1);
  }

  lemma Reassociate(x: seq<int>, a: int, b: seq<int>, t: seq<int>, r: seq<int>, z: int)
    ensures x + [a] + b + t + r + [z] == x + ([a] + b) + t + (r + [z])
  {
  }

  /** The innermost layer of the onion: past the last handler only the tail runs, and no
      before-part or after-part is left. */
  lemma OnionCore(mw: seq<Script>, pairs: seq<(int, int)>, tail: Option<Script>, st: State)
    requires |mw| == |pairs| && st.index < |pairs|
    requires tail.Some? ==> OnlyPushes(tail.value)
    ensures DispatchResult(mw, tail, |pairs|, st).0 == Done
    ensures DispatchResult(mw, tail, |pairs|, st).1.trace
         == st.trace + Befores(pairs[|pairs|..]) + (if tail.Some? then Pushed(tail.value) else []) + AftersReversed(pairs[|pairs|..])
  {
    var t := if tail.Some? then Pushed(tail.value) else [];
    TailOnly(mw, tail, st);
    NothingLeft(pairs);
    Unit(st.trace, t);
  }

  lemma NothingLeft(pairs: seq<(int, int)>)
    ensures Befores(pairs[|pairs|..]) == [] && AftersReversed(pairs[|pairs|..]) == []
  {
    assert pairs[|pairs|..] == [];
  }

  lemma Unit(x: seq<int>, t: seq<int>)
    ensures x + [] + t + [] == x + t
  {
  }

  /** Onion order: with awaited continuations, the before-parts run in registration order, then the
      tail, then the after-parts in reverse order. */
  lemma {:induction false} OnionFrom(pairs: seq<(int, int)>, tail: Option<Script>, i: nat, st: State)
    requires i <= |pairs| && st.index < i
    requires tail.Some? ==> OnlyPushes(tail.value)
    ensures DispatchResult(Wrapped(pairs), tail, i, st).0 == Done
    ensures DispatchResult(Wrapped(pairs), tail, i, st).1.trace
         == st.trace + Befores(pairs[i..]) + (if tail.Some? then Pushed(tail.value) else []) + AftersReversed(pairs[i..])
    decreases |pairs| - i
  {
    if i == |pairs| {
      OnionCore(Wrapped(pairs), pairs, tail, st);
    } else {
      OnionFrom(pairs, tail, i + 1, st.(index := i, entered := st.entered + [i], trace := st.trace + [pairs[i].0]));
      OnionStep(pairs, tail, i, st);
    }
  }

  /** A whole run of wrapping handlers: all before-parts in registration order, the tail, then all
      after-parts in reverse registration order. */
  lemma Onion(pairs: seq<(int, int)>, tail: Option<Script>, r: Fields)
    requires tail.Some? ==> OnlyPushes(tail.value)
    ensures DispatchResult(Wrapped(pairs), tail, 0, Initial(r)).0 == Done
    ensures DispatchResult(Wrapped(pairs), tail, 0, Initial(r)).1.trace
         == Befores(pairs) + (if tail.Some? then Pushed(tail.value) else []) + AftersReversed(pairs)
  {
    OnionFrom(pairs, tail, 0, Initial(r));
    assert pairs[0..] == pairs;
  }

  // ---------------------------------------------------------------- failures

  /** `e` is thrown by some statement of a handler of the chain or of the tail. */
  predicate ThrownByChain(mw: seq<Script>, tail: Option<Script>, e: Thrown) {
    (exists k :: 0 <= k < |mw| && Throw(e) in mw[k]) || (tail.Some? && Throw(e) in tail.value)
  }

  /** The composer catches nothing and invents nothing: a run rejects only with a value some handler
      threw, unchanged, or with the "next() called multiple times." error. */
  lemma {:induction false} DispatchFailure(mw: seq<Script>, tail: Option<Script>, i: nat, st: State)
    requires i <= |mw| + 1
    ensures var o := DispatchResult(mw, tail, i, st).0;
      o.Failed? ==> o.err == MultipleNext || ThrownByChain(mw, tail, o.err)
    decreases |mw| + 1 - i, 1, 0
  {
    if i > st.index {
      var st1 := st.(index := i, entered := st.entered + [i]);
      if i < |mw| {
        HandlerFailure(mw, tail, i, mw[i], 0, st1);
      } else if i == |mw| && tail.Some? {
        HandlerFailure(mw, tail, i, tail.value, 0, st1);
      }
    }
  }

  lemma {:induction false} HandlerFailure(mw: seq<Script>, tail: Option<Script>, i: nat, script: Script, pc: nat, st: State)
    requires i <= |mw| && pc <= |script|
    requires (i < |mw| && script == mw[i]) || (i == |mw| && tail == Some(script))
    ensures var o := HandlerResult(mw, tail, i, script, pc, st).0;
      o.Failed? ==> o.err == MultipleNext || ThrownByChain(mw, tail, o.err)
    decreases |mw| + 1 - i, 0, |script| - pc
  {
    if pc < |script| {
      match script[pc]
      case Push(n) =>
        HandlerFailure(mw, tail, i, script, pc + 1, st.(trace := st.trace + [n]));
      case Assign(a) =>
        HandlerFailure(mw, tail, i, script, pc + 1, st.(response := Assigned(st.response, a)));
      case Throw(e) =>
        assert script[pc] in script;
      case Next =>
        var (o, st1) := DispatchResult(mw, tail, i + 1, st);
        DispatchFailure(mw, tail, i + 1, st);
        if o.Done? {
          HandlerFailure(mw, tail, i, script, pc + 1, st1);
        }
    }
  }

  /** The orders the repository's tests observe, and the empty chain. */
  lemma ExecutionOrderExamples(r: Fields)
    ensures DispatchResult([], None, 0, Initial(r)) == (Done, State(0, [], [], r))
    ensures DispatchResult([[Push(1)], [Push(2)]], None, 0, Initial(r)).1.trace == [1]
    ensures DispatchResult([[Push(1), Next], [Push(2)]], None, 0, Initial(r)).1.trace == [1, 2]
    ensures DispatchResult([[Push(1), Next, Push(2)], [Push(3), Push(4)]], None, 0, Initial(r)).1.trace == [1, 3, 4, 2]
    ensures DispatchResult([[Push(1), Next, Push(2)], [Push(3)]], None, 0, Initial(r)).1.trace == [1, 3, 2]
  {
  }
}
