/** context.ts: the per-request pair of request and (shared, mutable) response, and the field
    assignments handlers make on that response. */
module Context {
  import opened Request
  import opened Response

  /** `GemContext` */
  datatype GemContext = GemContext(request: GemRequest, response: GemResponse)

  /** One assignment a handler makes to `ctx.response`. */
  datatype Assignment = SetStatus(status: int) | SetMeta(meta: string) | SetBody(body: Body)

  /** The fields after the assignment: the named field is replaced, the other two are untouched. */
  function Assigned(f: Fields, a: Assignment): (g: Fields) {
    match a
    case SetStatus(s) => f.(status := s)
    case SetMeta(m) => f.(meta := m)
    case SetBody(b) => f.(body := b)
  }

  /** Performs the assignment on the response object. */
  method Assign(r: GemResponse, a: Assignment)
    modifies r
    ensures r.Snapshot() == Assigned(old(r.Snapshot()), a)
  {
    match a
    case SetStatus(s) => r.status := s;
    case SetMeta(m) => r.meta := m;
    case SetBody(b) => r.body := b;
  }
}
