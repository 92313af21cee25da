/**
 * The idempotency middleware of src/middleware/idempotency.ts over an in-memory log
 * from idempotency key to the response body first emitted for that key. The handler's
 * response object is modelled by `Reply`: the responses it has sent so far and whether
 * its json method is currently replaced by the recording wrapper.
 */
module Idempotency {
  import opened Wrappers

  type Key = string

  /** A sent response: a status code and a body. */
  datatype Response<B> = Response(status: int, body: B)

  /** The status a replayed response is sent with, whatever status the original had. */
  const ReplayStatus := 200

  /** `if (!key)`: an absent header and an empty one both leave the request unguarded. */
  predicate HasKey(key: Option<Key>) {
    key.Some? && key.value != ""
  }

  /** What the middleware does before the handler: skip, replay, or arm the recorder. */
  datatype Decision<B> = PassThrough | Replay(response: Response<B>) | Intercept(key: Key)

  function Decide<B>(log: map<Key, B>, key: Option<Key>): (d: Decision<B>)
    ensures d.PassThrough? <==> !HasKey(key)
    ensures d.Replay? <==> HasKey(key) && key.value in log
    ensures d.Replay? ==> d.response == Response(ReplayStatus, log[key.value])
    ensures d.Intercept? <==> HasKey(key) && key.value !in log
    ensures d.Intercept? ==> d.key == key.value
  {
    if !HasKey(key) then PassThrough
    else if key.value in log then Replay(Response(ReplayStatus, log[key.value]))
    else Intercept(key.value)
  }

  /** The log write: a create on a unique key whose failure is swallowed. */
  function InsertIfAbsent<B>(log: map<Key, B>, k: Key, body: B): (r: map<Key, B>)
    ensures r.Keys == log.Keys + {k}
    ensures forall j :: j in log ==> r[j] == log[j]
    ensures k !in log ==> r[k] == body
  {
    if k in log then log else log[k := body]
  }

  /** The parts of Express's response object the middleware touches. */
  class Reply<B> {
    var sent: seq<Response<B>>
    var hook: Option<Key>

    constructor ()
      ensures sent == [] && hook == None
    {
      sent := [];
      hook := None;
    }
  }

  class IdempotencyGuard<B> {
    var log: map<Key, B>

    constructor ()
      ensures log == map[]
    {
      log := map[];
    }

    /**
     * The middleware body up to `next()`: returns whether the handler runs. On replay it
     * sends the stored body with status 200 itself; on a new key it wraps res.json.
     * The log is read, never written, here.
     */
    method Handle(key: Option<Key>, res: Reply<B>) returns (next: bool)
      requires res.hook == None
      modifies res
      ensures next <==> !Decide(log, key).Replay?
      ensures Decide(log, key).Replay? ==> res.sent == old(res.sent) + [Decide(log, key).response]
      ensures !Decide(log, key).Replay? ==> res.sent == old(res.sent)
      ensures res.hook == if Decide(log, key).Intercept? then Some(Decide(log, key).key) else None
    {
      if key.None? || key.value == "" {
        return true;
      }
      var k := key.value;
      if k in log {
        res.sent := res.sent + [Response(ReplayStatus, log[k])];
        return false;
      }
      res.hook := Some(k);
      next := true;
    }

    /**
     * res.json as the handler sees it. While wrapped, the call first restores the original
     * json, then records the body under the key (insert-if-absent), then sends it; so only
     * the first body emitted after Handle is recorded. Unwrapped, it only sends.
     */
    method Json(res: Reply<B>, status: int, body: B)
      modifies this, res
      ensures res.sent == old(res.sent) + [Response(status, body)]
      ensures res.hook == None
      ensures log == if old(res.hook).Some? then InsertIfAbsent(old(log), old(res.hook).value, body) else old(log)
      ensures forall j :: j in old(log) ==> j in log && log[j] == old(log)[j]
    {
      if res.hook.Some? {
        var k := res.hook.value;
        res.hook := None;
        log := InsertIfAbsent(log, k, body);
      }
      res.sent := res.sent + [Response(status, body)];
    }
  }

  /** A handler that emits twice on a fresh key: only the first body is recorded. */
  method FirstEmittedBodyWins<B>(g: IdempotencyGuard<B>, k: Key, first: B, second: B)
    requires k != ""
    modifies g
    ensures k !in old(g.log) ==> g.log == old(g.log)[k := first]
    ensures k in old(g.log) ==> g.log == old(g.log)
  {
    var res := new Reply<B>();
    var next := g.Handle(Some(k), res);
    if next {
      g.Json(res, 400, first);
      g.Json(res, 200, second);
    }
  }
}
