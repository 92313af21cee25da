/**
 * The POST /transact route of src/routes/wallet.ts: the idempotency middleware in front of
 * a handler that calls processTransaction and turns its outcome into a JSON response.
 * `Serve` is the whole request as a function of the store; `WalletApi.PostTransact` runs
 * the same request through the imperative middleware, handler and ledger service.
 */
module WalletRoutes {
  import opened Wrappers
  import opened Ledger
  import opened Idempotency

  /** The `error` field of a failure body. */
  datatype ErrorText = RuleViolation(reason: LedgerError) | InternalServerError

  /** The JSON bodies the handler emits: `{ success, transaction }` or `{ error }`. */
  datatype Body = TransactionBody(transaction: Entry) | ErrorBody(error: ErrorText)

  /**
   * The handler's catch block: sign and insufficient-funds messages are client errors (400);
   * any other failure, the missing wallet among them, is a 500 with a generic message.
   */
  function TransactResponse(o: Outcome): (r: Response<Body>)
    ensures r.status == 200 <==> o.Committed?
    ensures r.body.TransactionBody? <==> o.Committed?
    ensures o.Committed? ==> r.body.transaction == o.entry
    ensures r.status == 400 <==> o.Rejected? && !o.error.WalletNotFound?
    ensures r.status == 400 ==> r.body == ErrorBody(RuleViolation(o.error))
    ensures o.Rejected? && o.error.WalletNotFound? ==> r == Response(500, ErrorBody(InternalServerError))
  {
    match o
    case Committed(e) => Response(200, TransactionBody(e))
    case Rejected(err) =>
      if err.InvalidAmountSign? || err.InsufficientFunds? then Response(400, ErrorBody(RuleViolation(err)))
      else Response(500, ErrorBody(InternalServerError))
  }

  /** The whole store: wallet table, ledger table and idempotency log. */
  datatype ApiState = ApiState(wallets: set<WalletId>, entries: seq<Entry>, log: map<Key, Body>)

  datatype Served = Served(state: ApiState, response: Response<Body>)

  /** One POST /transact with an optional Idempotency-Key header, served sequentially. */
  function Serve(s: ApiState, key: Option<Key>, t: TxInput): (r: Served)
    ensures r.state.wallets == s.wallets
    // the ledger only grows, by at most one row
    ensures |s.entries| <= |r.state.entries| <= |s.entries| + 1
    ensures r.state.entries[..|s.entries|] == s.entries
    // whenever the handler runs, the ledger is exactly what processTransaction leaves
    ensures !(HasKey(key) && key.value in s.log) ==>
              r.state.entries == Process(s.wallets, s.entries, t).entries
    // no key: the handler runs unguarded and the log is unchanged
    ensures !HasKey(key) ==>
              r.state.log == s.log && r.response == TransactResponse(Process(s.wallets, s.entries, t).outcome)
    // known key: the stored body is replayed with status 200 and nothing else changes
    ensures HasKey(key) && key.value in s.log ==>
              r == Served(s, Response(ReplayStatus, s.log[key.value]))
    // new key: the handler runs and the body it emits is both returned and recorded
    ensures HasKey(key) && key.value !in s.log ==>
              && r.response == TransactResponse(Process(s.wallets, s.entries, t).outcome)
              && r.state.log == s.log[key.value := r.response.body]
  {
    match Decide(s.log, key)
    case Replay(resp) => Served(s, resp)
    case PassThrough =>
      var step := Process(s.wallets, s.entries, t);
      Served(s.(entries := step.entries), TransactResponse(step.outcome))
    case Intercept(k) =>
      var step := Process(s.wallets, s.entries, t);
      var resp := TransactResponse(step.outcome);
      Served(ApiState(s.wallets, step.entries, InsertIfAbsent(s.log, k, resp.body)), resp)
  }

  /** Entry e is the committed row at position e.id. */
  predicate IsCommitted(entries: seq<Entry>, e: Entry) {
    e.id < |entries| && entries[e.id] == e
  }

  /** The store invariant: the ledger's, and every recorded success names a committed row. */
  ghost predicate ApiInvariant(s: ApiState) {
    && LedgerInvariant(s.wallets, s.entries)
    && forall k :: k in s.log && s.log[k].TransactionBody? ==> IsCommitted(s.entries, s.log[k].transaction)
  }

  lemma ServePreservesInvariant(s: ApiState, key: Option<Key>, t: TxInput)
    requires ApiInvariant(s)
    ensures ApiInvariant(Serve(s, key, t).state)
  {
    var r := Serve(s, key, t);
    if !(HasKey(key) && key.value in s.log) {
      ProcessPreservesInvariant(s.wallets, s.entries, t);
      var step := Process(s.wallets, s.entries, t);
      forall k | k in r.state.log && r.state.log[k].TransactionBody?
        ensures IsCommitted(r.state.entries, r.state.log[k].transaction)
      {
        if k in s.log {
          assert r.state.log[k] == s.log[k];
          var e := s.log[k].transaction;
          assert IsCommitted(s.entries, e);
          assert r.state.entries[e.id] == s.entries[e.id];
        } else {
          assert step.outcome.Committed?;
        }
      }
    }
  }

  /** Two requests with the same key, whatever their payloads: the second replays the first. */
  lemma RetryReplaysFirstResponse(s: ApiState, k: Key, t1: TxInput, t2: TxInput)
    requires k != ""
    ensures var first := Serve(s, Some(k), t1);
            var second := Serve(first.state, Some(k), t2);
            && second.state == first.state
            && second.response == Response(ReplayStatus, first.response.body)
            && |second.state.entries| <= |s.entries| + 1
  {
    // follows from Serve's contract: the first call leaves k recorded with its own body
  }

  datatype Request = Request(key: Option<Key>, input: TxInput)

  datatype Run = Run(state: ApiState, responses: seq<Response<Body>>)

  /** Requests served one after another, each against the store its predecessor left. */
  function ServeAll(s: ApiState, reqs: seq<Request>): (r: Run)
    ensures |r.responses| == |reqs|
    ensures r.state.wallets == s.wallets
    ensures |s.entries| <= |r.state.entries| && r.state.entries[..|s.entries|] == s.entries
    // no record of the log is ever lost or overwritten
    ensures forall k :: k in s.log ==> k in r.state.log && r.state.log[k] == s.log[k]
    decreases |reqs|
  {
    if reqs == [] then Run(s, [])
    else
      var first := Serve(s, reqs[0].key, reqs[0].input);
      var rest := ServeAll(first.state, reqs[1..]);
      assert rest.state.entries[..|s.entries|] == first.state.entries[..|s.entries|];
      Run(rest.state, [first.response] + rest.responses)
  }

  lemma {:induction false} ServeAllPreservesInvariant(s: ApiState, reqs: seq<Request>)
    requires ApiInvariant(s)
    ensures ApiInvariant(ServeAll(s, reqs).state)
    decreases |reqs|
  {
    if reqs != [] {
      ServePreservesInvariant(s, reqs[0].key, reqs[0].input);
      ServeAllPreservesInvariant(Serve(s, reqs[0].key, reqs[0].input).state, reqs[1..]);
    }
  }

  /** Once a key is recorded, every request bearing it is a replay that changes nothing. */
  lemma {:induction false} RecordedKeyOnlyReplays(s: ApiState, k: Key, reqs: seq<Request>)
    requires k != "" && k in s.log
    requires forall i :: 0 <= i < |reqs| ==> reqs[i].key == Some(k)
    ensures ServeAll(s, reqs).state == s
    ensures forall i :: 0 <= i < |reqs| ==> ServeAll(s, reqs).responses[i] == Response(ReplayStatus, s.log[k])
    decreases |reqs|
  {
    if reqs != [] {
      RecordedKeyOnlyReplays(s, k, reqs[1..]);
    }
  }

  /**
   * A request bearing a recorded key gets the recorded body with status 200, wherever it
   * comes in a run and whatever requests, with other keys or none, are served before it.
   */
  lemma {:induction false} RecordedKeyReplaysAnywhere(s: ApiState, k: Key, reqs: seq<Request>, i: nat)
    requires k != "" && k in s.log
    requires i < |reqs| && reqs[i].key == Some(k)
    ensures ServeAll(s, reqs).responses[i] == Response(ReplayStatus, s.log[k])
    decreases i
  {
    var first := Serve(s, reqs[0].key, reqs[0].input);
    if i > 0 {
      RecordedKeyReplaysAnywhere(first.state, k, reqs[1..], i - 1);
    }
  }

  /**
   * Any number of retries under one key: the ledger gains at most one row, the first
   * response is recorded under the key, and every later response is that body with status 200.
   */
  lemma RetriesApplyAtMostOnce(s: ApiState, k: Key, reqs: seq<Request>)
    requires k != "" && reqs != []
    requires forall i :: 0 <= i < |reqs| ==> reqs[i].key == Some(k)
    ensures var run := ServeAll(s, reqs);
            && |run.state.entries| <= |s.entries| + 1
            && k in run.state.log && run.state.log[k] == run.responses[0].body
            && forall i :: 0 < i < |reqs| ==> run.responses[i] == Response(ReplayStatus, run.responses[0].body)
  {
    var first := Serve(s, reqs[0].key, reqs[0].input);
    assert k in first.state.log && first.state.log[k] == first.response.body;
    var rest := reqs[1..];
    RecordedKeyOnlyReplays(first.state, k, rest);
    var run := ServeAll(s, reqs);
    forall i | 0 < i < |reqs| ensures run.responses[i] == Response(ReplayStatus, run.responses[0].body) {
      assert run.responses[i] == ServeAll(first.state, rest).responses[i - 1];
    }
  }

  /** How many responses report a committed transaction. */
  function Successes(rs: seq<Response<Body>>): (n: nat)
    ensures n <= |rs|
  {
    if rs == [] then 0 else (if rs[0].status == 200 then 1 else 0) + Successes(rs[1..])
  }

  function Min(a: nat, b: nat): nat { if a <= b then a else b }

  /**
   * Spends of 10 against a wallet holding 10 * m, served one after another without keys:
   * exactly min(n, m) succeed, the rest are refused, and the balance ends at 10 * (m - min(n, m)).
   */
  lemma {:induction false} SpendsStopAtZero(s: ApiState, w: WalletId, m: nat, reqs: seq<Request>)
    requires w in s.wallets && Balance(s.entries, w) == 10 * m
    requires forall i :: 0 <= i < |reqs| ==>
               reqs[i].key == None && reqs[i].input.walletId == w &&
               reqs[i].input.txType == Spend && reqs[i].input.amount == -10
    ensures var run := ServeAll(s, reqs);
            && Successes(run.responses) == Min(|reqs|, m)
            && |run.state.entries| == |s.entries| + Min(|reqs|, m)
            && Balance(run.state.entries, w) == 10 * (m - Min(|reqs|, m))
            // the first min(n, m) succeed; every later one is refused for insufficient funds
            && forall i :: 0 <= i < |reqs| ==>
                 && (i < Min(|reqs|, m) ==> run.responses[i].status == 200)
                 && (Min(|reqs|, m) <= i ==>
                       run.responses[i] == Response(400, ErrorBody(RuleViolation(InsufficientFunds(0, 10)))))
    decreases |reqs|
  {
    if reqs != [] {
      var t := reqs[0].input;
      var first := Serve(s, None, t);
      ProcessBalances(s.wallets, s.entries, t, w);
      var m' := if m > 0 then m - 1 else 0;
      SpendsStopAtZero(first.state, w, m', reqs[1..]);
      var run := ServeAll(s, reqs);
      var rest := ServeAll(first.state, reqs[1..]);
      assert forall i :: 0 < i < |reqs| ==> run.responses[i] == rest.responses[i - 1];
    }
  }

  /** The sum of the requests' amounts. */
  function NetAmount(reqs: seq<Request>): int {
    if reqs == [] then 0 else reqs[0].input.amount + NetAmount(reqs[1..])
  }

  /** The total the requests' SPENDs would take out. */
  function SpendTotal(reqs: seq<Request>): (n: int)
    ensures (forall i :: 0 <= i < |reqs| ==> reqs[i].input.txType == Spend ==> reqs[i].input.amount < 0) ==> n >= 0
  {
    if reqs == [] then 0
    else (if reqs[0].input.txType == Spend then -reqs[0].input.amount else 0) + SpendTotal(reqs[1..])
  }

  /**
   * Well-signed requests against one existing wallet, served one after another without keys,
   * when its balance covers all their SPENDs: whatever the order, every one commits and the
   * balance ends moved by exactly their net amount (1000 with 25 top-ups of 10 and 25 spends
   * of 10 in any order ends at 1000 after 50 new rows).
   */
  lemma {:induction false} FundedRequestsAllCommit(s: ApiState, w: WalletId, reqs: seq<Request>)
    requires w in s.wallets && Balance(s.entries, w) >= SpendTotal(reqs)
    requires forall i :: 0 <= i < |reqs| ==>
               reqs[i].key == None && reqs[i].input.walletId == w &&
               !SignRuleViolated(reqs[i].input.txType, reqs[i].input.amount)
    ensures var run := ServeAll(s, reqs);
            && Successes(run.responses) == |reqs|
            && |run.state.entries| == |s.entries| + |reqs|
            && Balance(run.state.entries, w) == Balance(s.entries, w) + NetAmount(reqs)
    decreases |reqs|
  {
    if reqs != [] {
      var t := reqs[0].input;
      var first := Serve(s, None, t);
      ProcessBalances(s.wallets, s.entries, t, w);
      assert SpendTotal(reqs[1..]) >= 0 by {
        assert forall i :: 0 <= i < |reqs[1..]| ==> reqs[1..][i] == reqs[i + 1];
      }
      FundedRequestsAllCommit(first.state, w, reqs[1..]);
    }
  }

  /** The service in front of the store, as the server wires it. */
  class WalletApi {
    const ledger: LedgerService
    const guard: IdempotencyGuard<Body>

    ghost function State(): ApiState
      reads this, ledger, guard
    {
      ApiState(ledger.wallets, ledger.entries, guard.log)
    }

    ghost predicate Valid()
      reads this, ledger, guard
    {
      ApiInvariant(State())
    }

    constructor (wallets: set<WalletId>)
      ensures Valid()
      ensures State() == ApiState(wallets, [], map[])
    {
      ledger := new LedgerService(wallets);
      guard := new IdempotencyGuard<Body>();
    }

    /** POST /transact: the middleware, then (unless replayed) the handler. */
    method PostTransact(key: Option<Key>, t: TxInput) returns (resp: Response<Body>)
      requires Valid()
      modifies ledger, guard
      ensures Valid()
      ensures Served(State(), resp) == Serve(old(State()), key, t)
    {
      ServePreservesInvariant(State(), key, t);
      var res := new Reply<Body>();
      var next := guard.Handle(key, res);
      if next {
        var outcome := ledger.ProcessTransaction(t);
        var r := TransactResponse(outcome);
        guard.Json(res, r.status, r.body);
      }
      resp := res.sent[0];
    }
  }
}
