/** Package accrualworker: the agent that polls the external accrual
    service for every pending order and stores what it answers. The HTTP
    exchange is an oracle `fetch` from URL to response; the store is the
    SQL-backed one. */
module AccrualWorker {
  import opened Base
  import opened Orders
  import B = Balance
  import Database

  /** The body of a 200 response, as the worker reads it. */
  datatype Body = Unreadable | Undecodable | Decodes(order: ProcessedOrder)

  /** What one GET to the accrual service yields: no response at all (the
      request could not be built or sent), or a status code and a body. */
  datatype Response = TransportError | Resp(code: int, body: Body)

  /** The two results of `makeGetRequest`. */
  datatype Reply = Reply(order: ProcessedOrder, err: Outcome)

  /** The zero value of `ProcessedOrder`. */
  const Zero: ProcessedOrder := ProcessedOrder("", "", None)

  const Scheme: GoString := "http://"

  predicate HasPrefix(s: GoString, p: GoString)
  {
    |p| <= |s| && s[..|p|] == p
  }

  /** Puts "http://" in front of a URL that does not already start with it. */
  function WithScheme(url: GoString): (r: GoString)
    ensures HasPrefix(r, Scheme)
    ensures HasPrefix(url, Scheme) ==> r == url
    ensures !HasPrefix(url, Scheme) ==> r == Scheme + url
  {
    if HasPrefix(url, Scheme) then url else Scheme + url
  }

  /** Adding the scheme twice is adding it once. */
  lemma WithSchemeIdempotent(url: GoString)
    ensures WithScheme(WithScheme(url)) == WithScheme(url)
  {
  }

  /** The address asked about order `number`: the server, the fixed path
      and the number, with the scheme added when the server lacks it. */
  function OrderURL(server: GoString, number: GoString): (url: GoString)
    ensures HasPrefix(url, Scheme)
    ensures url == server + "/api/orders/" + number || url == Scheme + server + "/api/orders/" + number
    ensures HasPrefix(server, Scheme) ==> url == server + "/api/orders/" + number
    ensures |url| >= 12 + |number| && url[|url| - |number| - 12..] == "/api/orders/" + number
  {
    var url := WithScheme(server + "/api/orders/" + number);
    assert HasPrefix(server, Scheme) ==> HasPrefix(server + "/api/orders/" + number, Scheme) by {
      if HasPrefix(server, Scheme) {
        assert (server + "/api/orders/" + number)[..|Scheme|] == server[..|Scheme|];
      }
    }
    url
  }

  /** How `makeGetRequest` reads a response about `number`: a 200 with a
      decodable body is that result; a 200 whose body does not decode
      marks the order INVALID; 204 leaves it NEW; 429 reports that the
      service is rate limiting; every other answer is an error with the
      zero value. */
  function Classify(number: GoString, resp: Response): (r: Reply)
    ensures r.err == Pass <==> resp.Resp? && ((resp.code == 200 && !resp.body.Unreadable?) || resp.code == 204)
    ensures resp.Resp? && resp.code == 200 && resp.body.Decodes? ==> r == Reply(resp.body.order, Pass)
    ensures resp.Resp? && resp.code == 200 && resp.body.Undecodable? ==> r == Reply(ProcessedOrder(number, "INVALID", None), Pass)
    ensures resp.Resp? && resp.code == 204 ==> r == Reply(ProcessedOrder(number, "NEW", None), Pass)
    ensures resp.Resp? && resp.code == 429 ==> r == Reply(ProcessedOrder(number, "", None), Fail(TooManyReqs))
    ensures r.err.Fail? && !(resp.Resp? && resp.code == 429) ==> r.order == Zero
  {
    match resp
    case TransportError => Reply(Zero, Fail(Transport))
    case Resp(code, body) =>
      if code == 200 then
        match body
        case Unreadable => Reply(Zero, Fail(ReadBody))
        case Undecodable => Reply(ProcessedOrder(number, "INVALID", None), Pass)
        case Decodes(p) => Reply(p, Pass)
      else if code == 204 then Reply(ProcessedOrder(number, "NEW", None), Pass)
      else if code == 429 then Reply(ProcessedOrder(number, "", None), Fail(TooManyReqs))
      else Reply(Zero, Fail(UnexpectedResponse))
  }

  /** A result the worker makes up itself (not decoded from the service)
      names the order asked about and carries a status the store accepts,
      so storing it never fails on its status. */
  lemma SynthesisedResultStorable(number: GoString, resp: Response)
    requires Classify(number, resp).err == Pass
    requires !(resp.Resp? && resp.body.Decodes? && resp.code == 200)
    ensures Classify(number, resp).order.number == number
    ensures Classify(number, resp).order.accrual.None?
    ensures Database.Normalize(Classify(number, resp).order.status).Some?
  {
  }

  /** One poll's worth of the outside world: the service's answers, the
      driver failures of the read and of the write, and the clock. */
  datatype Tick = Tick(fetch: GoString -> Response, readFaults: Database.Faults, writeFaults: Database.Faults, now: Timestamp)

  class Agent {
    const server: GoString
    const storage: Database.SQLdb

    /** `NewAgent`: the server address comes from the configuration. */
    constructor NewAgent(server: GoString, st: Database.SQLdb)
      ensures this.server == server && storage == st
    {
      this.server := server;
      storage := st;
    }

    /** `makeGetRequest`: asks the service about one order. */
    function MakeGetRequest(ordernumber: GoString, fetch: GoString -> Response): Reply
    {
      Classify(ordernumber, fetch(OrderURL(server, ordernumber)))
    }

    /** What one `askAccrual` on tables `t` may yield: `r` with the pending
        numbers `pending` in the order the store returned them. A failed
        read gives its error (`sql.ErrNoRows` becoming `ErrNoNewOrders`) and
        no numbers; otherwise each pending order is asked about once, the
        run succeeds exactly when every answer is usable, its results are
        the answers in order, and a failed run reports the first unusable
        answer's error. */
    ghost predicate Asked(t: Database.Tables, fetch: GoString -> Response, faults: Database.Faults,
                          r: Result<seq<ProcessedOrder>>, pending: seq<GoString>)
    {
      && (0 in faults ==> r == Err(if faults[0] == NoRows then NoNewOrders else faults[0]) && pending == [])
      && (0 !in faults && 1 in faults ==> r == Err(if faults[1] == NoRows then NoNewOrders else faults[1]) && pending == [])
      && (0 !in faults && 1 !in faults ==>
            && Database.Distinct(pending) && |pending| == |Database.PendingSet(t)|
            && (forall n :: n in pending <==> n in Database.PendingSet(t))
            && (r.Ok? <==> forall i :: 0 <= i < |pending| ==> MakeGetRequest(pending[i], fetch).err == Pass))
      && (r.Ok? ==>
            |r.value| == |pending| && forall i :: 0 <= i < |pending| ==> r.value[i] == MakeGetRequest(pending[i], fetch).order)
      && (r.Err? && 0 !in faults && 1 !in faults ==>
            exists k :: 0 <= k < |pending|
              && (forall i :: 0 <= i < k ==> MakeGetRequest(pending[i], fetch).err == Pass)
              && MakeGetRequest(pending[k], fetch).err == Fail(r.error))
    }

    /** The second half of `PingAccrual` on tables `t`: a failed ask returns
        its error and writes nothing; otherwise the tables `t'` and the
        error are those of `UpdateAccrual` on the answers. */
    ghost predicate Written(t: Database.Tables, input: Result<seq<ProcessedOrder>>, now: Timestamp,
                            writeFaults: Database.Faults, t': Database.Tables, err: Outcome)
    {
      && (input.Err? ==> err == Fail(input.error) && t' == t)
      && (input.Ok? ==> Database.Run(t', err) == Database.UpdateAccrualRun(t, input.value, now, writeFaults))
    }

    /** One poll in the world `tick` takes tables `t` to `t'` with error
        `err`: for some answer of the ask, the write that follows it. */
    ghost predicate Polled(t: Database.Tables, tick: Tick, t': Database.Tables, err: Outcome)
    {
      exists input, pending :: Asked(t, tick.fetch, tick.readFaults, input, pending)
                            && Written(t, input, tick.now, tick.writeFaults, t', err)
    }

    /** `askAccrual`: reads the pending orders and asks about each in turn,
        stopping at the first unusable answer; no partial results are
        returned. */
    method AskAccrual(fetch: GoString -> Response, faults: Database.Faults)
      returns (r: Result<seq<ProcessedOrder>>, ghost pending: seq<GoString>)
      ensures Asked(storage.State(), fetch, faults, r, pending)
    {
      pending := [];
      var stored := storage.GetOrdersForAccrual(faults);
      if stored.Err? {
        if stored.error == NoRows {
          return Err(NoNewOrders), pending;
        }
        return Err(stored.error), pending;
      }
      var ordsArr := stored.value;
      pending := ordsArr;
      var results: seq<ProcessedOrder> := [];
      var i := 0;
      while i < |ordsArr|
        invariant 0 <= i <= |ordsArr|
        invariant |results| == i
        invariant forall j :: 0 <= j < i ==>
                    MakeGetRequest(ordsArr[j], fetch).err == Pass && results[j] == MakeGetRequest(ordsArr[j], fetch).order
      {
        var res := MakeGetRequest(ordsArr[i], fetch);
        if res.err.Fail? {
          return Err(res.err.error), pending;
        }
        results := results + [res.order];
        i := i + 1;
      }
      return Ok(results), pending;
    }

    /** One poll: ask, then store the answers with `UpdateAccrual` only
        when asking succeeded. Ledger credits come from `UpdateAccrual`
        alone; `AddAccrualOperation` is not used. */
    method PingAccrual(fetch: GoString -> Response, readFaults: Database.Faults, writeFaults: Database.Faults, now: Timestamp)
      returns (err: Outcome, ghost input: Result<seq<ProcessedOrder>>, ghost pending: seq<GoString>)
      requires storage.Valid()
      modifies storage
      ensures storage.Valid()
      ensures Asked(old(storage.State()), fetch, readFaults, input, pending)
      ensures Written(old(storage.State()), input, now, writeFaults, storage.State(), err)
    {
      var asked;
      asked, pending := AskAccrual(fetch, readFaults);
      input := asked;
      if asked.Err? {
        return Fail(asked.error), input, pending;
      }
      err := storage.UpdateAccrual(asked.value, now, writeFaults);
    }

    /** The polling loop, over a finite run of ticks. It stops at the first
        poll that fails and returns that poll's error. `Pass` means every
        tick was polled without error, where the Go loop would go on
        waiting for the next tick. `states` are the tables before each poll:
        the first `done` polls succeeded, and a failing poll is the last. */
    method CheckAccrual(ticks: seq<Tick>) returns (err: Outcome, ghost done: nat, ghost states: seq<Database.Tables>)
      requires storage.Valid()
      modifies storage
      ensures storage.Valid()
      ensures done <= |ticks| && |states| == done + 1 && states[0] == old(storage.State())
      ensures forall i :: 0 <= i < done ==> Polled(states[i], ticks[i], states[i + 1], Pass)
      ensures err == Pass <==> done == |ticks|
      ensures err == Pass ==> storage.State() == states[done]
      ensures err.Fail? ==> done < |ticks| && Polled(states[done], ticks[done], storage.State(), err)
    {
      states := [storage.State()];
      for i := 0 to |ticks|
        invariant storage.Valid()
        invariant |states| == i + 1 && states[0] == old(storage.State()) && states[i] == storage.State()
        invariant forall j :: 0 <= j < i ==> Polled(states[j], ticks[j], states[j + 1], Pass)
      {
        var t := ticks[i];
        var e;
        ghost var input, pending;
        e, input, pending := PingAccrual(t.fetch, t.readFaults, t.writeFaults, t.now);
        assert Polled(states[i], t, storage.State(), e);
        if e.Fail? {
          return e, i, states;
        }
        states := states + [storage.State()];
      }
      return Pass, |ticks|, states;
    }
  }

  /** The first poll of the flow: one NEW order, answered PROCESSED with
      `amount`, is settled and credited once. */
  lemma FirstPoll(user: GoString, n: GoString, amount: int, now: Timestamp)
    ensures var t := Database.Tables(map[user := 1], map[n := Database.OrderRow(1, "NEW", now)], []);
            && Database.PendingSet(t) == {n}
            && Database.UpdateAccrualRun(t, [ProcessedOrder(n, "PROCESSED", Some(amount))], now, map[])
               == Database.Run(t.(orders := map[n := Database.OrderRow(1, "PROCESSED", now)],
                                  operations := [Database.OpRow(1, n, amount, now)]), Pass)
  {
    var t := Database.Tables(map[user := 1], map[n := Database.OrderRow(1, "NEW", now)], []);
    assert IsPending(t.orders[n].status);
    assert Database.PendingSet(t) == {n};
    var o := ProcessedOrder(n, "PROCESSED", Some(amount));
    var t' := t.(orders := map[n := Database.OrderRow(1, "PROCESSED", now)],
                 operations := [Database.OpRow(1, n, amount, now)]);
    assert Database.Normalize(o.status) == Some("PROCESSED");
    assert t.orders[n := t.orders[n].(status := "PROCESSED")] == t'.orders;
    var none: Database.Faults := map[];
    assert Database.ApplyResult(t, o, now, none, 3).Ok?;
    assert Database.ApplyResult(t, o, now, none, 3).value.orders == t'.orders;
    assert Database.ApplyResult(t, o, now, none, 3).value.operations == t'.operations;
    assert Database.ApplyResult(t, o, now, none, 3) == Ok(t');
    assert Database.UpdateFrom(t', [o], 1, now, none) == Database.Run(t', Pass);
    assert Database.UpdateFrom(t, [o], 0, now, none) == Database.Run(t', Pass);
  }

  /** The second poll of the flow: nothing is pending and the write of an
      empty result list changes nothing; the user's ledger holds the one
      credit. */
  lemma SecondPoll(user: GoString, n: GoString, amount: int, now: Timestamp)
    ensures var t := Database.Tables(map[user := 1], map[n := Database.OrderRow(1, "PROCESSED", now)],
                                     [Database.OpRow(1, n, amount, now)]);
            && Database.PendingSet(t) == {}
            && Database.UpdateAccrualRun(t, [], now, map[]) == Database.Run(t, Pass)
            && Database.UserOperations(t, user) == [B.Operation(n, amount, now)]
  {
    var t := Database.Tables(map[user := 1], map[n := Database.OrderRow(1, "PROCESSED", now)],
                             [Database.OpRow(1, n, amount, now)]);
    assert !IsPending(t.orders[n].status);
    assert Database.PendingSet(t) == {};
    assert t.operations[..0] == [];
    assert Database.RowsOf(t.operations[..0], 1) == [];
  }

  /** With one pending order and a usable answer about it, a fault-free
      ask asks about that order alone and returns that answer. */
  lemma AskedOne(agent: Agent, t: Database.Tables, fetch: GoString -> Response,
                 r: Result<seq<ProcessedOrder>>, pending: seq<GoString>, n: GoString, answer: ProcessedOrder)
    requires agent.Asked(t, fetch, map[], r, pending)
    requires Database.PendingSet(t) == {n}
    requires agent.MakeGetRequest(n, fetch) == Reply(answer, Pass)
    ensures pending == [n] && r == Ok([answer])
  {
    assert |pending| == 1;
    assert pending[0] in pending;
    assert pending == [n];
    assert forall i :: 0 <= i < |pending| ==> agent.MakeGetRequest(pending[i], fetch).err == Pass;
    assert r.Ok? && |r.value| == 1 && r.value[0] == answer;
    assert r.value == [answer];
  }

  /** With nothing pending, a fault-free ask asks nothing and succeeds. */
  lemma AskedNone(agent: Agent, t: Database.Tables, fetch: GoString -> Response,
                  r: Result<seq<ProcessedOrder>>, pending: seq<GoString>)
    requires agent.Asked(t, fetch, map[], r, pending)
    requires Database.PendingSet(t) == {}
    ensures pending == [] && r == Ok([])
  {
  }

  /** The whole flow on a fresh store: a user submits an order, the first
      poll finds it pending and the service answers PROCESSED with an
      amount, which is credited; the second poll finds nothing pending and
      changes nothing. The balance is the amount, with nothing withdrawn. */
  method SettleOneOrder(server: GoString, user: GoString, n: GoString, amount: int, now: Timestamp)
    returns (claimed: Outcome, first: Outcome, second: Outcome, b: Result<B.Balance>)
    requires amount >= 0
    ensures claimed == Pass && first == Pass && second == Pass
    ensures b == Ok(B.Balance(amount, 0))
  {
    var none: Database.Faults := map[];
    var db := new Database.SQLdb(map[user := 1]);
    claimed := db.SetOrder(n, user, now, none);
    ghost var t1 := Database.Tables(map[user := 1], map[n := Database.OrderRow(1, "NEW", now)], []);
    assert db.State() == t1;
    var agent := new Agent.NewAgent(server, db);
    var answer := ProcessedOrder(n, "PROCESSED", Some(amount));
    var fetch := (url: GoString) => Resp(200, Decodes(answer));
    ghost var input, pending;

    FirstPoll(user, n, amount, now);
    first, input, pending := agent.PingAccrual(fetch, none, none, now);
    AskedOne(agent, t1, fetch, input, pending, n, answer);
    ghost var t2 := t1.(orders := map[n := Database.OrderRow(1, "PROCESSED", now)],
                        operations := [Database.OpRow(1, n, amount, now)]);
    assert db.State() == t2 && first == Pass;

    SecondPoll(user, n, amount, now);
    second, input, pending := agent.PingAccrual(fetch, none, none, now);
    AskedNone(agent, t2, fetch, input, pending);
    assert db.State() == t2 && second == Pass;
    b := db.GetBalance(user, none);
    ghost var ledger := [B.Operation(n, amount, now)];
    B.AppendOperation([], ledger[0]);
    assert [] + [ledger[0]] == ledger;
  }
}
