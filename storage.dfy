/** Package storage: the in-memory store. Four maps updated in place:
    `Data` (login to password), `Umap` (order number to owner), `Orders`
    (owner to order list) and `Operations` (owner to ledger). */
module Storage {
  import opened Base
  import opened Orders
  import B = Balance

  class MemStorage {
    var data: map<GoString, GoString>
    var umap: map<GoString, GoString>
    var orders: map<GoString, seq<Order>>
    var operations: map<GoString, seq<B.Operation>>

    /** The ownership invariant `SetOrder` maintains. */
    ghost predicate Valid()
      reads this
    {
      OwnershipConsistent(umap, orders)
    }

    /** `NewStorage`: four empty maps. */
    constructor NewStorage()
      ensures data == map[] && umap == map[] && orders == map[] && operations == map[]
      ensures Valid()
    {
      data := map[];
      umap := map[];
      orders := map[];
      operations := map[];
    }

    /** A taken login is refused and never overwritten; a new one is stored
        and nothing else changes. */
    method Register(login: GoString, password: GoString) returns (err: Outcome)
      modifies this
      ensures umap == old(umap) && orders == old(orders) && operations == old(operations)
      ensures login in old(data) ==> err == Fail(UsernameIsTaken) && data == old(data)
      ensures login !in old(data) ==> err == Pass && data == old(data)[login := password]
      ensures err == Pass ==> VerifyCredentials(login, password) == Pass
    {
      if login in data {
        return Fail(UsernameIsTaken);
      } else {
        data := data[login := password];
      }
      return Pass;
    }

    /** Accepts exactly a registered login with its own password. */
    function VerifyCredentials(login: GoString, password: GoString): (err: Outcome)
      reads this
      ensures err == Pass <==> login in data && data[login] == password
      ensures err != Pass ==> err == Fail(WrongCredentials)
    {
      if login in data && data[login] == password then Pass
      else Fail(WrongCredentials)
    }

    /** An unclaimed number is claimed for `username` with one NEW order at
        the end of their list; a claimed number changes nothing and reports
        whose it is. */
    method SetOrder(ordernumber: GoString, username: GoString, now: Timestamp) returns (err: Outcome)
      modifies this
      ensures data == old(data) && operations == old(operations)
      ensures ordernumber !in old(umap) ==>
                && err == Pass
                && umap == old(umap)[ordernumber := username]
                && orders == old(orders)[username := MapGet(old(orders), username, []) + [Order(ordernumber, "NEW", None, now)]]
      ensures ordernumber in old(umap) ==> umap == old(umap) && orders == old(orders)
      ensures ordernumber in old(umap) && old(umap)[ordernumber] == username ==> err == Fail(OrderLoadedThisUser)
      ensures ordernumber in old(umap) && old(umap)[ordernumber] != username ==> err == Fail(OrderLoadedAnotherUser)
      ensures old(Valid()) ==> Valid()
    {
      if ordernumber !in umap {
        if Valid() {
          ClaimKeepsOwnership(umap, orders, ordernumber, username, now);
        }
        orders := orders[username := MapGet(orders, username, []) + [Order(ordernumber, "NEW", None, now)]];
        umap := umap[ordernumber := username];
        return Pass;
      } else if umap[ordernumber] == username {
        return Fail(OrderLoadedThisUser);
      } else {
        return Fail(OrderLoadedAnotherUser);
      }
    }

    /** The caller's orders in submission order; none for an unknown user. */
    method GetOrders(username: GoString) returns (r: Result<seq<Order>>)
      ensures r == Ok(MapGet(orders, username, []))
    {
      return Ok(MapGet(orders, username, []));
    }

    /** Every number whose order is NEW or PROCESSING, from every owner's
        list, each as often as it is listed; owners come in an unspecified
        order. */
    method GetOrdersForAccrual() returns (r: Result<seq<GoString>>)
      ensures r.Ok? && multiset(r.value) == PendingOf(orders)
    {
      var preparr: seq<GoString> := [];
      var rest := orders;
      while rest != map[]
        invariant multiset(preparr) + PendingOf(rest) == PendingOf(orders)
        decreases |rest|
      {
        var u :| u in rest;
        var v := rest[u];
        ghost var before := preparr;
        for j := 0 to |v|
          invariant preparr == before + PendingNumbers(v[..j])
        {
          assert v[..j + 1][..j] == v[..j];
          if v[j].status == "PROCESSING" || v[j].status == "NEW" {
            preparr := preparr + [v[j].number];
          }
        }
        assert v[..|v|] == v;
        CollectOwner(rest, u, before, PendingOf(orders));
        rest := rest - {u};
      }
      return Ok(preparr);
    }

    /** A no-op in this store. */
    method UpdateAccrual(ords: seq<ProcessedOrder>) returns (err: Outcome)
      ensures err == Pass
    {
      return Pass;
    }

    /** A no-op in this store. */
    method AddAccrualOperation(ords: seq<ProcessedOrder>) returns (err: Outcome)
      ensures err == Pass
    {
      return Pass;
    }

    /** `Current` is the sum of the user's amounts and `Withdrawn` the sum of
        their debits' sizes; a user without operations gets zero for both. */
    method GetBalance(username: GoString) returns (r: Result<B.Balance>)
      ensures r == Ok(B.BalanceOf(MapGet(operations, username, [])))
    {
      var ops := MapGet(operations, username, []);
      if |ops| == 0 {
        return Ok(B.Balance(0, 0));
      }
      var current, withdrawn := 0, 0;
      for i := 0 to |ops|
        invariant current == B.Current(ops[..i]) && withdrawn == B.Withdrawn(ops[..i])
      {
        assert ops[..i + 1][..i] == ops[..i];
        current := current + ops[i].accrual;
        if ops[i].accrual < 0 {
          var value := ops[i].accrual * -1;
          withdrawn := withdrawn + value;
        }
      }
      assert ops[..|ops|] == ops;
      return Ok(B.Balance(current, withdrawn));
    }

    /** All of the user's operations, credits included. */
    method GetWithdrawals(username: GoString) returns (r: Result<seq<B.Operation>>)
      ensures r == Ok(MapGet(operations, username, []))
    {
      return Ok(MapGet(operations, username, []));
    }

    /** When the balance covers `q.sum`, appends one operation of amount
        `+q.sum` (the sign as written) to the user's ledger; otherwise reports
        insufficient funds and changes nothing. */
    method Withdraw(username: GoString, q: B.WithdrawQ, now: Timestamp) returns (err: Outcome)
      modifies this
      ensures data == old(data) && umap == old(umap) && orders == old(orders)
      ensures err == Pass <==> B.Current(MapGet(old(operations), username, [])) >= q.sum
      ensures err == Pass ==>
                operations == old(operations)[username := MapGet(old(operations), username, []) + [B.Operation(q.order, q.sum, now)]]
      ensures err != Pass ==> err == Fail(InsufficientFunds) && operations == old(operations)
    {
      // This store's GetBalance never reports an error.
      var currentbalance := GetBalance(username);
      if currentbalance.value.current >= q.sum {
        var withdrawal := B.Operation(q.order, q.sum, now);
        operations := operations[username := MapGet(operations, username, []) + [withdrawal]];
      } else {
        return Fail(InsufficientFunds);
      }
      return Pass;
    }
  }

  /** As written, a withdrawal of a positive sum is a credit: the balance
      goes up by the sum and the withdrawn total does not move. */
  lemma WithdrawalAsWrittenIsCredit(ops: seq<B.Operation>, q: B.WithdrawQ, now: Timestamp)
    requires q.sum > 0
    ensures B.Current(ops + [B.Operation(q.order, q.sum, now)]) == B.Current(ops) + q.sum
    ensures B.Withdrawn(ops + [B.Operation(q.order, q.sum, now)]) == B.Withdrawn(ops)
  {
    B.AppendOperation(ops, B.Operation(q.order, q.sum, now));
  }
}
