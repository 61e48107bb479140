/** The SQL-backed store of package database, over the `users`, `orders`
    and `operations` tables held as values. The meaning of each statement
    is taken from its SQL text.

    The driver is an oracle: each method numbers the statements it sends,
    in execution order, and statement `k` fails with `faults[k]` when `k`
    is in `faults`. A statement that fails writes nothing; the ones before
    it stay written unless they belong to the same statement. */
module Database {
  import opened Base
  import opened Orders
  import B = Balance
  import Luhn

  /** A row of `orders`, keyed by its number (the primary key). */
  datatype OrderRow = OrderRow(userId: int, status: GoString, uploadedAt: Timestamp)

  /** A row of `operations`; the SERIAL id is the position in the table. */
  datatype OpRow = OpRow(userId: int, number: GoString, accrual: int, processedAt: Timestamp)

  /** `users` as username to id, then `orders` and `operations`. */
  datatype Tables = Tables(users: map<GoString, int>, orders: map<GoString, OrderRow>, operations: seq<OpRow>)

  /** Statement number to the error the driver returns for it. */
  type Faults = map<nat, Error>

  /** What running a sequence of statements left behind, and what it
      returned. */
  datatype Run = Run(tables: Tables, outcome: Outcome)

  /** What the tables always satisfy: user ids are unique (primary key),
      every order belongs to an existing user (fk_ousers), and every
      operation names an existing order (fk_oorders) and carries the id of
      that order's owner, which every insert path copies from the order. */
  ghost predicate Consistent(t: Tables)
  {
    && (forall u, w :: u in t.users && w in t.users && u != w ==> t.users[u] != t.users[w])
    && (forall n :: n in t.orders ==> t.orders[n].userId in t.users.Values)
    && (forall k :: 0 <= k < |t.operations| ==>
          t.operations[k].number in t.orders && t.operations[k].userId == t.orders[t.operations[k].number].userId)
  }

  /** The username that owns order `n`: the join of `orders` with `users`. */
  ghost function OwnerOf(t: Tables, n: GoString): (u: GoString)
    requires Consistent(t) && n in t.orders
    ensures u in t.users && t.users[u] == t.orders[n].userId
  {
    var u :| u in t.users && t.users[u] == t.orders[n].userId; u
  }

  /** `WHERE status='NEW' OR status='PROCESSING'` */
  function PendingSet(t: Tables): set<GoString>
  {
    set n | n in t.orders && IsPending(t.orders[n].status)
  }

  /** The numbers of the user's orders: the rows of `getOrdersByUserQuery`. */
  function UserNumbers(t: Tables, username: GoString): set<GoString>
  {
    if username in t.users then set n | n in t.orders && t.orders[n].userId == t.users[username]
    else {}
  }

  /** The operation rows of user id `uid`, in table order, as ledger records. */
  function RowsOf(rows: seq<OpRow>, uid: int): seq<B.Operation>
  {
    if rows == [] then []
    else
      var last := rows[|rows| - 1];
      RowsOf(rows[..|rows| - 1], uid) +
      (if last.userId == uid then [B.Operation(last.number, last.accrual, last.processedAt)] else [])
  }

  /** `WHERE user_id = (SELECT id FROM users WHERE username = $1)`: an
      unknown username makes the sub-select NULL, which matches no row. */
  function UserOperations(t: Tables, username: GoString): seq<B.Operation>
  {
    if username in t.users then RowsOf(t.operations, t.users[username]) else []
  }

  /** `SELECT accrual FROM operations WHERE number = $1` through `QueryRow`:
      the amount of the first matching row, if any. */
  function FirstAccrual(rows: seq<OpRow>, n: GoString): (r: Option<int>)
    ensures r.Some? <==> exists k :: 0 <= k < |rows| && rows[k].number == n
  {
    if rows == [] then None
    else if rows[0].number == n then Some(rows[0].accrual)
    else
      var r := FirstAccrual(rows[1..], n);
      assert forall k :: 0 < k < |rows| ==> rows[k] == rows[1..][k - 1];
      r
  }

  predicate Distinct(s: seq<GoString>)
  {
    forall i, j :: 0 <= i < j < |s| ==> s[i] != s[j]
  }

  /** How `GetOrders` shows stored order `o.number`: its status and upload
      time, and for a PROCESSED order the accrual read back from the ledger. */
  predicate ShownAs(t: Tables, o: Order)
  {
    && o.number in t.orders
    && o.status == t.orders[o.number].status
    && o.uploadedAt == t.orders[o.number].uploadedAt
    && o.accrual == (if o.status == "PROCESSED" then FirstAccrual(t.operations, o.number) else None)
  }

  /** Some PROCESSED order of the user has no ledger row, so reading its
      accrual back finds nothing. */
  predicate MissingAccrual(t: Tables, username: GoString)
  {
    exists n :: n in UserNumbers(t, username) && n in t.orders
      && t.orders[n].status == "PROCESSED" && FirstAccrual(t.operations, n).None?
  }

  // ---------------------------------------------------------------------
  // Applying accrual results

  /** The statuses an order row takes. */
  predicate IsOrderStatus(s: GoString)
  {
    s == "NEW" || s == "PROCESSING" || s == "PROCESSED" || s == "INVALID"
  }

  /** The status an accrual result is stored under: REGISTERED becomes
      PROCESSING, the four order statuses stay, anything else is refused. */
  function Normalize(status: GoString): (r: Option<GoString>)
    ensures r.Some? <==> IsOrderStatus(status) || status == "REGISTERED"
    ensures r.Some? ==> IsOrderStatus(r.value)
    ensures IsOrderStatus(status) ==> r == Some(status)
    ensures status == "REGISTERED" ==> r == Some("PROCESSING")
  {
    if status == "REGISTERED" then Some("PROCESSING")
    else if IsOrderStatus(status) then Some(status)
    else None
  }

  /** Normalising twice is normalising once. */
  lemma NormalizeIdempotent(status: GoString)
    requires Normalize(status).Some?
    ensures Normalize(Normalize(status).value) == Normalize(status)
  {
  }

  /** One result of `UpdateAccrual`, run as statement `step`: with an
      accrual, `AccrualAddQuery` sets the status and inserts one operation
      for the order's owner in one statement (no such order leaves the
      owner NULL, which NOT NULL refuses); without one, `UpdateStatusQuery`
      sets the status of whatever row matches. */
  function ApplyResult(t: Tables, o: ProcessedOrder, now: Timestamp, faults: Faults, step: nat): Result<Tables>
  {
    match Normalize(o.status)
    case None => Err(UnexpectedStatus)
    case Some(status) =>
      if step in faults then Err(faults[step])
      else if o.accrual.Some? then
        if o.number !in t.orders then Err(ConstraintViolation)
        else
          var row := t.orders[o.number];
          Ok(t.(orders := t.orders[o.number := row.(status := status)],
                operations := t.operations + [OpRow(row.userId, o.number, o.accrual.value, now)]))
      else if o.number in t.orders then
        Ok(t.(orders := t.orders[o.number := t.orders[o.number].(status := status)]))
      else Ok(t)
  }

  /** Results `i..` applied in slice order, result `j` as statement `3 + j`;
      the first failure stops the run and what was written before it stays. */
  function UpdateFrom(t: Tables, ords: seq<ProcessedOrder>, i: nat, now: Timestamp, faults: Faults): Run
    requires i <= |ords|
    decreases |ords| - i
  {
    if i == |ords| then Run(t, Pass)
    else
      match ApplyResult(t, ords[i], now, faults, 3 + i)
      case Err(e) => Run(t, Fail(e))
      case Ok(t') => UpdateFrom(t', ords, i + 1, now, faults)
  }

  /** `UpdateAccrual` as a whole: statements 0 and 1 prepare the two
      queries, 2 begins a transaction, `3 + j` runs result `j` on the
      connection pool (outside the transaction, so each commits at once),
      and `3 + |ords|` commits the empty transaction. */
  function UpdateAccrualRun(t: Tables, ords: seq<ProcessedOrder>, now: Timestamp, faults: Faults): Run
  {
    if 0 in faults then Run(t, Fail(faults[0]))
    else if 1 in faults then Run(t, Fail(faults[1]))
    else if 2 in faults then Run(t, Fail(faults[2]))
    else
      var r := UpdateFrom(t, ords, 0, now, faults);
      if r.outcome.Pass? && 3 + |ords| in faults then Run(r.tables, Fail(faults[3 + |ords|]))
      else r
  }

  /** One entry of `AddAccrualOperation`, run as statement `step`: a zero
      amount is skipped; otherwise `InsertOperationQuery` inserts one
      operation for the order's owner, which needs the order to exist. */
  function CreditResult(t: Tables, o: ProcessedOrder, now: Timestamp, faults: Faults, step: nat): Result<Tables>
    requires o.accrual.Some?
  {
    if o.accrual.value == 0 then Ok(t)
    else if step in faults then Err(faults[step])
    else if o.number !in t.orders then Err(ConstraintViolation)
    else Ok(t.(operations := t.operations + [OpRow(t.orders[o.number].userId, o.number, o.accrual.value, now)]))
  }

  /** Entries `i..` of `AddAccrualOperation`, entry `j` as statement `1 + j`. */
  function CreditFrom(t: Tables, ords: seq<ProcessedOrder>, i: nat, now: Timestamp, faults: Faults): Run
    requires i <= |ords|
    requires forall j :: 0 <= j < |ords| ==> ords[j].accrual.Some?
    decreases |ords| - i
  {
    if i == |ords| then Run(t, Pass)
    else
      match CreditResult(t, ords[i], now, faults, 1 + i)
      case Err(e) => Run(t, Fail(e))
      case Ok(t') => CreditFrom(t', ords, i + 1, now, faults)
  }

  /** `AddAccrualOperation` as a whole: statement 0 begins a transaction
      (the error of the preparation before it is discarded), `1 + j` runs
      entry `j` outside the transaction, `1 + |ords|` commits. */
  function AddAccrualRun(t: Tables, ords: seq<ProcessedOrder>, now: Timestamp, faults: Faults): Run
    requires forall j :: 0 <= j < |ords| ==> ords[j].accrual.Some?
  {
    if 0 in faults then Run(t, Fail(faults[0]))
    else
      var r := CreditFrom(t, ords, 0, now, faults);
      if r.outcome.Pass? && 1 + |ords| in faults then Run(r.tables, Fail(faults[1 + |ords|]))
      else r
  }

  // ---------------------------------------------------------------------
  // What a run of accrual results does

  /** `t2` is `t1` after status updates and appended operations: the same
      users, the same orders with the same owners and upload times, and the
      old operations as a prefix. */
  ghost predicate Grows(t1: Tables, t2: Tables)
  {
    && t2.users == t1.users
    && t2.orders.Keys == t1.orders.Keys
    && (forall n :: n in t1.orders ==>
          t2.orders[n].userId == t1.orders[n].userId && t2.orders[n].uploadedAt == t1.orders[n].uploadedAt)
    && |t1.operations| <= |t2.operations|
    && t2.operations[..|t1.operations|] == t1.operations
  }

  lemma GrowsTransitive(t1: Tables, t2: Tables, t3: Tables)
    requires Grows(t1, t2) && Grows(t2, t3)
    ensures Grows(t1, t3)
  {
    assert t3.operations[..|t1.operations|] == t3.operations[..|t2.operations|][..|t1.operations|];
  }

  /** Applying one result only grows the tables, and keeps them
      consistent. */
  lemma ApplyResultGrows(t: Tables, o: ProcessedOrder, now: Timestamp, faults: Faults, step: nat)
    requires ApplyResult(t, o, now, faults, step).Ok?
    ensures Grows(t, ApplyResult(t, o, now, faults, step).value)
    ensures Consistent(t) ==> Consistent(ApplyResult(t, o, now, faults, step).value)
  {
    var t' := ApplyResult(t, o, now, faults, step).value;
    assert t'.operations[..|t.operations|] == t.operations;
    forall k | Consistent(t) && 0 <= k < |t'.operations|
      ensures t'.operations[k].number in t'.orders
      ensures t'.operations[k].userId == t'.orders[t'.operations[k].number].userId
    {
      if k < |t.operations| {
        assert t'.operations[k] == t.operations[k];
      }
    }
  }

  /** A whole run keeps the tables consistent and only grows them, whether
      it ends in success or not. */
  lemma {:induction false} UpdateFromGrows(t: Tables, ords: seq<ProcessedOrder>, i: nat, now: Timestamp, faults: Faults)
    requires i <= |ords|
    ensures Grows(t, UpdateFrom(t, ords, i, now, faults).tables)
    ensures Consistent(t) ==> Consistent(UpdateFrom(t, ords, i, now, faults).tables)
    decreases |ords| - i
  {
    if i < |ords| {
      var a := ApplyResult(t, ords[i], now, faults, 3 + i);
      if a.Ok? {
        ApplyResultGrows(t, ords[i], now, faults, 3 + i);
        UpdateFromGrows(a.value, ords, i + 1, now, faults);
        GrowsTransitive(t, a.value, UpdateFrom(t, ords, i, now, faults).tables);
      }
    }
  }

  /** Non-atomicity: when a result fails, the results before it stay
      written. The tables a failed run leaves are exactly those of a
      successful run of the results before the failing one `k`, and result
      `k` fails on them. */
  lemma {:induction false} UpdateFromFailure(t: Tables, ords: seq<ProcessedOrder>, i: nat, now: Timestamp, faults: Faults)
    requires i <= |ords|
    requires UpdateFrom(t, ords, i, now, faults).outcome.Fail?
    ensures exists k :: i <= k < |ords|
              && UpdateFrom(t, ords[..k], i, now, faults) == Run(UpdateFrom(t, ords, i, now, faults).tables, Pass)
              && ApplyResult(UpdateFrom(t, ords, i, now, faults).tables, ords[k], now, faults, 3 + k).Err?
    decreases |ords| - i
  {
    var a := ApplyResult(t, ords[i], now, faults, 3 + i);
    if a.Err? {
      assert UpdateFrom(t, ords[..i], i, now, faults) == Run(t, Pass);
    } else {
      UpdateFromFailure(a.value, ords, i + 1, now, faults);
      var k :| i + 1 <= k < |ords|
              && UpdateFrom(a.value, ords[..k], i + 1, now, faults) == Run(UpdateFrom(a.value, ords, i + 1, now, faults).tables, Pass)
              && ApplyResult(UpdateFrom(a.value, ords, i + 1, now, faults).tables, ords[k], now, faults, 3 + k).Err?;
      assert ords[..k][i] == ords[i];
      assert UpdateFrom(t, ords[..k], i, now, faults) == UpdateFrom(a.value, ords[..k], i + 1, now, faults);
    }
  }

  /** The operations a successful run of results inserts: one per result
      with an accrual, for the owner of its order, in slice order. */
  function ResultCredits(orders: map<GoString, OrderRow>, ords: seq<ProcessedOrder>, now: Timestamp): seq<OpRow>
  {
    if ords == [] then []
    else
      var o := ords[0];
      (if o.accrual.Some? && o.number in orders then [OpRow(orders[o.number].userId, o.number, o.accrual.value, now)] else [])
      + ResultCredits(orders, ords[1..], now)
  }

  /** Order `n`'s status once `ords` is applied to status `d`: the
      normalised status of the last result for `n`, or `d` when there is
      none. */
  function StatusAfter(ords: seq<ProcessedOrder>, n: GoString, d: GoString): GoString
  {
    if ords == [] then d
    else
      var s := Normalize(ords[0].status);
      StatusAfter(ords[1..], n, if ords[0].number == n && s.Some? then s.value else d)
  }

  /** Credits depend only on which orders exist and who owns them. */
  lemma {:induction false} ResultCreditsOwners(o1: map<GoString, OrderRow>, o2: map<GoString, OrderRow>, ords: seq<ProcessedOrder>, now: Timestamp)
    requires o1.Keys == o2.Keys
    requires forall n :: n in o1 ==> o1[n].userId == o2[n].userId
    ensures ResultCredits(o1, ords, now) == ResultCredits(o2, ords, now)
  {
    if ords != [] {
      ResultCreditsOwners(o1, o2, ords[1..], now);
    }
  }

  /** A result that is stored had a known status and, with an accrual, an
      existing order; it keeps the orders and their owners and appends
      exactly its own credit. */
  lemma ApplyResultSuccess(t: Tables, o: ProcessedOrder, now: Timestamp, faults: Faults, step: nat)
    requires ApplyResult(t, o, now, faults, step).Ok?
    ensures Normalize(o.status).Some?
    ensures o.accrual.Some? ==> o.number in t.orders
    ensures ApplyResult(t, o, now, faults, step).value.orders.Keys == t.orders.Keys
    ensures forall n :: n in t.orders ==> ApplyResult(t, o, now, faults, step).value.orders[n].userId == t.orders[n].userId
    ensures ApplyResult(t, o, now, faults, step).value.operations == t.operations + ResultCredits(t.orders, [o], now)
  {
    assert [o][1..] == [];
  }

  /** A successful run of results `i..` refuses no result: every status
      is one it knows, and every result with an accrual names an existing
      order. */
  lemma {:induction false} UpdateFromAccepted(t: Tables, ords: seq<ProcessedOrder>, i: nat, now: Timestamp, faults: Faults)
    requires i <= |ords|
    requires UpdateFrom(t, ords, i, now, faults).outcome == Pass
    ensures forall j :: i <= j < |ords| ==> Normalize(ords[j].status).Some?
    ensures forall j :: i <= j < |ords| && ords[j].accrual.Some? ==> ords[j].number in t.orders
    decreases |ords| - i
  {
    if i < |ords| {
      var a := ApplyResult(t, ords[i], now, faults, 3 + i);
      assert a.Ok?;
      ApplyResultSuccess(t, ords[i], now, faults, 3 + i);
      UpdateFromAccepted(a.value, ords, i + 1, now, faults);
    }
  }

  /** The first step of a successful run stores its result, and the run
      goes on from the tables that result leaves. */
  lemma UpdateFromStep(t: Tables, ords: seq<ProcessedOrder>, i: nat, now: Timestamp, faults: Faults)
    requires i < |ords|
    requires UpdateFrom(t, ords, i, now, faults).outcome == Pass
    ensures ApplyResult(t, ords[i], now, faults, 3 + i).Ok?
    ensures UpdateFrom(t, ords, i, now, faults) == UpdateFrom(ApplyResult(t, ords[i], now, faults, 3 + i).value, ords, i + 1, now, faults)
  {
  }

  /** A successful run of results `i..` appends exactly the credits of
      those results. */
  lemma {:induction false} UpdateFromCredits(t: Tables, ords: seq<ProcessedOrder>, i: nat, now: Timestamp, faults: Faults)
    requires i <= |ords|
    requires UpdateFrom(t, ords, i, now, faults).outcome == Pass
    ensures UpdateFrom(t, ords, i, now, faults).tables.operations == t.operations + ResultCredits(t.orders, ords[i..], now)
    decreases |ords| - i
  {
    if i == |ords| {
      assert ords[i..] == [];
    } else {
      var o := ords[i];
      UpdateFromStep(t, ords, i, now, faults);
      var t' := ApplyResult(t, o, now, faults, 3 + i).value;
      var rest := ords[i + 1..];
      assert UpdateFrom(t', ords, i + 1, now, faults).tables.operations == t'.operations + ResultCredits(t'.orders, rest, now) by {
        UpdateFromCredits(t', ords, i + 1, now, faults);
      }
      assert t'.operations == t.operations + ResultCredits(t.orders, [o], now)
          && ResultCredits(t'.orders, rest, now) == ResultCredits(t.orders, rest, now) by {
        ApplyResultSuccess(t, o, now, faults, 3 + i);
        ResultCreditsOwners(t'.orders, t.orders, rest, now);
      }
      ResultCreditsSplit(t.orders, ords, i, now);
    }
  }

  /** The credits of results `i..` are those of result `i` followed by
      those of the rest. */
  lemma ResultCreditsSplit(orders: map<GoString, OrderRow>, ords: seq<ProcessedOrder>, i: nat, now: Timestamp)
    requires i < |ords|
    ensures ResultCredits(orders, ords[i..], now) == ResultCredits(orders, [ords[i]], now) + ResultCredits(orders, ords[i + 1..], now)
  {
    assert ords[i..][0] == ords[i] && ords[i..][1..] == ords[i + 1..];
    assert [ords[i]][1..] == [];
  }

  /** Both together: a successful run refuses no result and appends
      exactly the credits of its results. */
  lemma UpdateFromSuccess(t: Tables, ords: seq<ProcessedOrder>, i: nat, now: Timestamp, faults: Faults)
    requires i <= |ords|
    requires UpdateFrom(t, ords, i, now, faults).outcome == Pass
    ensures forall j :: i <= j < |ords| ==> Normalize(ords[j].status).Some?
    ensures forall j :: i <= j < |ords| && ords[j].accrual.Some? ==> ords[j].number in t.orders
    ensures UpdateFrom(t, ords, i, now, faults).tables.operations == t.operations + ResultCredits(t.orders, ords[i..], now)
  {
    UpdateFromAccepted(t, ords, i, now, faults);
    UpdateFromCredits(t, ords, i, now, faults);
  }

  /** After a successful run of results `i..`, every order has the status
      of its last result, or its old status when it has none. */
  lemma {:induction false} UpdateFromStatuses(t: Tables, ords: seq<ProcessedOrder>, i: nat, now: Timestamp, faults: Faults, n: GoString)
    requires i <= |ords|
    requires UpdateFrom(t, ords, i, now, faults).outcome == Pass
    requires n in t.orders
    ensures n in UpdateFrom(t, ords, i, now, faults).tables.orders
    ensures UpdateFrom(t, ords, i, now, faults).tables.orders[n].status == StatusAfter(ords[i..], n, t.orders[n].status)
    decreases |ords| - i
  {
    if i == |ords| {
      assert ords[i..] == [];
    } else {
      var o := ords[i];
      var t' := ApplyResult(t, o, now, faults, 3 + i).value;
      assert n in t'.orders;
      UpdateFromStatuses(t', ords, i + 1, now, faults, n);
      assert ords[i..][0] == o && ords[i..][1..] == ords[i + 1..];
    }
  }

  /** Reconciliation settles: after a successful `UpdateAccrual`, an order
      whose last result was PROCESSED or INVALID is no longer pending, so
      the next poll does not ask about it again. */
  lemma SettledNotPending(t: Tables, ords: seq<ProcessedOrder>, now: Timestamp, faults: Faults, n: GoString)
    requires UpdateAccrualRun(t, ords, now, faults).outcome == Pass
    requires n in t.orders
    requires StatusAfter(ords, n, t.orders[n].status) in {"PROCESSED", "INVALID"}
    ensures n !in PendingSet(UpdateAccrualRun(t, ords, now, faults).tables)
  {
    UpdateFromStatuses(t, ords, 0, now, faults, n);
    assert ords[0..] == ords;
  }

  /** The operations a successful `AddAccrualOperation` inserts: one per
      entry with a non-zero amount, for the owner of its order. */
  function NonZeroCredits(orders: map<GoString, OrderRow>, ords: seq<ProcessedOrder>, now: Timestamp): seq<OpRow>
    requires forall j :: 0 <= j < |ords| ==> ords[j].accrual.Some?
  {
    if ords == [] then []
    else
      var o := ords[0];
      (if o.accrual.value != 0 && o.number in orders then [OpRow(orders[o.number].userId, o.number, o.accrual.value, now)] else [])
      + NonZeroCredits(orders, ords[1..], now)
  }

  /** The number of entries with a non-zero amount. */
  function NonZeroCount(ords: seq<ProcessedOrder>): nat
    requires forall j :: 0 <= j < |ords| ==> ords[j].accrual.Some?
  {
    if ords == [] then 0
    else (if ords[0].accrual.value != 0 then 1 else 0) + NonZeroCount(ords[1..])
  }

  /** A successful run of entries `i..` changes only `operations`, to which
      it appends one row per non-zero entry, each for an existing order. */
  lemma {:induction false} CreditFromSuccess(t: Tables, ords: seq<ProcessedOrder>, i: nat, now: Timestamp, faults: Faults)
    requires i <= |ords|
    requires forall j :: 0 <= j < |ords| ==> ords[j].accrual.Some?
    requires CreditFrom(t, ords, i, now, faults).outcome == Pass
    ensures forall j :: i <= j < |ords| && ords[j].accrual.value != 0 ==> ords[j].number in t.orders
    ensures CreditFrom(t, ords, i, now, faults).tables == t.(operations := t.operations + NonZeroCredits(t.orders, ords[i..], now))
    ensures |NonZeroCredits(t.orders, ords[i..], now)| == NonZeroCount(ords[i..])
    decreases |ords| - i
  {
    if i == |ords| {
      assert ords[i..] == [];
    } else {
      var t' := CreditResult(t, ords[i], now, faults, 1 + i).value;
      CreditFromSuccess(t', ords, i + 1, now, faults);
      assert ords[i..][0] == ords[i] && ords[i..][1..] == ords[i + 1..];
    }
  }

  /** Appending one row appends its ledger record to its owner's list. */
  lemma RowsOfAppend(rows: seq<OpRow>, row: OpRow, uid: int)
    ensures RowsOf(rows + [row], uid)
            == RowsOf(rows, uid) + (if row.userId == uid then [B.Operation(row.number, row.accrual, row.processedAt)] else [])
  {
    assert (rows + [row])[..|rows|] == rows;
  }

  /** Every amount with its sign flipped. */
  function Negated(ops: seq<B.Operation>): (r: seq<B.Operation>)
    ensures |r| == |ops|
    ensures forall i :: 0 <= i < |ops| ==> r[i] == ops[i].(accrual := -ops[i].accrual)
  {
    seq(|ops|, i requires 0 <= i < |ops| => ops[i].(accrual := -ops[i].accrual))
  }

  /** Flipping every sign flips the sum. */
  lemma {:induction false} NegatedCurrent(ops: seq<B.Operation>)
    ensures B.Current(Negated(ops)) == -B.Current(ops)
  {
    if ops != [] {
      var init := ops[..|ops| - 1];
      NegatedCurrent(init);
      assert Negated(ops)[..|ops| - 1] == Negated(init);
    }
  }

  /** The tables after a successful withdrawal insert: a NEW order owned
      by the user and one `-sum` operation on it. */
  function AfterWithdrawal(t: Tables, username: GoString, q: B.WithdrawQ, now: Timestamp): Tables
    requires username in t.users
  {
    var id := t.users[username];
    t.(orders := t.orders[q.order := OrderRow(id, "NEW", now)],
       operations := t.operations + [OpRow(id, q.order, -q.sum, now)])
  }

  /** A withdrawal insert keeps the tables consistent and makes the new
      order pending. */
  lemma AfterWithdrawalConsistent(t: Tables, username: GoString, q: B.WithdrawQ, now: Timestamp)
    requires Consistent(t) && username in t.users && q.order !in t.orders
    ensures Consistent(AfterWithdrawal(t, username, q, now))
    ensures q.order in PendingSet(AfterWithdrawal(t, username, q, now))
  {
    var t' := AfterWithdrawal(t, username, q, now);
    forall k | 0 <= k < |t'.operations|
      ensures t'.operations[k].number in t'.orders
      ensures t'.operations[k].userId == t'.orders[t'.operations[k].number].userId
    {
      if k < |t.operations| {
        assert t'.operations[k] == t.operations[k];
        assert t.operations[k].number != q.order;
      }
    }
    assert t'.orders[q.order].userId == t.users[username];
  }

  /** A withdrawal insert adds one `-sum` record to the user's ledger,
      which lowers their balance by the sum, and leaves every other user's
      ledger alone. */
  lemma AfterWithdrawalLedgers(t: Tables, username: GoString, q: B.WithdrawQ, now: Timestamp)
    requires Consistent(t) && username in t.users
    ensures UserOperations(AfterWithdrawal(t, username, q, now), username) == UserOperations(t, username) + [B.Operation(q.order, -q.sum, now)]
    ensures B.Current(UserOperations(AfterWithdrawal(t, username, q, now), username)) == B.Current(UserOperations(t, username)) - q.sum
    ensures forall u :: u != username ==> UserOperations(AfterWithdrawal(t, username, q, now), u) == UserOperations(t, u)
  {
    var id := t.users[username];
    var row := OpRow(id, q.order, -q.sum, now);
    assert AfterWithdrawal(t, username, q, now).operations == t.operations + [row];
    RowsOfAppend(t.operations, row, id);
    forall u | u in t.users && u != username
      ensures RowsOf(t.operations + [row], t.users[u]) == RowsOf(t.operations, t.users[u])
    {
      RowsOfAppend(t.operations, row, t.users[u]);
    }
    B.AppendOperation(UserOperations(t, username), B.Operation(q.order, -q.sum, now));
  }

  /** What `Withdraw` returns on tables `t`, its checks in their order:
      the two balance reads, the Luhn check, the funds, then the insert,
      which refuses an unknown user (NULL owner) or a taken number. */
  function WithdrawVerdict(t: Tables, username: GoString, q: B.WithdrawQ, faults: Faults): Outcome
  {
    if 0 in faults then Fail(faults[0])
    else if 1 in faults then Fail(faults[1])
    else if !Luhn.Accepts(q.order) then Fail(WrongOrder)
    else if B.Current(UserOperations(t, username)) < q.sum then Fail(InsufficientFunds)
    else if 2 in faults then Fail(faults[2])
    else if username !in t.users || q.order in t.orders then Fail(ConstraintViolation)
    else Pass
  }

  /** A withdrawal that goes through passed every check: the number is
      Luhn-valid and new, and the balance covered the sum, so it stays
      non-negative after dropping by the sum. The new order is pending,
      and no other user's ledger moves. */
  lemma WithdrawSucceeds(t: Tables, username: GoString, q: B.WithdrawQ, faults: Faults, now: Timestamp)
    requires Consistent(t)
    requires WithdrawVerdict(t, username, q, faults) == Pass
    ensures Luhn.Accepts(q.order) && username in t.users && q.order !in t.orders
    ensures B.Current(UserOperations(AfterWithdrawal(t, username, q, now), username)) == B.Current(UserOperations(t, username)) - q.sum >= 0
    ensures q.order in PendingSet(AfterWithdrawal(t, username, q, now))
    ensures forall u :: u != username ==> UserOperations(AfterWithdrawal(t, username, q, now), u) == UserOperations(t, u)
  {
    AfterWithdrawalConsistent(t, username, q, now);
    AfterWithdrawalLedgers(t, username, q, now);
  }

  /** A client scenario: two users claiming the same unseen number, one
      after the other, with no driver failure. The first claim succeeds,
      the second is told the number belongs to someone else, and the
      number stays the first user's. */
  method ClaimTwice(db: SQLdb, n: GoString, a: GoString, b: GoString, now: Timestamp) returns (first: Outcome, second: Outcome)
    requires db.Valid()
    requires a in db.users && b in db.users && a != b && n !in db.orders
    modifies db
    ensures first == Pass && second == Fail(OrderLoadedAnotherUser)
    ensures a in db.users && n in db.orders && db.orders[n].userId == db.users[a]
  {
    first := db.SetOrder(n, a, now, map[]);
    second := db.SetOrder(n, b, now, map[]);
  }

  // ---------------------------------------------------------------------
  // The store

  /** `SQLdb`: the three tables, changed by its methods row by row. */
  class SQLdb {
    var users: map<GoString, int>
    var orders: map<GoString, OrderRow>
    var operations: seq<OpRow>

    function State(): Tables
      reads this
    {
      Tables(users, orders, operations)
    }

    ghost predicate Valid()
      reads this
    {
      Consistent(State())
    }

    constructor (users: map<GoString, int>)
      requires forall u, w :: u in users && w in users && u != w ==> users[u] != users[w]
      ensures this.users == users && orders == map[] && operations == []
      ensures Valid()
    {
      this.users := users;
      orders := map[];
      operations := [];
    }

    /** Claims `ordernumber` for `username`. Statement 0 reads the user's
        id, 1 reads the number's owner, 2 inserts the order. Only a lookup
        that finds no row inserts; a found owner, or a failed lookup (which
        leaves the owner read as ""), is compared with the caller. */
    method SetOrder(ordernumber: GoString, username: GoString, now: Timestamp, faults: Faults) returns (err: Outcome)
      requires Valid()
      modifies this
      ensures Valid()
      ensures users == old(users) && operations == old(operations)
      ensures err != Pass ==> orders == old(orders)
      ensures err == Pass ==>
                username in users && ordernumber !in old(orders)
                && orders == old(orders)[ordernumber := OrderRow(users[username], "NEW", now)]
      ensures 0 in faults ==> err == Fail(faults[0])
      ensures 0 !in faults && username !in users ==> err == Fail(NoRows)
      ensures 0 !in faults && username in users && 1 !in faults && ordernumber !in old(orders) ==>
                err == (if 2 in faults then Fail(faults[2]) else Pass)
      ensures 0 !in faults && username in users && 1 !in faults && ordernumber in old(orders) ==>
                err == Fail(if OwnerOf(old(State()), ordernumber) == username then OrderLoadedThisUser else OrderLoadedAnotherUser)
      ensures 0 !in faults && username in users && 1 in faults && faults[1] != NoRows ==>
                err == Fail(if username == "" then OrderLoadedThisUser else OrderLoadedAnotherUser)
    {
      if 0 in faults {
        return Fail(faults[0]);
      }
      if username !in users {
        return Fail(NoRows);
      }
      var id := users[username];
      var userq: GoString := "";
      var lookup: Outcome;
      if 1 in faults {
        lookup := Fail(faults[1]);
      } else if ordernumber !in orders {
        lookup := Fail(NoRows);
      } else {
        var owner :| owner in users && users[owner] == orders[ordernumber].userId;
        assert owner == OwnerOf(State(), ordernumber);
        userq := owner;
        lookup := Pass;
      }
      if lookup == Fail(NoRows) {
        if 2 in faults {
          return Fail(faults[2]);
        }
        if ordernumber in orders {
          return Fail(ConstraintViolation);
        }
        orders := orders[ordernumber := OrderRow(id, "NEW", now)];
        assert forall k :: 0 <= k < |operations| ==> operations[k].number != ordernumber;
        return Pass;
      } else if userq == username {
        return Fail(OrderLoadedThisUser);
      } else {
        return Fail(OrderLoadedAnotherUser);
      }
    }

    /** The caller's orders. Statement 0 runs the query, `2 + k` reads the
        accrual of the `k`-th row shown when that row is PROCESSED, and 1
        is the final row-error check. Rows come in an unspecified order;
        no rows is `ErrNoOrders`. */
    method GetOrders(username: GoString, faults: Faults) returns (r: Result<seq<Order>>)
      ensures 0 in faults ==> r == Err(faults[0])
      ensures r.Ok? ==> |r.value| > 0 && Distinct(NumbersOf(r.value))
      ensures r.Ok? ==> forall n :: n in NumbersOf(r.value) <==> n in UserNumbers(State(), username)
      ensures r.Ok? ==> forall i :: 0 <= i < |r.value| ==> ShownAs(State(), r.value[i])
      ensures faults == map[] && UserNumbers(State(), username) == {} ==> r == Err(NoOrders)
      ensures NoOrders !in faults.Values && r == Err(NoOrders) ==> UserNumbers(State(), username) == {}
      ensures faults == map[] && r.Err? && r.error != NoOrders ==>
                r.error == NoRows && MissingAccrual(State(), username)
      ensures faults == map[] && MissingAccrual(State(), username) ==> r == Err(NoRows)
      ensures r.Ok? ==> forall i :: 0 <= i < |r.value| && r.value[i].status == "PROCESSED" ==> r.value[i].accrual.Some?
    {
      if 0 in faults {
        return Err(faults[0]);
      }
      var rows := UserNumbers(State(), username);
      var ords: seq<Order> := [];
      while rows != {}
        invariant rows <= UserNumbers(State(), username)
        invariant Distinct(NumbersOf(ords))
        invariant forall n :: n in UserNumbers(State(), username) <==> n in rows || n in NumbersOf(ords)
        invariant forall n :: n in rows ==> n !in NumbersOf(ords)
        invariant forall i :: 0 <= i < |ords| ==> ShownAs(State(), ords[i])
        invariant forall i :: 0 <= i < |ords| && ords[i].status == "PROCESSED" ==> ords[i].accrual.Some?
        decreases |rows|
      {
        var n :| n in rows;
        var row := orders[n];
        var ord := Order(n, row.status, None, row.uploadedAt);
        if row.status == "PROCESSED" {
          if 2 + |ords| in faults {
            return Err(faults[2 + |ords|]);
          }
          var acc := FirstAccrual(operations, n);
          if acc.None? {
            return Err(NoRows);
          }
          ord := ord.(accrual := acc);
        }
        assert NumbersOf(ords + [ord]) == NumbersOf(ords) + [n];
        ords := ords + [ord];
        rows := rows - {n};
      }
      if 1 in faults {
        return Err(faults[1]);
      }
      if |ords| == 0 {
        return Err(NoOrders);
      }
      assert NumbersOf(ords)[0] in UserNumbers(State(), username);
      return Ok(ords);
    }

    /** The numbers of all NEW or PROCESSING orders, each once, in an
        unspecified order. Statement 0 runs the query, 1 is the row-error
        check. */
    method GetOrdersForAccrual(faults: Faults) returns (r: Result<seq<GoString>>)
      ensures 0 in faults ==> r == Err(faults[0])
      ensures 0 !in faults && 1 in faults ==> r == Err(faults[1])
      ensures 0 !in faults && 1 !in faults ==> r.Ok?
      ensures r.Ok? ==> Distinct(r.value) && forall n :: n in r.value <==> n in PendingSet(State())
      ensures r.Ok? ==> |r.value| == |PendingSet(State())|
    {
      if 0 in faults {
        return Err(faults[0]);
      }
      var rows := PendingSet(State());
      var results: seq<GoString> := [];
      while rows != {}
        invariant rows <= PendingSet(State())
        invariant Distinct(results)
        invariant forall n :: n in PendingSet(State()) <==> n in rows || n in results
        invariant forall n :: n in rows ==> n !in results
        invariant |results| + |rows| == |PendingSet(State())|
        decreases |rows|
      {
        var number :| number in rows;
        results := results + [number];
        rows := rows - {number};
      }
      if 1 in faults {
        return Err(faults[1]);
      }
      return Ok(results);
    }

    /** Stores accrual results in slice order: each status is normalised,
        and a result with an accrual also credits the order's owner. Each
        write commits on its own, so a failure keeps the writes before it
        (`UpdateFromFailure`). */
    method UpdateAccrual(ords: seq<ProcessedOrder>, now: Timestamp, faults: Faults) returns (err: Outcome)
      requires Valid()
      modifies this
      ensures Valid()
      ensures Run(State(), err) == UpdateAccrualRun(old(State()), ords, now, faults)
    {
      if 0 in faults {
        return Fail(faults[0]);
      }
      if 1 in faults {
        return Fail(faults[1]);
      }
      if 2 in faults {
        return Fail(faults[2]);
      }
      for i := 0 to |ords|
        invariant Valid()
        invariant UpdateFrom(State(), ords, i, now, faults) == UpdateFrom(old(State()), ords, 0, now, faults)
      {
        var o := ords[i];
        var status: GoString;
        if o.status == "NEW" {
          status := "NEW";
        } else if o.status == "REGISTERED" {
          status := "PROCESSING";
        } else if o.status == "PROCESSING" {
          status := "PROCESSING";
        } else if o.status == "PROCESSED" {
          status := "PROCESSED";
        } else if o.status == "INVALID" {
          status := "INVALID";
        } else {
          return Fail(UnexpectedStatus);
        }
        if 3 + i in faults {
          return Fail(faults[3 + i]);
        }
        ghost var before := State();
        if o.accrual.Some? {
          if o.number !in orders {
            return Fail(ConstraintViolation);
          }
          var row := orders[o.number];
          orders := orders[o.number := row.(status := status)];
          operations := operations + [OpRow(row.userId, o.number, o.accrual.value, now)];
        } else if o.number in orders {
          orders := orders[o.number := orders[o.number].(status := status)];
        }
        assert State() == ApplyResult(before, o, now, faults, 3 + i).value;
        ApplyResultGrows(before, o, now, faults, 3 + i);
      }
      if 3 + |ords| in faults {
        return Fail(faults[3 + |ords|]);
      }
      return Pass;
    }

    /** Credits each entry's amount to its order's owner, skipping zero
        amounts. Every entry must carry an amount. */
    method AddAccrualOperation(ords: seq<ProcessedOrder>, now: Timestamp, faults: Faults) returns (err: Outcome)
      requires Valid()
      requires forall j :: 0 <= j < |ords| ==> ords[j].accrual.Some?
      modifies this
      ensures Valid()
      ensures Run(State(), err) == AddAccrualRun(old(State()), ords, now, faults)
    {
      if 0 in faults {
        return Fail(faults[0]);
      }
      for i := 0 to |ords|
        invariant Valid()
        invariant CreditFrom(State(), ords, i, now, faults) == CreditFrom(old(State()), ords, 0, now, faults)
      {
        var o := ords[i];
        if o.accrual.value == 0 {
          continue;
        }
        if 1 + i in faults {
          return Fail(faults[1 + i]);
        }
        if o.number !in orders {
          return Fail(ConstraintViolation);
        }
        operations := operations + [OpRow(orders[o.number].userId, o.number, o.accrual.value, now)];
      }
      if 1 + |ords| in faults {
        return Fail(faults[1 + |ords|]);
      }
      return Pass;
    }

    /** The user's balance: statement 0 sums all their amounts, statement 1
        the negative ones, whose sum is negated into the withdrawn total.
        An unknown user has no rows, so {0, 0}. */
    method GetBalance(username: GoString, faults: Faults) returns (r: Result<B.Balance>)
      ensures 0 in faults ==> r == Err(faults[0])
      ensures 0 !in faults && 1 in faults ==> r == Err(faults[1])
      ensures 0 !in faults && 1 !in faults ==> r == Ok(B.BalanceOf(UserOperations(State(), username)))
    {
      if 0 in faults {
        return Err(faults[0]);
      }
      var current := B.Current(UserOperations(State(), username));
      if 1 in faults {
        return Err(faults[1]);
      }
      var withdrawn := B.NegativeTotal(UserOperations(State(), username));
      if withdrawn != 0 {
        withdrawn := withdrawn * -1;
      }
      return Ok(B.Balance(current, withdrawn));
    }

    /** The user's debits in table order, each negated to a positive
        amount; they add up to the withdrawn total of `GetBalance`.
        Statement 0 runs the query, 1 is the row-error check. */
    method GetWithdrawals(username: GoString, faults: Faults) returns (r: Result<seq<B.Operation>>)
      ensures 0 in faults ==> r == Err(faults[0])
      ensures 0 !in faults && 1 in faults ==> r == Err(faults[1])
      ensures 0 !in faults && 1 !in faults ==> r.Ok?
      ensures r.Ok? ==> r.value == Negated(B.Debits(UserOperations(State(), username)))
      ensures r.Ok? ==> forall i :: 0 <= i < |r.value| ==> r.value[i].accrual > 0
      ensures r.Ok? ==> B.Current(r.value) == B.Withdrawn(UserOperations(State(), username))
    {
      if 0 in faults {
        return Err(faults[0]);
      }
      var mine := UserOperations(State(), username);
      var rows := B.Debits(mine);
      var ops: seq<B.Operation> := [];
      for i := 0 to |rows|
        invariant ops == Negated(rows[..i])
      {
        var op := rows[i];
        op := op.(accrual := op.accrual * -1);
        assert Negated(rows[..i + 1]) == Negated(rows[..i]) + [op];
        ops := ops + [op];
      }
      if 1 in faults {
        return Err(faults[1]);
      }
      assert rows[..|rows|] == rows;
      NegatedCurrent(rows);
      B.DebitsTotal(mine);
      return Ok(ops);
    }

    /** A withdrawal of `q.sum` against the new order `q.order`. The
        balance is read first (statements 0 and 1), then the number is
        Luhn-checked, then the funds; statement 2 inserts a NEW order and a
        `-sum` operation together, and fails whole when the number is taken
        or the user unknown. */
    method Withdraw(username: GoString, q: B.WithdrawQ, now: Timestamp, faults: Faults) returns (err: Outcome)
      requires Valid()
      modifies this
      ensures Valid()
      ensures err == WithdrawVerdict(old(State()), username, q, faults)
      ensures err != Pass ==> State() == old(State())
      ensures err == Pass ==> username in old(users) && State() == AfterWithdrawal(old(State()), username, q, now)
    {
      var currentbalance := GetBalance(username, faults);
      if currentbalance.Err? {
        return Fail(currentbalance.error);
      }
      var pass := LuhnCheck(q.order);
      if !pass {
        return Fail(WrongOrder);
      }
      if currentbalance.value.current < q.sum {
        return Fail(InsufficientFunds);
      }
      if 2 in faults {
        return Fail(faults[2]);
      }
      if username !in users || q.order in orders {
        return Fail(ConstraintViolation);
      }
      ghost var before := State();
      assert WithdrawVerdict(before, username, q, faults) == Pass;
      AfterWithdrawalConsistent(before, username, q, now);
      var id := users[username];
      orders := orders[q.order := OrderRow(id, "NEW", now)];
      operations := operations + [OpRow(id, q.order, -q.sum, now)];
      assert State() == AfterWithdrawal(before, username, q, now);
      return Pass;
    }
  }
}
