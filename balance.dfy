/** Package balance: the ledger operation, balance and withdrawal-request
    records, and the sums a balance is derived from. Amounts are `float32`
    in Go and integers here. */
module Balance {
  import opened Base

  /** One ledger entry: positive `accrual` is a credit, negative a debit. */
  datatype Operation = Operation(order: GoString, accrual: int, processedAt: Timestamp)

  datatype Balance = Balance(current: int, withdrawn: int)

  /** A withdrawal request: debit `sum` against order number `order`. */
  datatype WithdrawQ = WithdrawQ(order: GoString, sum: int)

  /** The sum of all amounts. */
  function Current(ops: seq<Operation>): int
  {
    if ops == [] then 0
    else Current(ops[..|ops| - 1]) + ops[|ops| - 1].accrual
  }

  /** The sum of `-amount` over the negative amounts. */
  function Withdrawn(ops: seq<Operation>): (w: int)
    ensures w >= 0
  {
    if ops == [] then 0
    else
      var a := ops[|ops| - 1].accrual;
      Withdrawn(ops[..|ops| - 1]) + (if a < 0 then -a else 0)
  }

  /** The sum of the positive amounts. */
  function Credited(ops: seq<Operation>): (c: int)
    ensures c >= 0
  {
    if ops == [] then 0
    else
      var a := ops[|ops| - 1].accrual;
      Credited(ops[..|ops| - 1]) + (if a > 0 then a else 0)
  }

  /** The balance both stores are meant to report for a list of operations. */
  function BalanceOf(ops: seq<Operation>): Balance
  {
    Balance(Current(ops), Withdrawn(ops))
  }

  /** `SUM(accrual) ... AND accrual < 0`: the sum of the negative amounts,
      which is the withdrawn total negated. */
  function NegativeTotal(ops: seq<Operation>): (n: int)
    ensures n == -Withdrawn(ops)
  {
    if ops == [] then 0
    else
      var a := ops[|ops| - 1].accrual;
      NegativeTotal(ops[..|ops| - 1]) + (if a < 0 then a else 0)
  }

  /** The debits of a list, in list order. */
  function Debits(ops: seq<Operation>): (r: seq<Operation>)
    ensures |r| <= |ops|
    ensures forall i :: 0 <= i < |r| ==> r[i].accrual < 0 && r[i] in ops
  {
    if ops == [] then []
    else
      var last := ops[|ops| - 1];
      Debits(ops[..|ops| - 1]) + (if last.accrual < 0 then [last] else [])
  }

  /** Balance identity: the current balance is what was credited minus what
      was withdrawn. */
  lemma {:induction false} CurrentIsCreditedMinusWithdrawn(ops: seq<Operation>)
    ensures Current(ops) == Credited(ops) - Withdrawn(ops)
  {
    if ops != [] {
      CurrentIsCreditedMinusWithdrawn(ops[..|ops| - 1]);
    }
  }

  /** Appending one operation moves the current balance by its amount and
      the withdrawn total by its size when it is a debit. */
  lemma AppendOperation(ops: seq<Operation>, op: Operation)
    ensures Current(ops + [op]) == Current(ops) + op.accrual
    ensures Withdrawn(ops + [op]) == Withdrawn(ops) + (if op.accrual < 0 then -op.accrual else 0)
    ensures Debits(ops + [op]) == Debits(ops) + (if op.accrual < 0 then [op] else [])
  {
    assert (ops + [op])[..|ops|] == ops;
  }

  /** The current balance of a concatenation is the sum of the parts'. */
  lemma {:induction false} CurrentAppend(a: seq<Operation>, b: seq<Operation>)
    ensures Current(a + b) == Current(a) + Current(b)
    decreases |b|
  {
    if b != [] {
      var b' := b[..|b| - 1];
      assert a + b == (a + b') + [b[|b| - 1]];
      assert b == b' + [b[|b| - 1]];
      AppendOperation(a + b', b[|b| - 1]);
      AppendOperation(b', b[|b| - 1]);
      CurrentAppend(a, b');
    } else {
      assert a + b == a;
    }
  }

  /** The debits' amounts add up to the negated withdrawn total. */
  lemma {:induction false} DebitsTotal(ops: seq<Operation>)
    ensures Current(Debits(ops)) == -Withdrawn(ops)
  {
    if ops != [] {
      var init, last := ops[..|ops| - 1], ops[|ops| - 1];
      assert ops == init + [last];
      DebitsTotal(init);
      AppendOperation(init, last);
      assert Debits(ops) == Debits(init) + (if last.accrual < 0 then [last] else []);
      if last.accrual < 0 {
        AppendOperation(Debits(init), last);
      } else {
        assert Debits(ops) == Debits(init);
      }
    }
  }
}
