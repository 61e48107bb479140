/** Package orders: the order record, the processed-order record the accrual
    service returns, the order-number check, and the "pending order"
    selection both in-memory stores perform. */
module Orders {
  import opened Base
  import Luhn

  /** A stored order. `accrual` is the optional `*int` of the Go struct. */
  datatype Order = Order(number: GoString, status: GoString, accrual: Option<int>, uploadedAt: Timestamp)

  /** An order as the accrual service reports it; `accrual` is the optional
      `*float32`, modelled as an integer. */
  datatype ProcessedOrder = ProcessedOrder(number: GoString, status: GoString, accrual: Option<int>)

  /** The statuses the accrual worker still asks about. */
  predicate IsPending(status: GoString)
  {
    status == "PROCESSING" || status == "NEW"
  }

  /** `LuhnCheck`: walks the bytes right to left, doubling every second
      one, and accepts when the sum is divisible by 10. */
  method LuhnCheck(ordernumber: GoString) returns (ok: bool)
    ensures ok == Luhn.Accepts(ordernumber)
  {
    var sum := 0;
    var digit := 0;
    var even := false;
    var i := |ordernumber| - 1;
    assert ordernumber[..i + 1] == ordernumber;
    while i >= 0
      invariant -1 <= i < |ordernumber|
      invariant sum + Luhn.LoopSum(ordernumber[..i + 1], even) == Luhn.LoopSum(ordernumber, false)
    {
      assert ordernumber[..i + 1][..i] == ordernumber[..i];
      digit := (ordernumber[i] as int - '0' as int) % 256;
      if even {
        digit := digit * 2;
        if digit > 9 {
          digit := digit - 9;
        }
      }
      sum := sum + digit;
      even := !even;
      i := i - 1;
    }
    assert ordernumber[..0] == [];
    ok := sum % 10 == 0;
  }

  /** The numbers of the pending orders of one list, in list order. */
  function PendingNumbers(os: seq<Order>): (r: seq<GoString>)
    ensures |r| <= |os|
    ensures forall n :: n in r <==> exists i :: 0 <= i < |os| && os[i].number == n && IsPending(os[i].status)
  {
    if os == [] then []
    else
      var last := os[|os| - 1];
      PendingNumbers(os[..|os| - 1]) + (if IsPending(last.status) then [last.number] else [])
  }

  /** The pending numbers of a map from owner to order list, counted with
      multiplicity: Go visits the map in an unspecified order, so only the
      multiset is determined. */
  ghost function PendingOf(m: map<GoString, seq<Order>>): multiset<GoString>
    decreases |m|
  {
    if m == map[] then multiset{}
    else
      var u := Pick(m);
      RemoveKeySize(m, u);
      multiset(PendingNumbers(m[u])) + PendingOf(m - {u})
  }

  /** Some key of a non-empty map. */
  ghost function Pick<V>(m: map<GoString, V>): (u: GoString)
    requires m != map[]
    ensures u in m
  {
    assert m.Keys != {};
    var u :| u in m; u
  }

  /** Taking one key out of a map shrinks it by one. */
  lemma RemoveKeySize<V>(m: map<GoString, V>, u: GoString)
    requires u in m
    ensures |m - {u}| == |m| - 1
  {
    assert (m - {u}).Keys == m.Keys - {u};
  }

  /** `PendingOf` does not depend on which owner is visited first: any owner
      may be taken out first. */
  lemma {:induction false} PendingOfPick(m: map<GoString, seq<Order>>, u: GoString)
    requires u in m
    ensures PendingOf(m) == multiset(PendingNumbers(m[u])) + PendingOf(m - {u})
    decreases |m|
  {
    var v := Pick(m);
    if v != u {
      RemoveKeySize(m, u);
      RemoveKeySize(m, v);
      var rest := (m - {v}) - {u};
      assert rest == (m - {u}) - {v};
      PendingOfPick(m - {v}, u);
      PendingOfPick(m - {u}, v);
      var a, b := multiset(PendingNumbers(m[u])), multiset(PendingNumbers(m[v]));
      calc {
        PendingOf(m);
        b + PendingOf(m - {v});
        b + (a + PendingOf(rest));
        a + (b + PendingOf(rest));
        a + PendingOf(m - {u});
      }
    }
  }

  /** One step of collecting the pending numbers owner by owner: when
      `acc` holds what the owners already visited contribute, appending
      `u`'s pending numbers and dropping `u` keeps that true. */
  lemma CollectOwner(m: map<GoString, seq<Order>>, u: GoString, acc: seq<GoString>, total: multiset<GoString>)
    requires u in m
    requires multiset(acc) + PendingOf(m) == total
    ensures multiset(acc + PendingNumbers(m[u])) + PendingOf(m - {u}) == total
    ensures |m - {u}| < |m|
  {
    PendingOfPick(m, u);
    RemoveKeySize(m, u);
  }

  /** A number is among the pending numbers exactly when some owner's list
      holds an order with that number in status NEW or PROCESSING. */
  lemma {:induction false} PendingOfMembers(m: map<GoString, seq<Order>>, x: GoString)
    ensures x in PendingOf(m) <==>
            exists u, i :: u in m && 0 <= i < |m[u]| && m[u][i].number == x && IsPending(m[u][i].status)
    decreases |m|
  {
    if m != map[] {
      var u :| u in m;
      RemoveKeySize(m, u);
      PendingOfPick(m, u);
      PendingOfMembers(m - {u}, x);
      if x in PendingNumbers(m[u]) {
        var i :| 0 <= i < |m[u]| && m[u][i].number == x && IsPending(m[u][i].status);
        assert u in m && 0 <= i < |m[u]| && m[u][i].number == x && IsPending(m[u][i].status);
      }
      if w, i :| w in m && 0 <= i < |m[w]| && m[w][i].number == x && IsPending(m[w][i].status) {
        if w == u {
          assert x in PendingNumbers(m[u]);
        } else {
          var r := m - {u};
          assert w in r && r[w] == m[w];
          assert 0 <= i < |r[w]| && r[w][i].number == x && IsPending(r[w][i].status);
        }
      }
    }
  }

  /** The numbers of a list of orders, in list order. */
  function NumbersOf(os: seq<Order>): (r: seq<GoString>)
    ensures |r| == |os| && forall i :: 0 <= i < |os| ==> r[i] == os[i].number
  {
    seq(|os|, i requires 0 <= i < |os| => os[i].number)
  }

  /** The ownership invariant of the in-memory stores, over `Umap` (number
      to owner) and `Orders` (owner to list): every listed order is claimed
      by the owner of its list, no list names a number twice, and every
      claimed number is listed under its owner. */
  ghost predicate OwnershipConsistent(umap: map<GoString, GoString>, lists: map<GoString, seq<Order>>)
  {
    && (forall u, i :: u in lists && 0 <= i < |lists[u]| ==>
          lists[u][i].number in umap && umap[lists[u][i].number] == u)
    && (forall u, i, j :: u in lists && 0 <= i < j < |lists[u]| ==>
          lists[u][i].number != lists[u][j].number)
    && (forall n :: n in umap ==> umap[n] in lists && n in NumbersOf(lists[umap[n]]))
  }

  /** Under the invariant a number appears in at most one list, at one
      position. */
  lemma NumberListedOnce(umap: map<GoString, GoString>, lists: map<GoString, seq<Order>>,
                         u: GoString, i: nat, w: GoString, j: nat)
    requires OwnershipConsistent(umap, lists)
    requires u in lists && i < |lists[u]| && w in lists && j < |lists[w]|
    requires lists[u][i].number == lists[w][j].number
    ensures u == w && i == j
  {
  }

  /** Claiming an unclaimed number for `u` (recording the owner and
      appending one NEW order to `u`'s list) keeps the invariant. */
  lemma ClaimKeepsOwnership(umap: map<GoString, GoString>, lists: map<GoString, seq<Order>>,
                            n: GoString, u: GoString, now: Timestamp)
    requires OwnershipConsistent(umap, lists) && n !in umap
    ensures OwnershipConsistent(umap[n := u], lists[u := MapGet(lists, u, []) + [Order(n, "NEW", None, now)]])
  {
    var old_list: seq<Order> := MapGet(lists, u, []);
    var new_list: seq<Order> := old_list + [Order(n, "NEW", None, now)];
    var umap': map<GoString, GoString> := umap[n := u];
    var lists': map<GoString, seq<Order>> := lists[u := new_list];
    forall w, i | w in lists' && 0 <= i < |lists'[w]|
      ensures lists'[w][i].number in umap' && umap'[lists'[w][i].number] == w
    {
      if w == u && i < |old_list| {
        assert lists'[w][i] == old_list[i] && u in lists;
      }
    }
    forall w, i, j | w in lists' && 0 <= i < j < |lists'[w]|
      ensures lists'[w][i].number != lists'[w][j].number
    {
      if w == u {
        assert u in lists && lists'[w][i] == lists[u][i];
        if j == |old_list| {
          assert lists[u][i].number in umap;
        } else {
          assert lists'[w][j] == lists[u][j];
        }
      }
    }
    forall m | m in umap'
      ensures umap'[m] in lists' && m in NumbersOf(lists'[umap'[m]])
    {
      if m == n {
        assert NumbersOf(new_list)[|old_list|] == n;
      } else if umap[m] == u {
        var k :| 0 <= k < |lists[u]| && NumbersOf(lists[u])[k] == m;
        assert NumbersOf(new_list)[k] == m;
      }
    }
  }
}
