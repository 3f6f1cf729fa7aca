/**
 * `getCustomers`: the customer list derived from the orders, one entry per
 * email, built from the first order with that email in query order.
 */
module CustomerController {

  /** The columns `getCustomers` selects from an order. */
  datatype OrderRow = OrderRow(
    customerName: string, customerEmail: string, customerPhone: string,
    customerAddress: string, createdAt: int)

  datatype Customer = Customer(name: string, email: string, phone: string, address: string, firstOrderDate: int)

  function ToCustomer(o: OrderRow): Customer
  {
    Customer(o.customerName, o.customerEmail, o.customerPhone, o.customerAddress, o.createdAt)
  }

  function Emails(orders: seq<OrderRow>): set<string>
  {
    set i | 0 <= i < |orders| :: orders[i].customerEmail
  }

  /** Reference definition: scanning the orders left to right, keep an order whose email has not been seen before. */
  function Unique(orders: seq<OrderRow>): seq<Customer>
    decreases |orders|
  {
    if orders == [] then []
    else
      var prev := orders[..|orders| - 1];
      var last := orders[|orders| - 1];
      if last.customerEmail in Emails(prev) then Unique(prev) else Unique(prev) + [ToCustomer(last)]
  }

  /** The loop of `getCustomers`, with `seenEmails` as a set. */
  method GetCustomers(orders: seq<OrderRow>) returns (customers: seq<Customer>)
    ensures customers == Unique(orders)
  {
    customers := [];
    var seenEmails: set<string> := {};
    for i := 0 to |orders|
      invariant seenEmails == Emails(orders[..i])
      invariant customers == Unique(orders[..i])
    {
      var order := orders[i];
      assert orders[..i + 1][..i] == orders[..i];
      assert Emails(orders[..i + 1]) == Emails(orders[..i]) + {order.customerEmail} by {
        assert forall j :: 0 <= j < i + 1 ==> orders[..i + 1][j] == orders[j];
      }
      if order.customerEmail !in seenEmails {
        seenEmails := seenEmails + {order.customerEmail};
        customers := customers + [ToCustomer(order)];
      }
    }
    assert orders[..|orders|] == orders;
  }

  /** Index `i` holds the first order with its email. */
  predicate IsFirst(orders: seq<OrderRow>, i: nat)
    requires i < |orders|
  {
    orders[i].customerEmail !in Emails(orders[..i])
  }

  /** The positions of first occurrences, in increasing order. */
  ghost function FirstIndices(orders: seq<OrderRow>): seq<nat>
    decreases |orders|
  {
    if orders == [] then []
    else
      var prev := orders[..|orders| - 1];
      if orders[|orders| - 1].customerEmail in Emails(prev) then FirstIndices(prev)
      else FirstIndices(prev) + [|orders| - 1]
  }

  /**
   * The output is exactly the first occurrences, in input order: a strictly
   * increasing list of positions, each the first order with its email, that
   * misses no first occurrence, and each output entry built from its order.
   */
  lemma {:induction false} UniqueIsFirstOccurrences(orders: seq<OrderRow>)
    ensures var r, idx := Unique(orders), FirstIndices(orders);
      && |idx| == |r|
      && (forall k :: 0 <= k < |idx| ==> idx[k] < |orders| && IsFirst(orders, idx[k]) && r[k] == ToCustomer(orders[idx[k]]))
      && (forall k1, k2 :: 0 <= k1 < k2 < |idx| ==> idx[k1] < idx[k2])
      && (forall i :: 0 <= i < |orders| && IsFirst(orders, i) ==> i in idx)
    decreases |orders|
  {
    if orders != [] {
      var n := |orders| - 1;
      var prev := orders[..n];
      UniqueIsFirstOccurrences(prev);
      assert forall i :: 0 <= i < n ==> orders[i] == prev[i];
      assert forall i :: 0 <= i <= n ==> orders[..i] == prev[..i];
      var idx := FirstIndices(orders);
      var r := Unique(orders);
      forall k | 0 <= k < |idx|
        ensures idx[k] < |orders| && IsFirst(orders, idx[k]) && r[k] == ToCustomer(orders[idx[k]])
      {
        if k < |FirstIndices(prev)| {
          assert idx[k] == FirstIndices(prev)[k];
          assert IsFirst(prev, idx[k]);
        }
      }
    }
  }

  /** Output emails are pairwise distinct. */
  lemma DistinctEmails(orders: seq<OrderRow>)
    ensures var r := Unique(orders);
      forall k1, k2 :: 0 <= k1 < k2 < |r| ==> r[k1].email != r[k2].email
  {
    UniqueIsFirstOccurrences(orders);
    var r, idx := Unique(orders), FirstIndices(orders);
    forall k1, k2 | 0 <= k1 < k2 < |r| ensures r[k1].email != r[k2].email {
      var i, j := idx[k1], idx[k2];
      assert i < j;
      assert orders[..j][i] == orders[i];
      assert orders[i].customerEmail in Emails(orders[..j]);
    }
  }

  /** Every email of the input appears in the output, and the output has no other. */
  lemma SameEmails(orders: seq<OrderRow>)
    ensures var r := Unique(orders);
      forall e :: (exists k :: 0 <= k < |r| && r[k].email == e) <==> e in Emails(orders)
  {
    UniqueIsFirstOccurrences(orders);
    var r, idx := Unique(orders), FirstIndices(orders);
    forall e | e in Emails(orders) ensures exists k :: 0 <= k < |r| && r[k].email == e {
      var i := FirstWith(orders, e);
      assert IsFirst(orders, i);
      var k :| 0 <= k < |idx| && idx[k] == i;
      assert r[k].email == e;
    }
  }

  /** The position of the earliest order with email `e`. */
  function FirstWith(orders: seq<OrderRow>, e: string): (i: nat)
    requires e in Emails(orders)
    ensures i < |orders| && orders[i].customerEmail == e && IsFirst(orders, i)
    decreases |orders|
  {
    if orders[0].customerEmail == e then 0
    else
      assert e in Emails(orders[1..]) by {
        var j :| 0 <= j < |orders| && orders[j].customerEmail == e;
        assert orders[1..][j - 1] == orders[j];
      }
      var j := FirstWith(orders[1..], e);
      assert forall m :: 0 <= m < j ==> orders[..j + 1][m + 1] == orders[1..][..j][m];
      assert Emails(orders[..j + 1]) == {orders[0].customerEmail} + Emails(orders[1..][..j]);
      j + 1
  }

  /** Each email appears exactly once, built from the first order with that email. */
  lemma EachEmailOnceFromFirstOrder(orders: seq<OrderRow>, e: string)
    requires e in Emails(orders)
    ensures var r := Unique(orders);
      exists k :: 0 <= k < |r| && r[k] == ToCustomer(orders[FirstWith(orders, e)])
                 && forall k' :: 0 <= k' < |r| && k' != k ==> r[k'].email != e
  {
    UniqueIsFirstOccurrences(orders);
    DistinctEmails(orders);
    var r, idx := Unique(orders), FirstIndices(orders);
    var i := FirstWith(orders, e);
    var k :| 0 <= k < |idx| && idx[k] == i;
    assert r[k].email == e;
    forall k' | 0 <= k' < |r| && k' != k ensures r[k'].email != e {
      if k' < k { assert r[k'].email != r[k].email; } else { assert r[k].email != r[k'].email; }
    }
  }

  lemma {:induction false} UniqueNoLonger(orders: seq<OrderRow>)
    ensures |Unique(orders)| <= |orders|
    decreases |orders|
  {
    if orders != [] {
      UniqueNoLonger(orders[..|orders| - 1]);
    }
  }

  /** The orders come sorted by `createdAt` descending. */
  predicate NewestFirst(orders: seq<OrderRow>)
  {
    forall i, j :: 0 <= i < j < |orders| ==> orders[i].createdAt >= orders[j].createdAt
  }

  /** Under the query's newest-first order, `firstOrderDate` is the date of the customer's most recent order. */
  lemma FirstOrderDateIsMostRecent(orders: seq<OrderRow>)
    requires NewestFirst(orders)
    ensures var r := Unique(orders);
      forall k, j :: 0 <= k < |r| && 0 <= j < |orders| && orders[j].customerEmail == r[k].email ==>
        r[k].firstOrderDate >= orders[j].createdAt
  {
    UniqueIsFirstOccurrences(orders);
    var r, idx := Unique(orders), FirstIndices(orders);
    forall k, j | 0 <= k < |r| && 0 <= j < |orders| && orders[j].customerEmail == r[k].email
      ensures r[k].firstOrderDate >= orders[j].createdAt
    {
      assert idx[k] <= j;
    }
  }
}
