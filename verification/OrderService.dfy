/**
CreateOrder of services/order/order_server.go and services/order/order_repository.go as one
request runs it: validation, product lookups, the insert with its total, the saga, the refetch and
the cache. Interleavings of many requests are the subject of OrderCreation.
*/
module OrderService {
  import Analytics
  import opened Common
  import opened Money
  import opened ProductLookup
  import opened SagaProtocol
  import opened SagaOrchestration
  import opened StockLedger
  import O = SagaOutcome

  /** A row of orders with its order_items; the status column is the orchestrator's table. */
  datatype OrderRow = OrderRow(customer: string, totalCents: int, key: string, items: seq<PricedItem>)

  datatype Reply = Found(id: string, row: OrderRow, status: OrderStatus) | Refused(code: Code)

  datatype Priced = Accepted(items: seq<PricedItem>) | Rejected(code: Code)

  datatype Inserted = Created(id: string) | Duplicate(id: string) | NotInserted

  /** The items priced at the catalog's prices; or the first refused item's code. */
  ghost predicate Prices(items: seq<Item>, catalog: string -> ProductInfo, priced: Priced) {
    match priced
    case Accepted(out) =>
      && |out| == |items|
      && forall i :: 0 <= i < |items| ==>
           && Check(items[i], catalog) == None
           && out[i] == PricedItem(items[i].product, items[i].quantity, catalog(items[i].product).listing.priceCents)
    case Rejected(code) =>
      exists k :: 0 <= k < |items| && Check(items[k], catalog) == Some(code)
                  && forall i :: 0 <= i < k ==> Check(items[i], catalog) == None
  }

  ghost predicate AllAccepted(items: seq<Item>, catalog: string -> ProductInfo) {
    forall i :: 0 <= i < |items| ==> Check(items[i], catalog) == None
  }

  ghost function AtPrices(items: seq<Item>, catalog: string -> ProductInfo): seq<PricedItem>
    requires AllAccepted(items, catalog)
  {
    seq(|items|, i requires 0 <= i < |items| =>
      PricedItem(items[i].product, items[i].quantity, catalog(items[i].product).listing.priceCents))
  }

  method PriceItems(items: seq<Item>, catalog: string -> ProductInfo) returns (priced: Priced)
    ensures Prices(items, catalog, priced)
  {
    var out: seq<PricedItem> := [];
    for i := 0 to |items|
      invariant Prices(items[..i], catalog, Accepted(out))
    {
      var refusal := Check(items[i], catalog);
      if refusal.Some? {
        assert forall j :: 0 <= j < i ==> items[..i][j] == items[j] && Check(items[..i][j], catalog) == None;
        return Rejected(refusal.value);
      }
      assert forall j :: 0 <= j < i ==> items[..i][j] == items[j];
      out := out + [PricedItem(items[i].product, items[i].quantity, catalog(items[i].product).listing.priceCents)];
    }
    assert items[..|items|] == items;
    return Accepted(out);
  }

  /** The CHECK constraints on order_items. */
  predicate Storable(items: seq<PricedItem>) {
    forall i :: 0 <= i < |items| ==> items[i].quantity > 0 && items[i].unitPriceCents >= 0
  }

  /** What Execute makes of it, alone. */
  function Outcome(id: string, items: seq<Item>, ledger: Ledger, fates: Fates): Position {
    RunToReturn(id, Position(O.Placed(items), ledger), fates)
  }

  class OrderServer {
    var rows: map<string, OrderRow>
    var cache: map<string, Reply>
    const saga: SagaOrchestrator

    constructor (saga: SagaOrchestrator)
      requires saga.orders == map[] && saga.sagas == map[]
      ensures rows == map[] && cache == map[] && this.saga == saga && Consistent()
    {
      rows, cache, this.saga := map[], map[], saga;
    }

    /** Both services' columns of the orders table have the same rows; a saga belongs to an order. */
    ghost predicate Consistent()
      reads this, saga
    {
      rows.Keys == saga.orders.Keys && saga.sagas.Keys <= rows.Keys
    }

    ghost predicate Taken(key: string)
      reads this
    {
      key != "" && exists id :: id in rows && rows[id].key == key
    }

    method FindByKey(key: string) returns (found: Option<string>)
      ensures found.None? <==> !exists id :: id in rows && rows[id].key == key
      ensures found.Some? ==> found.value in rows && rows[found.value].key == key
    {
      var rest := rows.Keys;
      while rest != {}
        invariant rest <= rows.Keys
        invariant forall id :: id in rows && rows[id].key == key ==> id in rest
        decreases |rest|
      {
        var id :| id in rest;
        if rows[id].key == key { return Some(id); }
        rest := rest - {id};
      }
      return None;
    }

    /** The statements from the INSERT of an order of n items to the COMMIT work. */
    static ghost predicate NoFailure(n: nat, fails: nat -> bool) {
      forall k: nat :: 1 <= k <= n + 2 ==> !fails(k)
    }

    /** The INSERTs of an order's items, up to the first that fails or that a CHECK refuses. */
    method InsertItems(id: string, items: seq<PricedItem>, fails: nat -> bool) returns (ok: bool)
      requires id in rows && rows[id].items == []
      modifies this`rows
      ensures ok <==> Storable(items) && forall k: nat :: 2 <= k < |items| + 2 ==> !fails(k)
      ensures ok ==> rows == old(rows)[id := old(rows)[id].(items := items)]
    {
      for i := 0 to |items|
        invariant rows == old(rows)[id := old(rows)[id].(items := items[..i])]
        invariant Storable(items[..i]) && forall k: nat :: 2 <= k < i + 2 ==> !fails(k)
      {
        if fails(i + 2) || items[i].quantity <= 0 || items[i].unitPriceCents < 0 { return false; }
        assert items[..i + 1] == items[..i] + [items[i]];
        rows := rows[id := rows[id].(items := rows[id].items + [items[i]])];
      }
      assert items[..|items|] == items;
      return true;
    }

    /** The key has no order yet, every statement of the transaction works, and the items may be stored. */
    ghost predicate Insertable(key: string, items: seq<PricedItem>, fails: nat -> bool)
      reads this
    {
      && !Taken(key) && (key != "" ==> !fails(0)) && NoFailure(|items|, fails)
      && forall i :: 0 <= i < |items| ==> items[i].quantity > 0 && items[i].unitPriceCents >= 0
    }

    /** The reply shows an order with that key as the tables have it. */
    ghost predicate AnswersKey(key: string, reply: Reply)
      reads this, saga
    {
      && reply.Found? && reply.id in rows && reply.id in saga.orders && rows[reply.id].key == key
      && reply.row == rows[reply.id] && reply.status == saga.orders[reply.id]
    }

    /** From the INSERT of the order to the COMMIT, or a rollback. */
    method InsertRows(customer: string, key: string, items: seq<PricedItem>, newId: string, fails: nat -> bool)
      returns (ok: bool)
      requires newId !in rows
      modifies this`rows, saga`orders
      ensures ok <==> Storable(items) && NoFailure(|items|, fails)
      ensures !ok ==> rows == old(rows) && saga.orders == old(saga.orders)
      ensures ok ==>
                && rows == old(rows)[newId := OrderRow(customer, Wrap64(ExactTotal(items)), key, items)]
                && saga.orders == old(saga.orders)[newId := Pending]
    {
      var savedRows, savedOrders := rows, saga.orders;
      var totalCents := TotalCents(items);
      if fails(1) { return false; }
      rows := rows[newId := OrderRow(customer, totalCents, key, [])];
      saga.orders := saga.orders[newId := Pending];
      ok := InsertItems(newId, items, fails);
      if !ok || fails(|items| + 2) {
        rows, saga.orders := savedRows, savedOrders;
        return false;
      }
    }

    /** The repository's transaction. newId is the id the database generates; `fails(n)` that its
        n-th statement fails: 0 is the SELECT by key, 1 the INSERT of the order, then the items, then
        COMMIT. */
    method InsertOrder(customer: string, key: string, items: seq<PricedItem>, newId: string, fails: nat -> bool)
      returns (r: Inserted)
      requires Consistent() && newId !in rows
      modifies this`rows, saga`orders
      ensures Consistent()
      ensures r.Duplicate? <==> old(Taken(key)) && !fails(0)
      ensures r.Duplicate? ==> r.id in old(rows) && old(rows)[r.id].key == key
      ensures r.Created? <==> old(Insertable(key, items, fails))
      ensures r == Created(newId) || (!r.Created? && rows == old(rows) && saga.orders == old(saga.orders))
      ensures r == Created(newId) ==>
                && rows == old(rows)[newId := OrderRow(customer, Wrap64(ExactTotal(items)), key, items)]
                && saga.orders == old(saga.orders)[newId := Pending]
    {
      if key != "" {
        if fails(0) { return NotInserted; }
        var existing := FindByKey(key);
        if existing.Some? { return Duplicate(existing.value); }
      }
      var ok := InsertRows(customer, key, items, newId, fails);
      return if ok then Created(newId) else NotInserted;
    }

    /** The insert of a new order, its saga, and the answer to it. */
    method RunOrder(customer: string, key: string, items: seq<Item>, priced: seq<PricedItem>, id: string, fates: Fates,
        refetch: bool) returns (reply: Reply)
      requires Consistent() && id != "" && id in rows && saga.orders[id] == Pending && id !in saga.sagas
      requires rows[id] == OrderRow(customer, Wrap64(ExactTotal(priced)), key, priced)
      modifies saga
      ensures Consistent() && saga.Shows(id, Outcome(id, items, old(saga.ledger), fates))
      ensures forall u :: u in rows && u != id ==>
                saga.orders[u] == old(saga.orders)[u] && saga.SagaOf(u) == old(saga.SagaOf(u))
      ensures saga.published == old(saga.published)
                + if saga.analytics && IsCompleted(saga.SagaOf(id))
                  then [Analytics.OrderEvent(id, customer, "COMPLETED", rows[id].totalCents, |priced|)] else []
      ensures reply == if refetch then Found(id, rows[id], saga.orders[id]) else Reply.Refused(Internal)
      ensures items != [] && Valid(old(saga.ledger)) && RowsOf(old(saga.ledger).rows, id) == [] ==>
                (saga.orders[id] == Completed <==> O.Succeeds(old(saga.ledger), items, fates))
    {
      ghost var ledger := saga.ledger;
      if items != [] && Valid(ledger) && RowsOf(ledger.rows, id) == [] { O.CompletesExactly(id, items, ledger, fates); }
      var totalCents := TotalCents(priced);
      saga.Execute(SagaInput(id, customer, totalCents, |priced|, items), fates);
      forall u | u in saga.sagas && u != id ensures u in rows { assert saga.SagaOf(u) == old(saga.SagaOf(u)); }
      if !refetch { return Reply.Refused(Internal); }
      return Found(id, rows[id], saga.orders[id]);
    }

    /** From the insert on, for items that have been priced. */
    method PlaceOrder(customer: string, key: string, items: seq<Item>, priced: seq<PricedItem>, newId: string,
        redis: bool, fails: nat -> bool, fates: Fates, refetch: bool)
      returns (reply: Reply)
      requires Consistent() && newId != "" && newId !in rows
      modifies this, saga
      ensures Consistent()
      ensures newId in rows <==> old(Insertable(key, priced, fails))
      ensures newId in rows ==>
                && rows == old(rows)[newId := OrderRow(customer, Wrap64(ExactTotal(priced)), key, priced)]
                && saga.Shows(newId, Outcome(newId, items, old(saga.ledger), fates))
                && saga.published == old(saga.published)
                     + (if saga.analytics && IsCompleted(saga.SagaOf(newId))
                        then [Analytics.OrderEvent(newId, customer, "COMPLETED", rows[newId].totalCents, |priced|)]
                        else [])
                && reply == (if refetch then Found(newId, rows[newId], saga.orders[newId]) else Reply.Refused(Internal))
                && cache == if refetch && redis && key != "" then old(cache)[key := reply] else old(cache)
      ensures newId !in rows ==>
                && rows == old(rows) && cache == old(cache) && saga.orders == old(saga.orders)
                && saga.sagas == old(saga.sagas) && saga.ledger == old(saga.ledger)
                && saga.published == old(saga.published)
      ensures old(Taken(key)) && !fails(0) ==> old(AnswersKey(key, reply))
      ensures newId !in rows && !(old(Taken(key)) && !fails(0)) ==> reply == Reply.Refused(Internal)
    {
      var inserted := InsertOrder(customer, key, priced, newId, fails);
      if inserted.Duplicate? { return Found(inserted.id, rows[inserted.id], saga.orders[inserted.id]); }
      if inserted.NotInserted? { return Reply.Refused(Internal); }
      reply := RunOrder(customer, key, items, priced, newId, fates, refetch);
      if key != "" && redis && refetch { cache := cache[key := reply]; }
    }

    /** The cache does not answer the key. */
    predicate PastCache(key: string, redis: bool)
      reads this
    {
      !(redis && key != "" && key in cache)
    }

    /** One request, alone. `redis` and `refetch` say whether the cache and the final read of the
        order work; `fails` and `fates` how the statements of its transaction and of its saga fare. */
    method CreateOrder(customer: string, key: string, items: seq<Item>, catalog: string -> ProductInfo,
        newId: string, redis: bool, fails: nat -> bool, fates: Fates, refetch: bool)
      returns (reply: Reply)
      requires Consistent() && newId != "" && newId !in rows
      modifies this, saga
      ensures Consistent()
      ensures customer == "" || items == [] ==> reply == Reply.Refused(InvalidArgument)
      ensures customer != "" && items != [] && !old(PastCache(key, redis)) ==> reply == old(cache)[key]
      // A new order comes of a well-formed request past the cache whose items are all accepted, if the
      // insert works.
      ensures newId in rows <==>
                && customer != "" && items != [] && old(PastCache(key, redis)) && AllAccepted(items, catalog)
                && old(Insertable(key, AtPrices(items, catalog), fails))
      // It is one row, with the items at their prices and their total; its saga runs, and the event of a
      // completed one carries that total. Only the answer to it is cached.
      ensures newId in rows ==>
                var row := rows[newId];
                && rows == old(rows)[newId := row] && row.customer == customer && row.key == key
                && row.items == AtPrices(items, catalog) && row.totalCents == Wrap64(ExactTotal(row.items))
                && saga.Shows(newId, Outcome(newId, items, old(saga.ledger), fates))
                && saga.published == old(saga.published)
                     + (if saga.analytics && IsCompleted(saga.SagaOf(newId))
                        then [Analytics.OrderEvent(newId, customer, "COMPLETED", row.totalCents, |items|)] else [])
                && reply == (if refetch then Found(newId, row, saga.orders[newId]) else Reply.Refused(Internal))
                && cache == if refetch && redis && key != "" then old(cache)[key := reply] else old(cache)
      ensures newId in rows && |items| == 1 ==>
                rows[newId].totalCents == Wrap64(catalog(items[0].product).listing.priceCents * items[0].quantity)
      // Without a new order nothing changes.
      ensures newId !in rows ==>
                && rows == old(rows) && cache == old(cache) && saga.orders == old(saga.orders)
                && saga.sagas == old(saga.sagas) && saga.ledger == old(saga.ledger)
                && saga.published == old(saga.published)
      // Past the cache the first refused item is the answer; else a key that has an order is answered with
      // it, if the SELECT by key works, and what is left are internal errors.
      ensures customer != "" && items != [] && old(PastCache(key, redis)) && !AllAccepted(items, catalog) ==>
                reply.Refused? && Prices(items, catalog, Priced.Rejected(reply.code))
      ensures customer != "" && items != [] && old(PastCache(key, redis)) && AllAccepted(items, catalog) ==>
                && (old(Taken(key)) && !fails(0) ==> old(AnswersKey(key, reply)))
                && (newId !in rows && !(old(Taken(key)) && !fails(0)) ==> reply == Reply.Refused(Internal))
    {
      if customer == "" || |items| == 0 { return Reply.Refused(InvalidArgument); }
      if key != "" && redis && key in cache { return cache[key]; }
      var priced := PriceItems(items, catalog);
      if priced.Rejected? { return Reply.Refused(priced.code); }
      assert priced.items == AtPrices(items, catalog);
      if |items| == 1 { TotalOfOne(priced.items); }
      reply := PlaceOrder(customer, key, items, priced.items, newId, redis, fails, fates, refetch);
    }
  }
}
