/**
services/inventory/stock_repository.go as it runs: each method is one SQL transaction, whose
statements change the tables in place and whose early returns roll the changes back.

`faults` holds the numbers of the statements that the database itself fails (BEGIN is 0).
*/
module StockTransactions {
  import opened StockLedger
  import opened Common

  datatype Reply = Done(reservationID: string) | Failed(failure: Failure)

  /** A transaction that meets no database fault answers and commits exactly what the ledger says. */
  predicate Agrees(before: Ledger, op: Op, id: string, after: Ledger, reply: Reply) {
    match Apply(before, op)
    case Ok(l) => after == l && reply == Done(id)
    case Err(e) => after == before && reply == Failed(e)
  }

  /** One of the statements from the m-th to before the n-th is failed by the database. */
  ghost predicate Hit(faults: set<nat>, m: nat, n: nat) {
    exists k :: k in faults && m <= k < n
  }

  /** Whatever a method below answers, it leaves a valid ledger behind. */
  lemma AgreesKeepsValid(before: Ledger, op: Op, id: string, after: Ledger, reply: Reply)
    requires Valid(before) && WellFormed(op)
    requires Agrees(before, op, id, after, reply) || after == before
    ensures Valid(after)
  {
    ApplyValid(before, op);
  }

  class StockRepository {
    var products: map<string, Product>
    var rows: seq<Row>

    function Contents(): Ledger
      reads this
    {
      Ledger(products, rows)
    }

    constructor ()
      ensures Contents() == EMPTY
    {
      products, rows := map[], [];
    }

    method CreateProduct(id: string, initialStock: int) returns (reply: Reply)
      modifies this
      ensures Agrees(old(Contents()), Op.CreateProduct(id, initialStock), id, Contents(), reply)
    {
      if id in products || !StockAllowed(Product(initialStock, 0)) {
        return Failed(DbError);
      }
      products := products[id := Product(initialStock, 0)];
      return Done(id);
    }

    /** The three statements of one item. On failure the tables may be left half written. */
    method ReserveItem(orderID: string, item: Item, statement: nat, faults: set<nat>)
      returns (failure: Option<Failure>)
      modifies this
      ensures failure.None? ==> ReserveOne(old(Contents()), orderID, item) == Ok(Contents())
      ensures failure.None? <==>
                ReserveOne(old(Contents()), orderID, item).Ok? && !Hit(faults, statement, statement + 3)
      ensures failure.Some? ==>
                ReserveOne(old(Contents()), orderID, item) == Err(failure.value)
                || (failure.value == DbError && Hit(faults, statement, statement + 3))
    {
      // SELECT * FROM products WHERE id = $1 FOR UPDATE
      if statement in faults { return Some(DbError); }
      if item.product !in products { return Some(NotFound); }
      var product := products[item.product];
      var available := Wrap32(product.available - product.reserved);
      if available < item.quantity { return Some(InsufficientStock); }
      // UPDATE products SET stock_reserved = stock_reserved + $1
      var updated := product.(reserved := product.reserved + item.quantity);
      if statement + 1 in faults || !StockAllowed(updated) { return Some(DbError); }
      products := products[item.product := updated];
      // INSERT INTO stock_reservations
      if statement + 2 in faults || item.quantity <= 0 { return Some(DbError); }
      rows := rows + [Row(orderID, item.product, item.quantity, Reserved)];
      return None;
    }

    method ReserveStock(orderID: string, items: seq<Item>, faults: set<nat>) returns (reply: Reply)
      modifies this
      ensures Agrees(old(Contents()), ReserveOp(orderID, items), orderID, Contents(), reply)
              || (Hit(faults, 0, 3 * |items| + 2) && reply == Failed(DbError) && Contents() == old(Contents()))
      ensures reply.Done? <==> Apply(old(Contents()), ReserveOp(orderID, items)).Ok? && !Hit(faults, 0, 3 * |items| + 2)
    {
      ghost var before := Contents();
      if 0 in faults { return Failed(DbError); }
      var savedProducts, savedRows := products, rows;
      var i := 0;
      while i < |items|
        invariant 0 <= i <= |items|
        invariant ReserveAll(before, orderID, items[..i]) == Ok(Contents())
        invariant !Hit(faults, 0, 3 * i + 1)
      {
        assert items[..i + 1][..i] == items[..i];
        var failure := ReserveItem(orderID, items[i], 3 * i + 1, faults);
        if failure.Some? {
          if ReserveAll(before, orderID, items[..i + 1]).Err? {
            ReserveStopsAtError(before, orderID, items, i + 1);
          }
          products, rows := savedProducts, savedRows;
          return Failed(failure.value);
        }
        i := i + 1;
      }
      assert items[..i] == items;
      // COMMIT
      if 3 * i + 1 in faults {
        products, rows := savedProducts, savedRows;
        return Failed(DbError);
      }
      return Done(orderID);
    }

    /** SELECT ... FOR UPDATE without ORDER BY: the matching rows, in no promised order. */
    method SelectReserved(orderID: string) returns (sel: seq<Row>)
      ensures multiset(sel) == multiset(Matching(rows, {orderID}))
    {
      sel := [];
      for i := 0 to |rows|
        invariant sel == Matching(rows[..i], {orderID})
      {
        assert rows[..i + 1][..i] == rows[..i];
        if rows[i].order == orderID && rows[i].status == Reserved {
          sel := sel + [rows[i]];
        }
      }
      assert rows[..|rows|] == rows;
    }

    /** UPDATE products SET stock_available = stock_available - sold, stock_reserved = stock_reserved - freed
        WHERE id = product; matching no row is not an error, violating a CHECK is. */
    method UpdateStock(product: string, sold: int, freed: int) returns (ok: bool)
      modifies this`products
      ensures product !in old(products) ==> ok && products == old(products)
      ensures product in old(products) ==>
                var p := Product(old(products)[product].available - sold, old(products)[product].reserved - freed);
                && ok == StockAllowed(p)
                && products == if ok then old(products)[product := p] else old(products)
    {
      if product !in products { return true; }
      var p := products[product];
      p := Product(p.available - sold, p.reserved - freed);
      if !StockAllowed(p) { return false; }
      products := products[product := p];
      return true;
    }

    /** The loop of release (sells nothing) and decrement (sells what it frees), one UPDATE a row. */
    method UpdateEach(reservations: seq<Row>, kind: Status, faults: set<nat>) returns (ok: bool)
      modifies this`products
      ensures ok ==> SettleEach(old(products), reservations, kind) == Applied(products)
      ensures ok <==>
                !Hit(faults, 2, |reservations| + 2) && SettleEach(old(products), reservations, kind) != Refused
    {
      var i := 0;
      while i < |reservations|
        invariant 0 <= i <= |reservations|
        invariant SettleEach(old(products), reservations[..i], kind) == Applied(products)
        invariant !Hit(faults, 2, i + 2)
      {
        assert reservations[..i + 1][..i] == reservations[..i];
        if SettleEach(old(products), reservations[..i + 1], kind).Refused? {
          SettleStopsAtRefusal(old(products), reservations, kind, i + 1);
        }
        var q := reservations[i].quantity;
        var updated := UpdateStock(reservations[i].product, if kind == Decremented then q else 0, q);
        if i + 2 in faults || !updated { return false; }
        i := i + 1;
      }
      assert reservations[..i] == reservations;
      return true;
    }

    method ReleaseStock(reservationID: string, faults: set<nat>) returns (reply: Reply)
      requires Valid(Contents())
      modifies this
      ensures Agrees(old(Contents()), SettleOp(reservationID, Released), reservationID, Contents(), reply)
              || (Hit(faults, 0, |Matching(old(rows), {reservationID})| + 4)
                  && reply == Failed(DbError) && Contents() == old(Contents()))
      ensures reply.Done? <==>
                && Apply(old(Contents()), SettleOp(reservationID, Released)).Ok?
                && !Hit(faults, 0, |Matching(old(rows), {reservationID})| + 4)
    {
      if 0 in faults { return Failed(DbError); }
      var savedProducts, savedRows := products, rows;
      if 1 in faults { return Failed(DbError); }
      var reservations := SelectReserved(reservationID);
      SelectionSound(Contents(), {reservationID}, reservations);
      SameLength(reservations, Matching(rows, {reservationID}));
      if |reservations| == 0 { return Failed(InvalidReservation); }
      ChecksNeverFire(Contents(), {reservationID}, reservations, Released, |reservations|);
      var ok := UpdateEach(reservations, Released, faults);
      var statement := |reservations| + 2;
      // UPDATE stock_reservations SET status WHERE order_id AND status = 'RESERVED'
      if !ok || statement in faults {
        products := savedProducts;
        return Failed(DbError);
      }
      rows := Mark(rows, {reservationID}, Released);
      // COMMIT
      if statement + 1 in faults {
        products, rows := savedProducts, savedRows;
        return Failed(DbError);
      }
      return Done(reservationID);
    }

    method DecrementStock(reservationID: string, faults: set<nat>) returns (reply: Reply)
      requires Valid(Contents())
      modifies this
      ensures Agrees(old(Contents()), SettleOp(reservationID, Decremented), reservationID, Contents(), reply)
              || (Hit(faults, 0, |Matching(old(rows), {reservationID})| + 4)
                  && reply == Failed(DbError) && Contents() == old(Contents()))
      ensures reply.Done? <==>
                && Apply(old(Contents()), SettleOp(reservationID, Decremented)).Ok?
                && !Hit(faults, 0, |Matching(old(rows), {reservationID})| + 4)
    {
      if 0 in faults { return Failed(DbError); }
      var savedProducts, savedRows := products, rows;
      if 1 in faults { return Failed(DbError); }
      var reservations := SelectReserved(reservationID);
      SelectionSound(Contents(), {reservationID}, reservations);
      SameLength(reservations, Matching(rows, {reservationID}));
      if |reservations| == 0 { return Failed(InvalidReservation); }
      ChecksNeverFire(Contents(), {reservationID}, reservations, Decremented, |reservations|);
      var ok := UpdateEach(reservations, Decremented, faults);
      var statement := |reservations| + 2;
      // UPDATE stock_reservations SET status WHERE order_id AND status = 'RESERVED'
      if !ok || statement in faults {
        products := savedProducts;
        return Failed(DbError);
      }
      rows := Mark(rows, {reservationID}, Decremented);
      // COMMIT
      if statement + 1 in faults {
        products, rows := savedProducts, savedRows;
        return Failed(DbError);
      }
      return Done(reservationID);
    }
  }

  datatype Rejection = Accepted | InvalidArgument

  /** The server's check before ReserveStock: an order id, at least one item, and every item
      with a product id and a positive quantity. */
  method ValidateReserve(orderID: string, items: seq<Item>) returns (verdict: Rejection)
    ensures verdict == Accepted <==>
              orderID != "" && items != []
              && forall i :: 0 <= i < |items| ==> items[i].product != "" && items[i].quantity > 0
  {
    if orderID == "" || |items| == 0 { return InvalidArgument; }
    for i := 0 to |items|
      invariant forall k :: 0 <= k < i ==> items[k].product != "" && items[k].quantity > 0
    {
      if items[i].product == "" || items[i].quantity <= 0 { return InvalidArgument; }
    }
    return Accepted;
  }
}
