/**
The reservation ledger of services/inventory: the products table, the stock_reservations
table, and the effect of one committed transaction on the two of them.

A table of reservations is a sequence in commit order, so a row's position is its identity.
Release and decrement run the same statements with different columns; both are `Settle`.
*/
module StockLedger {
  import opened Common

  const MAX_INT32 := 0x7FFF_FFFF

  datatype Product = Product(available: int, reserved: int)

  datatype Status = Reserved | Released | Decremented

  datatype Row = Row(order: string, product: string, quantity: int, status: Status)

  datatype Item = Item(product: string, quantity: int)

  datatype Ledger = Ledger(products: map<string, Product>, rows: seq<Row>)

  datatype Failure = NotFound | InsufficientStock | InvalidReservation | DbError

  datatype Result = Ok(ledger: Ledger) | Err(failure: Failure)

  const EMPTY := Ledger(map[], [])

  /** Go's int32 subtraction wraps around. */
  function Wrap32(x: int): int {
    (x + 0x8000_0000) % 0x1_0000_0000 - 0x8000_0000
  }

  /** It changes a number by a multiple of 2^32 only, and numbers in range not at all. */
  lemma WrapIsCongruent(x: int)
    ensures -MAX_INT32 - 1 <= Wrap32(x) <= MAX_INT32 && (x - Wrap32(x)) % 0x1_0000_0000 == 0
    ensures -MAX_INT32 - 1 <= x <= MAX_INT32 ==> Wrap32(x) == x
  {
  }

  /** The INT column range and the two CHECK constraints on products. */
  predicate StockAllowed(p: Product) {
    0 <= p.available <= MAX_INT32 && 0 <= p.reserved <= MAX_INT32
  }

  /******* Sums over rows *******/

  function Amount(r: Row, p: string, st: Status): int {
    if r.product == p && r.status == st then r.quantity else 0
  }

  /** Total quantity of the rows for product p that have status st. */
  function Qty(rows: seq<Row>, p: string, st: Status): int {
    if rows == [] then 0
    else Qty(rows[..|rows| - 1], p, st) + Amount(rows[|rows| - 1], p, st)
  }

  predicate Hits(r: Row, orders: set<string>) {
    r.order in orders && r.status == Reserved
  }

  /** SELECT ... WHERE order_id IN orders AND status = 'RESERVED' */
  function Matching(rows: seq<Row>, orders: set<string>): seq<Row> {
    if rows == [] then []
    else
      var rest := Matching(rows[..|rows| - 1], orders);
      if Hits(rows[|rows| - 1], orders) then rest + [rows[|rows| - 1]] else rest
  }

  function MarkRow(r: Row, orders: set<string>, kind: Status): Row {
    if Hits(r, orders) then r.(status := kind) else r
  }

  /** UPDATE stock_reservations SET status = kind WHERE order_id IN orders AND status = 'RESERVED' */
  function Mark(rows: seq<Row>, orders: set<string>, kind: Status): (r: seq<Row>)
    ensures |r| == |rows|
    ensures forall i :: 0 <= i < |rows| ==> r[i] == MarkRow(rows[i], orders, kind)
  {
    if rows == [] then []
    else Mark(rows[..|rows| - 1], orders, kind) + [MarkRow(rows[|rows| - 1], orders, kind)]
  }

  /** All rows of one order, whatever their status. */
  function RowsOf(rows: seq<Row>, order: string): seq<Row> {
    if rows == [] then []
    else
      var rest := RowsOf(rows[..|rows| - 1], order);
      if rows[|rows| - 1].order == order then rest + [rows[|rows| - 1]] else rest
  }

  lemma {:induction false} QtyConcat(a: seq<Row>, b: seq<Row>, p: string, st: Status)
    ensures Qty(a + b, p, st) == Qty(a, p, st) + Qty(b, p, st)
  {
    if b == [] {
      assert a + b == a;
    } else {
      var n := |b| - 1;
      assert (a + b)[..|a + b| - 1] == a + b[..n];
      QtyConcat(a, b[..n], p, st);
    }
  }

  lemma {:induction false} RowsOfConcat(a: seq<Row>, b: seq<Row>, o: string)
    ensures RowsOf(a + b, o) == RowsOf(a, o) + RowsOf(b, o)
  {
    if b == [] {
      assert a + b == a;
    } else {
      var n := |b| - 1;
      assert (a + b)[..|a + b| - 1] == a + b[..n];
      RowsOfConcat(a, b[..n], o);
    }
  }

  lemma {:induction false} MatchingConcat(a: seq<Row>, b: seq<Row>, os: set<string>)
    ensures Matching(a + b, os) == Matching(a, os) + Matching(b, os)
  {
    if b == [] {
      assert a + b == a;
    } else {
      var n := |b| - 1;
      assert (a + b)[..|a + b| - 1] == a + b[..n];
      MatchingConcat(a, b[..n], os);
    }
  }

  /** A sum over rows does not depend on the order in which the rows are visited. */
  lemma {:induction false} QtyMultiset(a: seq<Row>, b: seq<Row>, p: string, st: Status)
    requires multiset(a) == multiset(b)
    ensures Qty(a, p, st) == Qty(b, p, st)
  {
    if a == [] {
      assert |multiset(b)| == 0;
    } else {
      var j := SplitAtLast(a, b);
      QtyMultiset(a[..|a| - 1], b[..j] + b[j + 1..], p, st);
      QtyConcat(b[..j] + [b[j]], b[j + 1..], p, st);
      QtyConcat(b[..j], [b[j]], p, st);
      QtyConcat(b[..j], b[j + 1..], p, st);
    }
  }

  lemma QtySnoc(rows: seq<Row>, r: Row, p: string, st: Status)
    ensures Qty(rows + [r], p, st) == Qty(rows, p, st) + Amount(r, p, st)
  {
    assert (rows + [r])[..|rows|] == rows;
  }

  /** What marking adds to a sum by status, if m units are marked. */
  function MarkedDelta(m: int, kind: Status, st: Status): int {
    if st == kind then m else if st == Reserved then -m else 0
  }

  lemma AmountMark(r: Row, os: set<string>, kind: Status, p: string, st: Status)
    requires kind != Reserved
    ensures Amount(MarkRow(r, os, kind), p, st)
            == Amount(r, p, st) + MarkedDelta(if Hits(r, os) then Amount(r, p, Reserved) else 0, kind, st)
  {
  }

  lemma QtyMatchingSnoc(rows: seq<Row>, os: set<string>, p: string)
    requires rows != []
    ensures var n := |rows| - 1;
            Qty(Matching(rows, os), p, Reserved) ==
              Qty(Matching(rows[..n], os), p, Reserved)
              + (if Hits(rows[n], os) then Amount(rows[n], p, Reserved) else 0)
  {
    var n := |rows| - 1;
    if Hits(rows[n], os) { QtySnoc(Matching(rows[..n], os), rows[n], p, Reserved); }
  }

  /** Marking moves exactly the matched quantity from RESERVED to the new status. */
  lemma {:induction false} QtyMark(rows: seq<Row>, os: set<string>, kind: Status, p: string, st: Status)
    requires kind != Reserved
    ensures Qty(Mark(rows, os, kind), p, st)
            == Qty(rows, p, st) + MarkedDelta(Qty(Matching(rows, os), p, Reserved), kind, st)
  {
    if rows == [] {
    } else {
      var init, r := rows[..|rows| - 1], rows[|rows| - 1];
      QtyMark(init, os, kind, p, st);
      QtySnoc(Mark(init, os, kind), MarkRow(r, os, kind), p, st);
      QtyMatchingSnoc(rows, os, p);
      AmountMark(r, os, kind, p, st);
    }
  }

  ghost predicate Positive(rows: seq<Row>) {
    forall i :: 0 <= i < |rows| ==> rows[i].quantity > 0
  }

  lemma {:induction false} MatchingPositive(rows: seq<Row>, os: set<string>)
    requires Positive(rows)
    ensures Positive(Matching(rows, os))
  {
    if rows == [] {
    } else {
      MatchingPositive(rows[..|rows| - 1], os);
    }
  }

  lemma {:induction false} QtyNonNegative(rows: seq<Row>, p: string, st: Status)
    requires Positive(rows)
    ensures 0 <= Qty(rows, p, st)
  {
    if rows == [] {
    } else {
      QtyNonNegative(rows[..|rows| - 1], p, st);
    }
  }

  lemma {:induction false} QtyBounds(rows: seq<Row>, os: set<string>, p: string)
    requires Positive(rows)
    ensures 0 <= Qty(Matching(rows, os), p, Reserved) <= Qty(rows, p, Reserved)
  {
    MatchingPositive(rows, os);
    QtyNonNegative(Matching(rows, os), p, Reserved);
    if rows == [] {
    } else {
      var n := |rows| - 1;
      QtyBounds(rows[..n], os, p);
      var m := Matching(rows[..n], os);
      if Hits(rows[n], os) {
        assert (m + [rows[n]])[..|m|] == m;
      }
    }
  }

  /** Every matched row is a reserved row of the table that belongs to one of the orders. */
  lemma {:induction false} MatchingSound(rows: seq<Row>, os: set<string>)
    ensures forall r :: r in Matching(rows, os) <==> r in rows && Hits(r, os)
  {
    if rows == [] {
    } else {
      var n := |rows| - 1;
      MatchingSound(rows[..n], os);
      assert rows == rows[..n] + [rows[n]];
    }
  }

  /******* One transaction *******/

  /** The SELECT FOR UPDATE, UPDATE and INSERT that ReserveStock issues for one item. */
  function ReserveOne(l: Ledger, order: string, item: Item): Result {
    if item.product !in l.products then Err(NotFound)
    else
      var p := l.products[item.product];
      if Wrap32(p.available - p.reserved) < item.quantity then Err(InsufficientStock)
      else
        var p' := p.(reserved := p.reserved + item.quantity);
        if !StockAllowed(p') || item.quantity <= 0 then Err(DbError)
        else Ok(Ledger(l.products[item.product := p'],
                       l.rows + [Row(order, item.product, item.quantity, Reserved)]))
  }

  /** The whole loop; the first failing item decides the result. */
  function ReserveAll(l: Ledger, order: string, items: seq<Item>): Result {
    if items == [] then Ok(l)
    else match ReserveAll(l, order, items[..|items| - 1])
      case Err(e) => Err(e)
      case Ok(l') => ReserveOne(l', order, items[|items| - 1])
  }

  /** One UPDATE products of release (kind Released) or decrement (kind Decremented). */
  function SettleProduct(p: Product, q: int, kind: Status): Product {
    Product(if kind == Decremented then p.available - q else p.available, p.reserved - q)
  }

  function Hold(l: Ledger, orders: set<string>, p: string): int {
    Qty(Matching(l.rows, orders), p, Reserved)
  }

  function SettledProducts(l: Ledger, orders: set<string>, kind: Status): map<string, Product> {
    map p | p in l.products :: SettleProduct(l.products[p], Hold(l, orders, p), kind)
  }

  /** The committed effect of release or decrement: each product gives back what the orders hold. */
  function Settle(l: Ledger, orders: set<string>, kind: Status): Result {
    if Matching(l.rows, orders) == [] then Err(InvalidReservation)
    else Ok(Ledger(SettledProducts(l, orders, kind), Mark(l.rows, orders, kind)))
  }

  datatype Update = Applied(products: map<string, Product>) | Refused

  /** One UPDATE products of the loop over the selected rows; a violated CHECK refuses it. */
  function SettleOne(products: map<string, Product>, r: Row, kind: Status): Update {
    if r.product !in products then Applied(products)
    else
      var p := SettleProduct(products[r.product], r.quantity, kind);
      if StockAllowed(p) then Applied(products[r.product := p]) else Refused
  }

  function SettleEach(products: map<string, Product>, sel: seq<Row>, kind: Status): Update {
    if sel == [] then Applied(products)
    else match SettleEach(products, sel[..|sel| - 1], kind)
      case Refused => Refused
      case Applied(ps) => SettleOne(ps, sel[|sel| - 1], kind)
  }

  datatype Op =
    | CreateProduct(id: string, stock: int)
    | ReserveOp(order: string, items: seq<Item>)
    | SettleOp(order: string, kind: Status)

  predicate WellFormed(op: Op) {
    op.SettleOp? ==> op.kind != Reserved
  }

  function Apply(l: Ledger, op: Op): Result {
    match op
    case CreateProduct(id, stock) =>
      if id in l.products || !StockAllowed(Product(stock, 0)) then Err(DbError)
      else Ok(l.(products := l.products[id := Product(stock, 0)]))
    case ReserveOp(order, items) => ReserveAll(l, order, items)
    case SettleOp(order, kind) => Settle(l, {order}, kind)
  }

  /** A failed transaction is rolled back. */
  function After(l: Ledger, op: Op): Ledger {
    match Apply(l, op) case Ok(l') => l' case Err(_) => l
  }

  function Run(l: Ledger, ops: seq<Op>): Ledger {
    if ops == [] then l else After(Run(l, ops[..|ops| - 1]), ops[|ops| - 1])
  }

  /******* The ledger invariant *******/

  ghost predicate ValidProduct(l: Ledger, p: string)
    requires p in l.products
  {
    && l.products[p].reserved == Qty(l.rows, p, Reserved)
    && 0 <= l.products[p].reserved <= l.products[p].available <= MAX_INT32
  }

  /** Each counter caches the sum it stands for, inside the range of its column. */
  ghost predicate Valid(l: Ledger) {
    && Positive(l.rows)
    && (forall i :: 0 <= i < |l.rows| ==> l.rows[i].product in l.products)
    && (forall p :: p in l.products ==> ValidProduct(l, p))
  }

  lemma QtyAbsent(rows: seq<Row>, p: string, st: Status)
    requires forall i :: 0 <= i < |rows| ==> rows[i].product != p
    ensures Qty(rows, p, st) == 0
  {
  }

  lemma ReserveOneKeepsSums(l: Ledger, o: string, item: Item, p: string)
    requires Valid(l) && item.product in l.products && p in l.products
    requires 0 < item.quantity <= l.products[item.product].available - l.products[item.product].reserved
    ensures var x := l.products[item.product];
            ValidProduct(Ledger(l.products[item.product := x.(reserved := x.reserved + item.quantity)],
                                l.rows + [Row(o, item.product, item.quantity, Reserved)]), p)
  {
  }

  lemma ReserveOneValid(l: Ledger, o: string, item: Item)
    requires Valid(l)
    ensures ReserveOne(l, o, item).Ok? ==> Valid(ReserveOne(l, o, item).ledger)
    ensures ReserveOne(l, o, item).Ok? <==>
              item.quantity > 0 && item.product in l.products
              && item.quantity <= l.products[item.product].available - l.products[item.product].reserved
    ensures item.quantity > 0 ==> ReserveOne(l, o, item) != Err(DbError)
  {
    if item.product in l.products {
      assert ValidProduct(l, item.product);
      var r := ReserveOne(l, o, item);
      if r.Ok? {
        forall p | p in l.products ensures ValidProduct(r.ledger, p) {
          ReserveOneKeepsSums(l, o, item, p);
        }
      }
    }
  }

  lemma {:induction false} ReserveAllValid(l: Ledger, o: string, items: seq<Item>)
    requires Valid(l)
    ensures ReserveAll(l, o, items).Ok? ==> Valid(ReserveAll(l, o, items).ledger)
  {
    if items == [] {
    } else {
      var init := items[..|items| - 1];
      ReserveAllValid(l, o, init);
      if ReserveAll(l, o, init).Ok? {
        ReserveOneValid(ReserveAll(l, o, init).ledger, o, items[|items| - 1]);
      }
    }
  }

  lemma SettleValid(l: Ledger, os: set<string>, kind: Status)
    requires Valid(l) && kind != Reserved
    ensures Settle(l, os, kind).Ok? ==> Valid(Settle(l, os, kind).ledger)
  {
    if Settle(l, os, kind).Ok? {
      var l' := Settle(l, os, kind).ledger;
      forall p | p in l'.products ensures ValidProduct(l', p) {
        assert ValidProduct(l, p);
        QtyMark(l.rows, os, kind, p, Reserved);
        QtyBounds(l.rows, os, p);
      }
    }
  }

  /** Every transaction keeps the invariant, for any arguments a caller can send. */
  lemma ApplyValid(l: Ledger, op: Op)
    requires Valid(l) && WellFormed(op)
    ensures Valid(After(l, op))
  {
    match op
    case CreateProduct(id, stock) =>
      var l' := After(l, op);
      forall p | p in l'.products ensures ValidProduct(l', p) {
        if p in l.products { assert ValidProduct(l, p); } else { QtyAbsent(l.rows, p, Reserved); }
      }
    case ReserveOp(order, items) => ReserveAllValid(l, order, items);
    case SettleOp(order, kind) => SettleValid(l, {order}, kind);
  }

  lemma {:induction false} RunValid(ops: seq<Op>)
    requires forall i :: 0 <= i < |ops| ==> WellFormed(ops[i])
    ensures Valid(Run(EMPTY, ops))
  {
    if ops == [] {
    } else {
      RunValid(ops[..|ops| - 1]);
      ApplyValid(Run(EMPTY, ops[..|ops| - 1]), ops[|ops| - 1]);
    }
  }

  /** Under the invariant the int32 subtraction of ReserveStock is exact. */
  lemma NoOverflow(l: Ledger, p: string)
    requires Valid(l) && p in l.products
    ensures Wrap32(l.products[p].available - l.products[p].reserved)
              == l.products[p].available - l.products[p].reserved >= 0
  {
  }

  /******* The statements of one transaction against its effect *******/

  lemma {:induction false} ReserveStopsAtError(l: Ledger, o: string, items: seq<Item>, k: nat)
    requires k <= |items| && ReserveAll(l, o, items[..k]).Err?
    ensures ReserveAll(l, o, items) == ReserveAll(l, o, items[..k])
  {
    if k < |items| {
      var init := items[..|items| - 1];
      assert init[..k] == items[..k];
      ReserveStopsAtError(l, o, init, k);
    } else {
      assert items[..k] == items;
    }
  }

  /** What is left of the stock after the first rows of a selection have been settled. */
  function Partly(products: map<string, Product>, sel: seq<Row>, kind: Status): map<string, Product> {
    map p | p in products :: SettleProduct(products[p], Qty(sel, p, Reserved), kind)
  }

  lemma PartlySnoc(products: map<string, Product>, sel: seq<Row>, kind: Status)
    requires sel != [] && sel[|sel| - 1].status == Reserved
    ensures var init, r := sel[..|sel| - 1], sel[|sel| - 1];
            var mid := Partly(products, init, kind);
            Partly(products, sel, kind) ==
              if r.product in products then mid[r.product := SettleProduct(mid[r.product], r.quantity, kind)] else mid
  {
  }

  lemma {:induction false} SettleEachIsPartly(products: map<string, Product>, sel: seq<Row>, kind: Status)
    requires forall i :: 0 <= i < |sel| ==> sel[i].status == Reserved && sel[i].quantity > 0
    requires forall p :: p in products ==> StockAllowed(products[p])
    requires forall p :: p in products ==> Qty(sel, p, Reserved) <= products[p].reserved <= products[p].available
    ensures SettleEach(products, sel, kind) == Applied(Partly(products, sel, kind))
  {
    if sel == [] {
      assert Partly(products, sel, kind) == products;
    } else {
      var init, r := sel[..|sel| - 1], sel[|sel| - 1];
      forall p | p in products ensures Qty(init, p, Reserved) <= products[p].reserved {
        assert Qty(init, p, Reserved) <= Qty(sel, p, Reserved);
      }
      SettleEachIsPartly(products, init, kind);
      PartlySnoc(products, sel, kind);
      if r.product in products { QtyNonNegative(init, r.product, Reserved); }
    }
  }

  lemma {:induction false} SettleStopsAtRefusal(products: map<string, Product>, sel: seq<Row>, kind: Status, k: nat)
    requires k <= |sel| && SettleEach(products, sel[..k], kind).Refused?
    ensures SettleEach(products, sel, kind).Refused?
  {
    if k < |sel| {
      var init := sel[..|sel| - 1];
      assert init[..k] == sel[..k];
      SettleStopsAtRefusal(products, init, kind, k);
    } else {
      assert sel[..k] == sel;
    }
  }

  /******* Counters that cover the rows *******/

  ghost predicate CoveredProduct(l: Ledger, p: string)
    requires p in l.products
  {
    Qty(l.rows, p, Reserved) <= l.products[p].reserved <= l.products[p].available <= MAX_INT32
  }

  /** Weaker than Valid: a counter is at least the sum of its RESERVED rows. */
  ghost predicate Covered(l: Ledger) {
    && Positive(l.rows)
    && (forall i :: 0 <= i < |l.rows| ==> l.rows[i].product in l.products)
    && (forall p :: p in l.products ==> CoveredProduct(l, p))
  }

  lemma ValidIsCovered(l: Ledger)
    requires Valid(l)
    ensures Covered(l)
  {
    forall p | p in l.products ensures CoveredProduct(l, p) { assert ValidProduct(l, p); }
  }

  lemma PartOf(l: Ledger, os: set<string>, sel: seq<Row>)
    requires Covered(l) && multiset(sel) <= multiset(Matching(l.rows, os))
    ensures Positive(sel)
    ensures forall i :: 0 <= i < |sel| ==>
              sel[i].status == Reserved && sel[i].order in os && sel[i].product in l.products
  {
    MatchingSound(l.rows, os);
    forall i | 0 <= i < |sel| ensures sel[i] in l.rows && Hits(sel[i], os) {
      assert sel[i] in multiset(sel);
      assert sel[i] in multiset(Matching(l.rows, os));
    }
  }

  lemma SelectionSound(l: Ledger, os: set<string>, sel: seq<Row>)
    requires Valid(l) && multiset(sel) == multiset(Matching(l.rows, os))
    ensures forall i :: 0 <= i < |sel| ==>
              && sel[i].status == Reserved && sel[i].quantity > 0
              && sel[i].order in os && sel[i].product in l.products
    ensures sel == [] <==> Matching(l.rows, os) == []
  {
    ValidIsCovered(l);
    PartOf(l, os, sel);
    assert |multiset(sel)| == |sel|;
  }

  lemma QtyPrefix(sel: seq<Row>, n: nat, p: string)
    requires n <= |sel| && Positive(sel)
    ensures Qty(sel[..n], p, Reserved) <= Qty(sel, p, Reserved)
  {
    assert sel == sel[..n] + sel[n..];
    QtyConcat(sel[..n], sel[n..], p, Reserved);
    QtyNonNegative(sel[n..], p, Reserved);
  }

  lemma RestPositive(part: seq<Row>, rest: seq<Row>, whole: seq<Row>)
    requires Positive(whole) && multiset(part + rest) == multiset(whole)
    ensures Positive(rest)
    ensures forall i :: 0 <= i < |rest| ==> rest[i] in whole
  {
    forall i | 0 <= i < |rest| ensures rest[i] in whole {
      assert (part + rest)[|part| + i] == rest[i];
      assert rest[i] in multiset(part + rest);
    }
  }

  lemma QtyPart(part: seq<Row>, whole: seq<Row>, p: string)
    requires Positive(whole) && multiset(part) <= multiset(whole)
    ensures Qty(part, p, Reserved) <= Qty(whole, p, Reserved)
  {
    var rest := Remainder(part, whole);
    RestPositive(part, rest, whole);
    QtyMultiset(part + rest, whole, p, Reserved);
    QtyConcat(part, rest, p, Reserved);
    QtyNonNegative(rest, p, Reserved);
  }

  /** No CHECK constraint fires in a loop over any part of the reserved rows, in any order, as long
      as the counters cover the rows. */
  lemma LoopApplies(l: Ledger, os: set<string>, sel: seq<Row>, kind: Status, n: nat)
    requires Covered(l) && multiset(sel) <= multiset(Matching(l.rows, os)) && n <= |sel|
    ensures SettleEach(l.products, sel[..n], kind) == Applied(Partly(l.products, sel[..n], kind))
  {
    PartOf(l, os, sel);
    forall p | p in l.products
      ensures StockAllowed(l.products[p])
      ensures Qty(sel[..n], p, Reserved) <= l.products[p].reserved <= l.products[p].available
    {
      assert CoveredProduct(l, p);
      QtyNonNegative(l.rows, p, Reserved);
      MatchingPositive(l.rows, os);
      QtyPrefix(sel, n, p);
      QtyPart(sel, Matching(l.rows, os), p);
      QtyBounds(l.rows, os, p);
    }
    SettleEachIsPartly(l.products, sel[..n], kind);
  }

  /** The CHECK constraints never fire: in whatever order the selected rows come back, every
      prefix of the UPDATE loop succeeds, and all of it gives the committed effect of Settle. */
  lemma ChecksNeverFire(l: Ledger, os: set<string>, sel: seq<Row>, kind: Status, n: nat)
    requires Valid(l) && multiset(sel) == multiset(Matching(l.rows, os)) && n <= |sel|
    ensures SettleEach(l.products, sel[..n], kind).Applied?
    ensures SettleEach(l.products, sel, kind) == Applied(SettledProducts(l, os, kind))
  {
    ValidIsCovered(l);
    LoopApplies(l, os, sel, kind, n);
    LoopApplies(l, os, sel, kind, |sel|);
    assert sel[..|sel|] == sel;
    forall p ensures Qty(sel, p, Reserved) == Hold(l, os, p) { QtyMultiset(sel, Matching(l.rows, os), p, Reserved); }
    assert Partly(l.products, sel, kind) == SettledProducts(l, os, kind);
  }
}
