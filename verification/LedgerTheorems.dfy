/**
What the three stock transactions promise together: when a reserve succeeds, what a run of
transactions conserves, that a reservation takes effect once, and that compensation cancels it.
*/
module LedgerTheorems {
  import opened StockLedger
  import opened Common

  /******* Reserve: decided exactly, whatever the order of the items *******/

  /** Units of p that the items ask for, duplicates included. */
  function Demand(items: seq<Item>, p: string): int {
    if items == [] then 0
    else Demand(items[..|items| - 1], p)
         + (if items[|items| - 1].product == p then items[|items| - 1].quantity else 0)
  }

  /** The rows a reserve inserts for an order, with a given status. */
  function OrderRows(o: string, items: seq<Item>, st: Status): (r: seq<Row>)
    ensures |r| == |items|
    ensures forall i :: 0 <= i < |items| ==> r[i] == Row(o, items[i].product, items[i].quantity, st)
  {
    if items == [] then []
    else
      OrderRows(o, items[..|items| - 1], st)
      + [Row(o, items[|items| - 1].product, items[|items| - 1].quantity, st)]
  }

  ghost predicate Fits(l: Ledger, items: seq<Item>) {
    && (forall i :: 0 <= i < |items| ==> items[i].quantity > 0 && items[i].product in l.products)
    && (forall p :: p in l.products ==>
          Demand(items, p) <= l.products[p].available - l.products[p].reserved)
  }

  function ReserveEffect(l: Ledger, o: string, items: seq<Item>): Ledger {
    Ledger(map p | p in l.products :: l.products[p].(reserved := l.products[p].reserved + Demand(items, p)),
           l.rows + OrderRows(o, items, Reserved))
  }

  lemma FitsSnoc(l: Ledger, items: seq<Item>)
    requires items != []
    ensures var init, x := items[..|items| - 1], items[|items| - 1];
            Fits(l, items) <==>
              && Fits(l, init) && x.quantity > 0 && x.product in l.products
              && x.quantity <=
                   l.products[x.product].available - l.products[x.product].reserved - Demand(init, x.product)
  {
  }

  lemma EffectSnoc(l: Ledger, o: string, items: seq<Item>)
    requires items != []
    ensures var init, x := items[..|items| - 1], items[|items| - 1];
            var next := ReserveOne(ReserveEffect(l, o, init), o, x);
            next.Ok? ==> next.ledger == ReserveEffect(l, o, items)
  {
  }

  /** A reserve commits if and only if every quantity is positive, every product exists, and each
      product's total demand is free; it then adds exactly the demanded totals and rows. */
  lemma {:induction false} ReserveExact(l: Ledger, o: string, items: seq<Item>)
    requires Valid(l)
    ensures ReserveAll(l, o, items).Ok? <==> Fits(l, items)
    ensures ReserveAll(l, o, items).Ok? ==> ReserveAll(l, o, items).ledger == ReserveEffect(l, o, items)
  {
    if items == [] {
      assert forall p :: p in l.products ==> ValidProduct(l, p);
      assert ReserveEffect(l, o, items).products == l.products;
    } else {
      var init, x := items[..|items| - 1], items[|items| - 1];
      ReserveExact(l, o, init);
      FitsSnoc(l, items);
      if Fits(l, init) {
        ReserveAllValid(l, o, init);
        ReserveOneValid(ReserveEffect(l, o, init), o, x);
        EffectSnoc(l, o, items);
      }
    }
  }

  /** A refused reserve reports the first item that no longer fits, and why. */
  lemma {:induction false} ReserveRefusal(l: Ledger, o: string, items: seq<Item>, k: nat)
    requires Valid(l) && k < |items|
    requires Fits(l, items[..k]) && !Fits(l, items[..k + 1]) && items[k].quantity > 0
    ensures ReserveAll(l, o, items)
              == Err(if items[k].product !in l.products then NotFound else InsufficientStock)
  {
    if k + 1 == |items| {
      assert items[..k + 1] == items && items[..|items| - 1] == items[..k];
      ReserveExact(l, o, items[..k]);
      ReserveExact(l, o, items);
      ReserveAllValid(l, o, items[..k]);
      ReserveOneValid(ReserveEffect(l, o, items[..k]), o, items[k]);
    } else {
      var init := items[..|items| - 1];
      assert init[..k] == items[..k] && init[..k + 1] == items[..k + 1];
      ReserveRefusal(l, o, init, k);
    }
  }

  lemma {:induction false} DemandConcat(a: seq<Item>, b: seq<Item>, p: string)
    ensures Demand(a + b, p) == Demand(a, p) + Demand(b, p)
  {
    if b == [] {
      assert a + b == a;
    } else {
      assert (a + b)[..|a + b| - 1] == a + b[..|b| - 1];
      DemandConcat(a, b[..|b| - 1], p);
    }
  }

  lemma {:induction false} DemandMultiset(a: seq<Item>, b: seq<Item>, p: string)
    requires multiset(a) == multiset(b)
    ensures Demand(a, p) == Demand(b, p)
  {
    if a == [] {
      assert |multiset(b)| == 0;
    } else {
      var j := SplitAtLast(a, b);
      DemandMultiset(a[..|a| - 1], b[..j] + b[j + 1..], p);
      DemandConcat(b[..j] + [b[j]], b[j + 1..], p);
      DemandConcat(b[..j], [b[j]], p);
      DemandConcat(b[..j], b[j + 1..], p);
    }
  }

  lemma OrderRowsConcat(a: seq<Item>, b: seq<Item>, o: string, st: Status)
    ensures OrderRows(o, a + b, st) == OrderRows(o, a, st) + OrderRows(o, b, st)
  {
  }

  lemma OrderRowsRemove(b: seq<Item>, j: nat, o: string, st: Status)
    requires j < |b| && b == b[..j] + [b[j]] + b[j + 1..]
    ensures multiset(OrderRows(o, b, st)) ==
              multiset(OrderRows(o, b[..j] + b[j + 1..], st)) + multiset{Row(o, b[j].product, b[j].quantity, st)}
  {
    OrderRowsConcat(b[..j] + [b[j]], b[j + 1..], o, st);
    OrderRowsConcat(b[..j], [b[j]], o, st);
    OrderRowsConcat(b[..j], b[j + 1..], o, st);
  }

  lemma {:induction false} OrderRowsMultiset(a: seq<Item>, b: seq<Item>, o: string, st: Status)
    requires multiset(a) == multiset(b)
    ensures multiset(OrderRows(o, a, st)) == multiset(OrderRows(o, b, st))
  {
    if a == [] {
      assert |multiset(b)| == 0;
    } else {
      var j := SplitAtLast(a, b);
      OrderRowsMultiset(a[..|a| - 1], b[..j] + b[j + 1..], o, st);
      OrderRowsRemove(b, j, o, st);
    }
  }

  lemma FitsMultiset(l: Ledger, a: seq<Item>, b: seq<Item>)
    requires multiset(a) == multiset(b)
    ensures Fits(l, a) ==> Fits(l, b)
  {
    forall p ensures Demand(a, p) == Demand(b, p) { DemandMultiset(a, b, p); }
    forall i | 0 <= i < |b| ensures b[i] in a {
      assert b[i] in multiset(b);
      assert b[i] in multiset(a);
    }
  }

  /** Reserving the same items in another order has the same outcome and the same stock. */
  lemma ReserveAnyOrder(l: Ledger, o: string, a: seq<Item>, b: seq<Item>)
    requires Valid(l) && multiset(a) == multiset(b)
    ensures ReserveAll(l, o, a).Ok? <==> ReserveAll(l, o, b).Ok?
    ensures ReserveAll(l, o, a).Ok? ==>
              var x, y := ReserveAll(l, o, a).ledger, ReserveAll(l, o, b).ledger;
              x.products == y.products && multiset(x.rows) == multiset(y.rows)
  {
    ReserveExact(l, o, a);
    ReserveExact(l, o, b);
    FitsMultiset(l, a, b);
    FitsMultiset(l, b, a);
    forall p ensures Demand(a, p) == Demand(b, p) { DemandMultiset(a, b, p); }
    assert ReserveEffect(l, o, a).products == ReserveEffect(l, o, b).products;
    OrderRowsMultiset(a, b, o, Reserved);
  }

  /******* Frames: what a transaction of one order leaves alone *******/

  predicate On(op: Op, o: string) {
    (op.ReserveOp? && op.order == o) || (op.SettleOp? && op.order == o)
  }

  lemma {:induction false} MatchingMark(rows: seq<Row>, os: set<string>, ps: set<string>, kind: Status)
    requires kind != Reserved
    ensures Matching(Mark(rows, os, kind), ps) == Matching(rows, ps - os)
  {
    if rows == [] {
    } else {
      var n := |rows| - 1;
      assert Mark(rows, os, kind)[..n] == Mark(rows[..n], os, kind);
      MatchingMark(rows[..n], os, ps, kind);
    }
  }

  lemma {:induction false} MatchingNone(rows: seq<Row>, os: set<string>)
    requires forall i :: 0 <= i < |rows| ==> !Hits(rows[i], os)
    ensures Matching(rows, os) == []
  {
    if rows == [] {
    } else {
      MatchingNone(rows[..|rows| - 1], os);
    }
  }

  lemma {:induction false} MatchingAll(rows: seq<Row>, os: set<string>)
    requires forall i :: 0 <= i < |rows| ==> Hits(rows[i], os)
    ensures Matching(rows, os) == rows
  {
    if rows == [] {
    } else {
      MatchingAll(rows[..|rows| - 1], os);
      assert rows == rows[..|rows| - 1] + [rows[|rows| - 1]];
    }
  }

  /** A transaction of another order does not change what o holds. */
  lemma HoldFrame(l: Ledger, op: Op, o: string)
    requires Valid(l) && WellFormed(op) && !On(op, o)
    ensures Matching(After(l, op).rows, {o}) == Matching(l.rows, {o})
  {
    match op
    case CreateProduct(_, _) =>
    case ReserveOp(u, items) =>
      ReserveExact(l, u, items);
      MatchingConcat(l.rows, OrderRows(u, items, Reserved), {o});
      MatchingNone(OrderRows(u, items, Reserved), {o});
    case SettleOp(u, kind) =>
      MatchingMark(l.rows, {u}, {o}, kind);
      assert {o} - {u} == {o};
  }

  /** Rows are never deleted, a row changes only by its own order's settling, and a settled row never changes. */
  lemma RowsFrozen(l: Ledger, op: Op, i: nat)
    requires Valid(l) && WellFormed(op) && i < |l.rows|
    ensures i < |After(l, op).rows|
    ensures l.rows[i].status != Reserved || !On(op, l.rows[i].order) ==> After(l, op).rows[i] == l.rows[i]
    ensures After(l, op).rows[i].(status := l.rows[i].status) == l.rows[i]
  {
    if op.ReserveOp? { ReserveExact(l, op.order, op.items); }
  }

  /******* Runs *******/

  ghost predicate AllWellFormed(ops: seq<Op>) {
    forall i :: 0 <= i < |ops| ==> WellFormed(ops[i])
  }

  lemma {:induction false} RunConcat(l: Ledger, a: seq<Op>, b: seq<Op>)
    ensures Run(l, a + b) == Run(Run(l, a), b)
  {
    if b == [] {
      assert a + b == a;
    } else {
      assert (a + b)[..|a + b| - 1] == a + b[..|b| - 1];
      RunConcat(l, a, b[..|b| - 1]);
    }
  }

  lemma {:induction false} RunFromValid(l: Ledger, ops: seq<Op>)
    requires Valid(l) && AllWellFormed(ops)
    ensures Valid(Run(l, ops))
  {
    if ops == [] {
    } else {
      RunFromValid(l, ops[..|ops| - 1]);
      ApplyValid(Run(l, ops[..|ops| - 1]), ops[|ops| - 1]);
    }
  }

  /******* Conservation *******/

  function Endowment(l: Ledger, p: string): int
    requires p in l.products
  {
    l.products[p].available + Qty(l.rows, p, Decremented)
  }

  lemma {:induction false} QtyOtherStatus(o: string, items: seq<Item>, st: Status, p: string, other: Status)
    requires st != other
    ensures Qty(OrderRows(o, items, st), p, other) == 0
  {
    if items == [] {
    } else {
      var rows := OrderRows(o, items, st);
      assert rows[..|rows| - 1] == OrderRows(o, items[..|items| - 1], st);
      QtyOtherStatus(o, items[..|items| - 1], st, p, other);
    }
  }

  /** No transaction changes stock_available plus the confirmed sales of a product. */
  lemma EndowmentKept(l: Ledger, op: Op, p: string)
    requires Valid(l) && WellFormed(op) && p in l.products
    ensures p in After(l, op).products && Endowment(After(l, op), p) == Endowment(l, p)
  {
    match op
    case CreateProduct(_, _) =>
    case ReserveOp(o, items) =>
      ReserveExact(l, o, items);
      QtyConcat(l.rows, OrderRows(o, items, Reserved), p, Decremented);
      QtyOtherStatus(o, items, Reserved, p, Decremented);
    case SettleOp(o, kind) =>
      QtyMark(l.rows, {o}, kind, p, Decremented);
  }

  lemma {:induction false} EndowmentKeptByRun(l: Ledger, ops: seq<Op>, p: string)
    requires Valid(l) && AllWellFormed(ops) && p in l.products
    ensures p in Run(l, ops).products && Endowment(Run(l, ops), p) == Endowment(l, p)
  {
    if ops == [] {
    } else {
      var init := ops[..|ops| - 1];
      EndowmentKeptByRun(l, init, p);
      RunFromValid(l, init);
      EndowmentKept(Run(l, init), ops[|ops| - 1], p);
    }
  }

  lemma SalesBounded(l: Ledger, p: string)
    requires Valid(l) && p in l.products
    ensures 0 <= Qty(l.rows, p, Decremented)
    ensures 0 <= Qty(l.rows, p, Reserved) <= Endowment(l, p) - Qty(l.rows, p, Decremented)
  {
    assert ValidProduct(l, p);
    QtyNonNegative(l.rows, p, Decremented);
  }

  /** Over any run: confirmed sales plus what is left is the initial stock, and open
      reservations together with confirmed sales never exceed it. */
  lemma Conservation(pre: seq<Op>, p: string, stock: int, post: seq<Op>)
    requires AllWellFormed(pre) && AllWellFormed(post)
    requires p !in Run(EMPTY, pre).products && 0 <= stock <= MAX_INT32
    ensures var l := Run(EMPTY, pre + [CreateProduct(p, stock)] + post);
            && p in l.products
            && l.products[p].available + Qty(l.rows, p, Decremented) == stock
            && 0 <= Qty(l.rows, p, Decremented)
            && 0 <= Qty(l.rows, p, Reserved) <= stock - Qty(l.rows, p, Decremented)
  {
    var create := CreateProduct(p, stock);
    var l0 := Run(EMPTY, pre);
    var l1 := After(l0, create);
    RunFromValid(EMPTY, pre);
    ApplyValid(l0, create);
    QtyAbsent(l0.rows, p, Decremented);
    assert Endowment(l1, p) == stock;
    assert Run(EMPTY, pre + [create]) == l1 by { assert (pre + [create])[..|pre|] == pre; }
    RunConcat(EMPTY, pre + [create], post);
    EndowmentKeptByRun(l1, post, p);
    RunFromValid(l1, post);
    SalesBounded(Run(l1, post), p);
  }

  /******* A reservation takes effect once *******/

  ghost predicate NoReserve(ops: seq<Op>, o: string) {
    forall i :: 0 <= i < |ops| ==> !(ops[i].ReserveOp? && ops[i].order == o)
  }

  ghost predicate Settles(op: Op, o: string) {
    op.SettleOp? && op.order == o
  }

  lemma {:induction false} HoldUntilSettled(l: Ledger, ops: seq<Op>, o: string)
    requires Valid(l) && AllWellFormed(ops) && NoReserve(ops, o)
    ensures Matching(Run(l, ops).rows, {o}) ==
            if exists i :: 0 <= i < |ops| && Settles(ops[i], o) then [] else Matching(l.rows, {o})
  {
    if ops == [] {
    } else {
      var init, op := ops[..|ops| - 1], ops[|ops| - 1];
      HoldUntilSettled(l, init, o);
      RunFromValid(l, init);
      var mid := Run(l, init);
      if Settles(op, o) {
        MatchingMark(mid.rows, {o}, {o}, op.kind);
        MatchingNone(mid.rows, {});
        assert {o} - {o} == {};
      } else {
        HoldFrame(mid, op, o);
        if i :| 0 <= i < |ops| && Settles(ops[i], o) {
          assert Settles(init[i], o);
        }
      }
    }
  }

  /** Of all deliveries of release and decrement for a reserved order, the first and only the
      first takes effect; every later one reports an invalid reservation and changes nothing. */
  lemma EffectOnce(l: Ledger, ops: seq<Op>, o: string, i: nat)
    requires Valid(l) && AllWellFormed(ops) && NoReserve(ops, o)
    requires Matching(l.rows, {o}) != []
    requires i < |ops| && Settles(ops[i], o)
    ensures var before := Run(l, ops[..i]);
            if exists j :: 0 <= j < i && Settles(ops[j], o)
            then Apply(before, ops[i]) == Err(InvalidReservation) && Run(l, ops[..i + 1]) == before
            else Apply(before, ops[i]).Ok? && forall p :: Hold(before, {o}, p) == Hold(l, {o}, p)
  {
    var init := ops[..i];
    HoldUntilSettled(l, init, o);
    assert ops[..i + 1][..i] == init;
    if j :| 0 <= j < i && Settles(ops[j], o) {
      assert Settles(init[j], o);
    }
  }

  /******* Compensation cancels *******/

  ghost predicate AllCommit(l: Ledger, ops: seq<Op>) {
    ops == [] || (AllCommit(l, ops[..|ops| - 1]) && Apply(Run(l, ops[..|ops| - 1]), ops[|ops| - 1]).Ok?)
  }

  function Others(rows: seq<Row>, o: string): seq<Row> {
    if rows == [] then []
    else
      var rest := Others(rows[..|rows| - 1], o);
      if rows[|rows| - 1].order != o then rest + [rows[|rows| - 1]] else rest
  }

  lemma {:induction false} OthersConcat(a: seq<Row>, b: seq<Row>, o: string)
    ensures Others(a + b, o) == Others(a, o) + Others(b, o)
  {
    if b == [] {
      assert a + b == a;
    } else {
      assert (a + b)[..|a + b| - 1] == a + b[..|b| - 1];
      OthersConcat(a, b[..|b| - 1], o);
    }
  }

  lemma {:induction false} OthersMark(rows: seq<Row>, os: set<string>, kind: Status, o: string)
    requires o !in os
    ensures Others(Mark(rows, os, kind), o) == Mark(Others(rows, o), os, kind)
  {
    if rows == [] {
    } else {
      var n := |rows| - 1;
      assert Mark(rows, os, kind)[..n] == Mark(rows[..n], os, kind);
      OthersMark(rows[..n], os, kind, o);
      var rest := Others(rows[..n], o);
      if rows[n].order != o {
        assert (rest + [rows[n]])[..|rest|] == rest;
      }
    }
  }

  lemma {:induction false} OthersMatching(rows: seq<Row>, os: set<string>, o: string)
    requires o !in os
    ensures Matching(Others(rows, o), os) == Matching(rows, os)
  {
    if rows == [] {
    } else {
      var n := |rows| - 1;
      OthersMatching(rows[..n], os, o);
      var rest := Others(rows[..n], o);
      if rows[n].order != o {
        assert (rest + [rows[n]])[..|rest|] == rest;
      }
    }
  }

  /** l is l' plus a hold of order o. */
  ghost predicate Holding(l: Ledger, l': Ledger, o: string) {
    && l.products.Keys == l'.products.Keys
    && (forall p :: p in l.products ==>
          && l.products[p].available == l'.products[p].available
          && l.products[p].reserved == l'.products[p].reserved + Hold(l, {o}, p))
    && Others(l.rows, o) == Others(l'.rows, o)
    && Matching(l'.rows, {o}) == []
  }

  lemma HoldingCreate(l: Ledger, l': Ledger, op: Op, o: string)
    requires Valid(l) && Valid(l') && op.CreateProduct?
    requires Holding(l, l', o) && Apply(l, op).Ok?
    ensures Apply(l', op).Ok? && Holding(After(l, op), After(l', op), o)
  {
    MatchingSound(l.rows, {o});
    var m := Matching(l.rows, {o});
    assert forall i :: 0 <= i < |m| ==> m[i] in l.rows;
    QtyAbsent(Matching(l.rows, {o}), op.id, Reserved);
  }

  lemma HoldingReserve(l: Ledger, l': Ledger, op: Op, o: string)
    requires Valid(l) && Valid(l') && op.ReserveOp? && op.order != o
    requires Holding(l, l', o) && Apply(l, op).Ok?
    ensures Apply(l', op).Ok? && Holding(After(l, op), After(l', op), o)
  {
    var u, items := op.order, op.items;
    HoldFrame(l, op, o);
    ReserveExact(l, u, items);
    ReserveExact(l', u, items);
    forall p | p in l'.products
      ensures Demand(items, p) <= l'.products[p].available - l'.products[p].reserved
    {
      QtyBounds(l.rows, {o}, p);
      assert p in l.products;
    }
    assert Fits(l', items);
    HoldFrame(l', op, o);
    OthersConcat(l.rows, OrderRows(u, items, Reserved), o);
    OthersConcat(l'.rows, OrderRows(u, items, Reserved), o);
  }

  lemma HoldingSettleStock(l: Ledger, l': Ledger, u: string, kind: Status, o: string, p: string)
    requires kind != Reserved && u != o && p in l.products && p in l'.products
    requires l.products[p].available == l'.products[p].available
    requires l.products[p].reserved == l'.products[p].reserved + Hold(l, {o}, p)
    requires Matching(l.rows, {u}) == Matching(l'.rows, {u})
    ensures var a, b := SettledProducts(l, {u}, kind)[p], SettledProducts(l', {u}, kind)[p];
            a.available == b.available && a.reserved == b.reserved + Hold(l, {o}, p)
  {
  }

  lemma HoldingSettle(l: Ledger, l': Ledger, op: Op, o: string)
    requires Valid(l) && Valid(l') && op.SettleOp? && WellFormed(op) && op.order != o
    requires Holding(l, l', o) && Apply(l, op).Ok?
    ensures Apply(l', op).Ok? && Holding(After(l, op), After(l', op), o)
  {
    OthersMark(l.rows, {op.order}, op.kind, o);
    OthersMark(l'.rows, {op.order}, op.kind, o);
    OthersMatching(l.rows, {op.order}, o);
    OthersMatching(l'.rows, {op.order}, o);
    HoldFrame(l, op, o);
    HoldFrame(l', op, o);
    forall p | p in l.products
      ensures var a, b := After(l, op).products[p], After(l', op).products[p];
              a.available == b.available && a.reserved == b.reserved + Hold(l, {o}, p)
    {
      HoldingSettleStock(l, l', op.order, op.kind, o, p);
    }
  }

  /** What commits beside o's hold also commits without it, and the two ledgers stay a hold apart. */
  lemma HoldingStep(l: Ledger, l': Ledger, op: Op, o: string)
    requires Valid(l) && Valid(l') && WellFormed(op) && !On(op, o)
    requires Holding(l, l', o) && Apply(l, op).Ok?
    ensures Apply(l', op).Ok? && Holding(After(l, op), After(l', op), o)
  {
    match op
    case CreateProduct(_, _) => HoldingCreate(l, l', op, o);
    case ReserveOp(_, _) => HoldingReserve(l, l', op, o);
    case SettleOp(_, _) => HoldingSettle(l, l', op, o);
  }

  lemma {:induction false} HoldingRun(l: Ledger, l': Ledger, ops: seq<Op>, o: string)
    requires Valid(l) && Valid(l') && AllWellFormed(ops) && Holding(l, l', o)
    requires forall i :: 0 <= i < |ops| ==> !On(ops[i], o)
    requires AllCommit(l, ops)
    ensures AllCommit(l', ops) && Holding(Run(l, ops), Run(l', ops), o)
    ensures Matching(Run(l, ops).rows, {o}) == Matching(l.rows, {o})
  {
    if ops == [] {
    } else {
      var n := |ops| - 1;
      var init := ops[..n];
      HoldingRun(l, l', init, o);
      RunFromValid(l, init);
      RunFromValid(l', init);
      HoldingStep(Run(l, init), Run(l', init), ops[n], o);
      HoldFrame(Run(l, init), ops[n], o);
    }
  }

  lemma {:induction false} DemandIsReserved(o: string, items: seq<Item>, p: string)
    ensures Qty(OrderRows(o, items, Reserved), p, Reserved) == Demand(items, p)
  {
    if items == [] {
    } else {
      var rows := OrderRows(o, items, Reserved);
      assert rows[..|rows| - 1] == OrderRows(o, items[..|items| - 1], Reserved);
      DemandIsReserved(o, items[..|items| - 1], p);
    }
  }

  lemma {:induction false} OthersNone(rows: seq<Row>, o: string)
    requires forall i :: 0 <= i < |rows| ==> rows[i].order == o
    ensures Others(rows, o) == []
  {
    if rows == [] {
    } else {
      OthersNone(rows[..|rows| - 1], o);
    }
  }

  lemma HoldOfRows(l: Ledger, o: string, items: seq<Item>)
    requires Matching(l.rows, {o}) == []
    ensures Matching(l.rows + OrderRows(o, items, Reserved), {o}) == OrderRows(o, items, Reserved)
    ensures Others(l.rows + OrderRows(o, items, Reserved), o) == Others(l.rows, o)
    ensures forall p :: Qty(OrderRows(o, items, Reserved), p, Reserved) == Demand(items, p)
  {
    var rows := OrderRows(o, items, Reserved);
    MatchingConcat(l.rows, rows, {o});
    MatchingAll(rows, {o});
    OthersConcat(l.rows, rows, o);
    OthersNone(rows, o);
    forall p ensures Qty(rows, p, Reserved) == Demand(items, p) { DemandIsReserved(o, items, p); }
  }

  /** What a fresh order holds right after its reserve is what its items ask for. */
  lemma HoldAfterReserve(l: Ledger, o: string, items: seq<Item>)
    requires Valid(l) && Matching(l.rows, {o}) == [] && ReserveAll(l, o, items).Ok?
    ensures var l1 := ReserveAll(l, o, items).ledger;
            && Matching(l1.rows, {o}) == OrderRows(o, items, Reserved)
            && (forall p :: Hold(l1, {o}, p) == Demand(items, p))
            && Holding(l1, l, o)
  {
    ReserveExact(l, o, items);
    HoldOfRows(l, o, items);
  }

  /** The stock is that of `alone`, with o's totals sold if kind is Decremented. */
  ghost predicate CancelsTo(settled: Result, alone: map<string, Product>, items: seq<Item>, kind: Status) {
    && settled.Ok?
    && settled.ledger.products.Keys == alone.Keys
    && forall p :: p in alone ==>
         settled.ledger.products[p] ==
           if kind == Decremented then Product(alone[p].available - Demand(items, p), alone[p].reserved)
           else alone[p]
  }

  lemma SettleAHold(l: Ledger, l': Ledger, o: string, items: seq<Item>, kind: Status)
    requires Holding(l, l', o) && items != [] && Matching(l.rows, {o}) == OrderRows(o, items, Reserved)
    ensures CancelsTo(Settle(l, {o}, kind), l'.products, items, kind)
  {
    forall p ensures Hold(l, {o}, p) == Demand(items, p) { DemandIsReserved(o, items, p); }
    assert |Matching(l.rows, {o})| == |items|;
  }

  /** Reserve(o), committed transactions of others, Release(o): the stock is what those others
      alone produce, and they all succeed alone. With Decrement(o) only stock_available differs, by
      o's totals. */
  lemma CompensationCancels(l: Ledger, o: string, items: seq<Item>, ops: seq<Op>, kind: Status)
    requires Valid(l) && Matching(l.rows, {o}) == [] && items != []
    requires ReserveAll(l, o, items).Ok?
    requires AllWellFormed(ops) && kind != Reserved
    requires forall i :: 0 <= i < |ops| ==> !On(ops[i], o)
    requires AllCommit(ReserveAll(l, o, items).ledger, ops)
    ensures AllCommit(l, ops)
    ensures CancelsTo(Settle(Run(ReserveAll(l, o, items).ledger, ops), {o}, kind), Run(l, ops).products, items, kind)
  {
    var l1 := ReserveAll(l, o, items).ledger;
    HoldAfterReserve(l, o, items);
    ReserveAllValid(l, o, items);
    HoldingRun(l1, l, ops, o);
    SettleAHold(Run(l1, ops), Run(l, ops), o, items, kind);
  }

  /******* Settling several orders *******/

  lemma {:induction false} HoldSplit(rows: seq<Row>, a: set<string>, b: set<string>, p: string)
    ensures Qty(Matching(rows, a), p, Reserved) + Qty(Matching(rows, b - a), p, Reserved)
              == Qty(Matching(rows, a + b), p, Reserved)
  {
    if rows == [] {
    } else {
      HoldSplit(rows[..|rows| - 1], a, b, p);
      QtyMatchingSnoc(rows, a, p);
      QtyMatchingSnoc(rows, b - a, p);
      QtyMatchingSnoc(rows, a + b, p);
    }
  }

  lemma MarkTwice(rows: seq<Row>, a: set<string>, b: set<string>, kind: Status)
    requires kind != Reserved
    ensures Mark(Mark(rows, a, kind), b, kind) == Mark(rows, a + b, kind)
  {
  }

  /** Settle, or leave alone what holds nothing: the effect of a delivered request. */
  function Settled(l: Ledger, orders: set<string>, kind: Status): Ledger {
    Ledger(SettledProducts(l, orders, kind), Mark(l.rows, orders, kind))
  }

  lemma {:induction false} MarkNone(rows: seq<Row>, os: set<string>, kind: Status)
    requires Matching(rows, os) == []
    ensures Mark(rows, os, kind) == rows
  {
    if rows == [] {
    } else {
      MarkNone(rows[..|rows| - 1], os, kind);
    }
  }

  lemma SettledNone(l: Ledger, kind: Status)
    ensures Settled(l, {}, kind) == l
  {
    MatchingNone(l.rows, {});
    MarkNone(l.rows, {}, kind);
    assert Settled(l, {}, kind).products == l.products;
  }

  lemma SettledIsAfter(l: Ledger, o: string, kind: Status)
    requires kind != Reserved
    ensures Settled(l, {o}, kind) == After(l, SettleOp(o, kind))
  {
    if Matching(l.rows, {o}) == [] { MarkNone(l.rows, {o}, kind); }
  }

  lemma HoldUnion(l: Ledger, a: set<string>, b: set<string>, p: string, kind: Status)
    requires kind != Reserved
    ensures Hold(l, a, p) + Hold(Settled(l, a, kind), b, p) == Hold(l, a + b, p)
  {
    HoldSplit(l.rows, a, b, p);
    MatchingMark(l.rows, a, b, kind);
  }

  lemma SettleTwice(p: Product, q: int, r: int, kind: Status)
    ensures SettleProduct(SettleProduct(p, q, kind), r, kind) == SettleProduct(p, q + r, kind)
  {
  }

  /** Settling one set of orders after another is settling their union, so the order does not matter. */
  lemma SettledUnion(l: Ledger, a: set<string>, b: set<string>, kind: Status)
    requires kind != Reserved
    ensures Settled(Settled(l, a, kind), b, kind) == Settled(l, a + b, kind)
  {
    var once, twice := Settled(l, a + b, kind), Settled(Settled(l, a, kind), b, kind);
    forall p | p in l.products ensures twice.products[p] == once.products[p] {
      HoldUnion(l, a, b, p, kind);
      SettleTwice(l.products[p], Hold(l, a, p), Hold(Settled(l, a, kind), b, p), kind);
    }
    assert twice.products == once.products;
    MarkTwice(l.rows, a, b, kind);
  }
}
