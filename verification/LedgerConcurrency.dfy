/**
The stock transactions statement by statement, at the default READ COMMITTED isolation.

Each transaction works on private versions of the product rows it has locked; a lock is kept
until commit or rollback, and a statement that needs a row locked by another transaction cannot
run yet. Inserted rows and status changes become visible at commit. A deadlock victim, a lost
connection or any other database error is an Abort, possible at every point.

A SELECT ... FOR UPDATE that has to wait reads, here, when it gets its locks. The database takes its
snapshot when the statement starts: it sees later status changes of the rows it waits for, but not
rows that a reserve of the order commits meanwhile. Under the no-overlap assumption there are none:
whoever the SELECT waits for is itself between its SELECT and its COMMIT.
*/
module LedgerConcurrency {
  import opened Common
  import opened StockLedger
  import opened LedgerTheorems

  /** Which statement of the current item is next; `product` is the row that the SELECT scanned. */
  datatype Phase = Locking | Updating(product: Product) | Inserting(product: Product)

  datatype Tx =
    | Reserving(order: string, items: seq<Item>, next: nat, phase: Phase, held: map<string, Product>,
        inserted: seq<Row>)
    | Selecting(order: string, kind: Status, held: map<string, Product>)
    | Settling(order: string, kind: Status, sel: seq<Row>, at: nat, held: map<string, Product>)
    | Marked(order: string, kind: Status, sel: seq<Row>, held: map<string, Product>, seen: nat)

  /** A transaction that answered: which one, and its error if it was refused. */
  datatype Entry = Entry(op: Op, refusal: Option<Failure>)

  datatype Sys = Sys(db: Ledger, txs: map<nat, Tx>, log: seq<Entry>)

  datatype Action =
    | Begin(t: nat, op: Op)
    | Statement(t: nat, rows: seq<Row>)   // rows: what the SELECT of release and decrement returns
    | Abort(t: nat)
    | Create(id: string, stock: int)      // CreateProduct is a single statement

  function OpOf(tx: Tx): Op {
    if tx.Reserving? then ReserveOp(tx.order, tx.items) else SettleOp(tx.order, tx.kind)
  }

  predicate LocksRowsOf(tx: Tx, o: string) {
    (tx.Settling? || tx.Marked?) && tx.order == o
  }

  /** The product row that the next statement locks or has locked. */
  function Wants(tx: Tx): Option<string> {
    if tx.Reserving? && tx.next < |tx.items| then Some(tx.items[tx.next].product)
    else if tx.Settling? && tx.at < |tx.sel| then Some(tx.sel[tx.at].product)
    else None
  }

  /** What the next statement of a transaction does, once it has its locks. */
  datatype Move =
    | Impossible
    | Rejected(failure: Failure)
    | Moved(tx: Tx)
    | Committed(db: Ledger)

  function ReserveMove(db: Ledger, tx: Tx): Move
    requires tx.Reserving?
  {
    if tx.next >= |tx.items| then
      Committed(Ledger(db.products + tx.held, db.rows + tx.inserted))
    else
      var item, view := tx.items[tx.next], db.products + tx.held;
      var p := item.product;
      match tx.phase
      case Locking =>
        if p !in view then Rejected(NotFound)
        else if Wrap32(view[p].available - view[p].reserved) < item.quantity then Rejected(InsufficientStock)
        else Moved(tx.(phase := Updating(view[p]), held := tx.held[p := view[p]]))
      case Updating(product) =>
        if p !in view then Moved(tx.(phase := Inserting(product)))
        else
          var v := view[p].(reserved := view[p].reserved + item.quantity);
          if !StockAllowed(v) then Rejected(DbError)
          else Moved(tx.(phase := Inserting(product), held := tx.held[p := v]))
      case Inserting(_) =>
        if item.quantity <= 0 then Rejected(DbError)
        else Moved(tx.(phase := Locking, next := tx.next + 1,
                       inserted := tx.inserted + [Row(tx.order, p, item.quantity, Reserved)]))
  }

  /** The UPDATE by predicate marks the rows it hits among the `seen` rows committed before it. Their
      locks keep them as they are until the commit makes the marks visible. */
  function MarkSeen(rows: seq<Row>, seen: nat, o: string, kind: Status): (r: seq<Row>)
    ensures |r| == |rows|
    ensures forall i :: 0 <= i < |rows| ==> r[i] == if i < seen then MarkRow(rows[i], {o}, kind) else rows[i]
  {
    seq(|rows|, i requires 0 <= i < |rows| => if i < seen then MarkRow(rows[i], {o}, kind) else rows[i])
  }

  function SettleMove(db: Ledger, tx: Tx, rows: seq<Row>): Move
    requires !tx.Reserving?
  {
    match tx
    case Selecting(o, kind, held) =>
      if multiset(rows) != multiset(Matching(db.rows, {o})) then Impossible
      else if rows == [] then Rejected(InvalidReservation)
      else Moved(Settling(o, kind, rows, 0, held))
    case Settling(o, kind, sel, at, held) =>
      if at >= |sel| then Moved(Marked(o, kind, sel, held, |db.rows|))
      else
        var p, view := sel[at].product, db.products + held;
        if p !in view then Moved(Settling(o, kind, sel, at + 1, held))
        else
          var v := SettleProduct(view[p], sel[at].quantity, kind);
          if !StockAllowed(v) then Rejected(DbError)
          else Moved(Settling(o, kind, sel, at + 1, held[p := v]))
    case Marked(o, kind, _, held, seen) =>
      Committed(Ledger(db.products + held, MarkSeen(db.rows, seen, o, kind)))
  }

  function MoveOf(db: Ledger, tx: Tx, rows: seq<Row>): Move {
    if tx.Reserving? then ReserveMove(db, tx) else SettleMove(db, tx, rows)
  }

  function Remove(txs: map<nat, Tx>, t: nat): map<nat, Tx> {
    map u | u in txs && u != t :: txs[u]
  }

  /** Another transaction holds a lock that t's next statement needs. */
  ghost predicate Blocked(txs: map<nat, Tx>, t: nat)
    requires t in txs
  {
    exists u :: u in txs && u != t
      && ((Wants(txs[t]).Some? && Wants(txs[t]).value in txs[u].held)
          || (txs[t].Selecting? && LocksRowsOf(txs[u], txs[t].order)))
  }

  ghost function Next(s: Sys, a: Action): Option<Sys> {
    match a
    case Begin(t, op) =>
      if t in s.txs || !WellFormed(op) then None
      else (match op
        case ReserveOp(o, items) => Some(s.(txs := s.txs[t := Reserving(o, items, 0, Locking, map[], [])]))
        case SettleOp(o, kind) => Some(s.(txs := s.txs[t := Selecting(o, kind, map[])]))
        case CreateProduct(_, _) => None)
    case Statement(t, rows) =>
      if t !in s.txs || Blocked(s.txs, t) then None
      else (match MoveOf(s.db, s.txs[t], rows)
        case Impossible => None
        case Rejected(e) => Some(Sys(s.db, Remove(s.txs, t), s.log + [Entry(OpOf(s.txs[t]), Some(e))]))
        case Moved(tx) => Some(s.(txs := s.txs[t := tx]))
        case Committed(db) => Some(Sys(db, Remove(s.txs, t), s.log + [Entry(OpOf(s.txs[t]), None)])))
    case Abort(t) => if t in s.txs then Some(s.(txs := Remove(s.txs, t))) else None
    case Create(id, stock) =>
      var op := CreateProduct(id, stock);
      if Apply(s.db, op).Err? then None
      else Some(s.(db := After(s.db, op), log := s.log + [Entry(op, None)]))
  }

  ghost function Exec(s: Sys, actions: seq<Action>): Option<Sys> {
    if actions == [] then Some(s)
    else match Exec(s, actions[..|actions| - 1])
      case None => None
      case Some(mid) => Next(mid, actions[|actions| - 1])
  }

  /** The assumption: no reserve of an order commits while a release or decrement of the same
      order is between its SELECT and its COMMIT. */
  ghost predicate NoOverlap(s: Sys, a: Action) {
    a.Statement? && a.t in s.txs && s.txs[a.t].Reserving? && s.txs[a.t].next >= |s.txs[a.t].items| ==>
      forall u :: u in s.txs ==> !LocksRowsOf(s.txs[u], s.txs[a.t].order)
  }

  ghost predicate NeverOverlaps(s: Sys, actions: seq<Action>) {
    actions == []
    || (NeverOverlaps(s, actions[..|actions| - 1])
        && match Exec(s, actions[..|actions| - 1])
           case None => true
           case Some(mid) => NoOverlap(mid, actions[|actions| - 1]))
  }

  /** Runs the answered transactions one at a time; None if one of them answers differently. */
  function Replay(l: Ledger, log: seq<Entry>): Option<Ledger> {
    if log == [] then Some(l)
    else match Replay(l, log[..|log| - 1])
      case None => None
      case Some(m) =>
        var e := log[|log| - 1];
        match Apply(m, e.op)
        case Ok(l') => if e.refusal == None then Some(l') else None
        case Err(f) => if e.refusal == Some(f) then Some(m) else None
  }

  /******* The invariant *******/

  ghost predicate Agree(a: map<string, Product>, b: map<string, Product>, on: set<string>) {
    forall p :: p in on ==> (p in a <==> p in b) && (p in a ==> a[p] == b[p])
  }

  /** The first n items, reserved atomically on the committed tables, give these private versions. */
  ghost predicate ReservedSoFar(db: Ledger, o: string, items: seq<Item>, n: nat, own: map<string, Product>,
      inserted: seq<Row>) {
    && n <= |items|
    && own.Keys <= db.products.Keys
    && (forall i :: 0 <= i < n ==> items[i].product in own)
    && inserted == OrderRows(o, items[..n], Reserved)
    && ReserveAll(db, o, items[..n]) == Ok(Ledger(db.products + own, db.rows + inserted))
  }

  /** The item's product is locked, was scanned as `product`, and has the stock. */
  ghost predicate Scanned(item: Item, held: map<string, Product>, product: Product) {
    item.product in held && item.quantity <= Wrap32(product.available - product.reserved)
  }

  ghost predicate ReservingOk(db: Ledger, tx: Tx)
    requires tx.Reserving?
  {
    match tx.phase
    case Locking => ReservedSoFar(db, tx.order, tx.items, tx.next, tx.held, tx.inserted)
    case Updating(product) =>
      && tx.next < |tx.items|
      && Scanned(tx.items[tx.next], tx.held, product)
      && tx.held[tx.items[tx.next].product] == product
      && ReservedSoFar(db, tx.order, tx.items, tx.next, tx.held, tx.inserted)
    case Inserting(product) =>
      && tx.next < |tx.items|
      && Scanned(tx.items[tx.next], tx.held, product)
      && var item := tx.items[tx.next];
         tx.held[item.product] == product.(reserved := product.reserved + item.quantity)
         && StockAllowed(tx.held[item.product])
         && ReservedSoFar(db, tx.order, tx.items, tx.next, tx.held[item.product := product], tx.inserted)
  }

  /** The loop over the selected rows has been applied to the first of them, on private versions. */
  ghost predicate Applying(db: Ledger, kind: Status, sel: seq<Row>, at: nat, held: map<string, Product>) {
    && kind != Reserved
    && at <= |sel| && sel != []
    && held.Keys <= db.products.Keys
    && (forall i :: 0 <= i < at ==> sel[i].product in held)
    && SettleEach(db.products, sel[..at], kind) == Applied(db.products + held)
  }

  /** Nothing that the order holds is behind the selection. */
  ghost predicate SettlingOk(db: Ledger, o: string, kind: Status, sel: seq<Row>, at: nat, held: map<string, Product>) {
    Applying(db, kind, sel, at, held) && multiset(sel) == multiset(Matching(db.rows, {o}))
  }

  ghost predicate TxOk(db: Ledger, tx: Tx) {
    match tx
    case Reserving(_, _, _, _, _, _) => ReservingOk(db, tx)
    case Selecting(_, kind, held) => kind != Reserved && held == map[]
    case Settling(o, kind, sel, at, held) => SettlingOk(db, o, kind, sel, at, held)
    case Marked(o, kind, sel, held, seen) =>
      SettlingOk(db, o, kind, sel, |sel|, held) && seen <= |db.rows| && Matching(db.rows[seen..], {o}) == []
  }

  /** No product row and no reservation row is locked by both transactions. */
  ghost predicate Apart(x: Tx, y: Tx) {
    x.held.Keys !! y.held.Keys && !(LocksRowsOf(x, x.order) && LocksRowsOf(y, x.order))
  }

  ghost predicate Exclusive(txs: map<nat, Tx>) {
    forall t, u :: t in txs && u in txs && t != u ==> Apart(txs[t], txs[u])
  }

  ghost predicate AllOk(db: Ledger, txs: map<nat, Tx>) {
    forall t :: t in txs ==> TxOk(db, txs[t])
  }

  ghost predicate Inv(l: Ledger, s: Sys) {
    Valid(s.db) && Replay(l, s.log) == Some(s.db) && Exclusive(s.txs) && AllOk(s.db, s.txs)
  }

  /******* Locality: a transaction's statements depend only on the rows it holds *******/

  lemma {:induction false} ReserveLocal(a: Ledger, b: Ledger, o: string, items: seq<Item>, on: set<string>)
    requires Agree(a.products, b.products, on)
    requires forall i :: 0 <= i < |items| ==> items[i].product in on
    requires ReserveAll(a, o, items).Ok?
    ensures ReserveAll(b, o, items).Ok?
    ensures var a', b' := ReserveAll(a, o, items).ledger, ReserveAll(b, o, items).ledger;
            && Agree(a'.products, b'.products, on)
            && b'.products.Keys == b.products.Keys
            && (forall p :: p in b.products && p !in on ==> b'.products[p] == b.products[p])
            && b'.rows == b.rows + OrderRows(o, items, Reserved)
  {
    if items == [] {
    } else {
      var init := items[..|items| - 1];
      ReserveLocal(a, b, o, init, on);
      var x := items[|items| - 1];
      assert x.product in on;
      assert OrderRows(o, items, Reserved) == OrderRows(o, init, Reserved) + [Row(o, x.product, x.quantity, Reserved)];
    }
  }

  lemma {:induction false} SettleLocal(a: map<string, Product>, b: map<string, Product>, sel: seq<Row>, kind: Status,
      on: set<string>)
    requires Agree(a, b, on)
    requires forall i :: 0 <= i < |sel| ==> sel[i].product in on
    requires SettleEach(a, sel, kind).Applied?
    ensures SettleEach(b, sel, kind).Applied?
    ensures var a', b' := SettleEach(a, sel, kind).products, SettleEach(b, sel, kind).products;
            && Agree(a', b', on)
            && b'.Keys == b.Keys
            && (forall p :: p in b && p !in on ==> b'[p] == b[p])
  {
    if sel == [] {
    } else {
      SettleLocal(a, b, sel[..|sel| - 1], kind, on);
      assert sel[|sel| - 1].product in on;
    }
  }

  /** db' is what db becomes when someone else commits: rows held here are untouched. */
  ghost predicate Undisturbed(db: Ledger, db': Ledger, tx: Tx) {
    && db.products.Keys <= db'.products.Keys
    && (forall p :: p in tx.held && p in db.products ==> db'.products[p] == db.products[p])
    && (LocksRowsOf(tx, tx.order) ==>
          Matching(db'.rows, {tx.order}) == Matching(db.rows, {tx.order}) && |db.rows| <= |db'.rows|)
    && (tx.Marked? && tx.seen <= |db.rows| <= |db'.rows| ==>
          Matching(db'.rows[tx.seen..], {tx.order}) == Matching(db.rows[tx.seen..], {tx.order}))
  }

  lemma ReservedFrame(db: Ledger, db': Ledger, o: string, items: seq<Item>, n: nat, own: map<string, Product>,
      inserted: seq<Row>)
    requires ReservedSoFar(db, o, items, n, own, inserted)
    requires db.products.Keys <= db'.products.Keys
    requires forall p :: p in own ==> db'.products[p] == db.products[p]
    ensures ReservedSoFar(db', o, items, n, own, inserted)
  {
    ReserveLocal(db, db', o, items[..n], own.Keys);
    var b := ReserveAll(db', o, items[..n]).ledger;
    assert b.products == db'.products + own;
  }

  lemma ApplyingFrame(db: Ledger, db': Ledger, kind: Status, sel: seq<Row>, at: nat, held: map<string, Product>)
    requires Applying(db, kind, sel, at, held)
    requires db.products.Keys <= db'.products.Keys
    requires forall p :: p in held ==> db'.products[p] == db.products[p]
    ensures Applying(db', kind, sel, at, held)
  {
    SettleLocal(db.products, db'.products, sel[..at], kind, held.Keys);
    var b := SettleEach(db'.products, sel[..at], kind).products;
    assert b == db'.products + held;
  }

  lemma TxOkFrame(db: Ledger, db': Ledger, tx: Tx)
    requires TxOk(db, tx) && Undisturbed(db, db', tx)
    ensures TxOk(db', tx)
  {
    match tx
    case Selecting(_, _, _) =>
    case Reserving(o, items, n, phase, held, inserted) =>
      var own := if phase.Inserting? then held[items[n].product := phase.product] else held;
      assert ReservedSoFar(db, o, items, n, own, inserted);
      assert own.Keys == held.Keys;
      ReservedFrame(db, db', o, items, n, own, inserted);
    case Settling(_, kind, sel, at, held) => ApplyingFrame(db, db', kind, sel, at, held);
    case Marked(_, kind, sel, held, _) => ApplyingFrame(db, db', kind, sel, |sel|, held);
  }

  /******* One statement of one transaction *******/

  lemma ReserveSnoc(l: Ledger, o: string, items: seq<Item>, k: nat)
    requires k < |items| && ReserveAll(l, o, items[..k]).Ok?
    ensures ReserveAll(l, o, items[..k + 1]) == ReserveOne(ReserveAll(l, o, items[..k]).ledger, o, items[k])
    ensures ReserveAll(l, o, items[..k + 1]).Err? ==> ReserveAll(l, o, items) == ReserveAll(l, o, items[..k + 1])
  {
    assert items[..k + 1][..k] == items[..k];
    if ReserveAll(l, o, items[..k + 1]).Err? {
      ReserveStopsAtError(l, o, items, k + 1);
    }
  }

  /** Locking a row for an item changes no version. */
  lemma LockKeeps(db: Ledger, o: string, items: seq<Item>, n: nat, own: map<string, Product>, inserted: seq<Row>,
      p: string)
    requires ReservedSoFar(db, o, items, n, own, inserted) && p in db.products
    ensures ReservedSoFar(db, o, items, n, own[p := (db.products + own)[p]], inserted)
  {
  }

  /** The versions and rows after UPDATE and INSERT of an item. */
  lemma OneMore(db: Ledger, o: string, items: seq<Item>, n: nat, own: map<string, Product>, inserted: seq<Row>,
      v: Product)
    requires n < |items| && items[n].product in own && inserted == OrderRows(o, items[..n], Reserved)
    ensures var x, own' := items[n], own[items[n].product := v];
            var row := [Row(o, x.product, x.quantity, Reserved)];
            && (db.products + own)[x.product := v] == db.products + own'
            && db.rows + inserted + row == db.rows + (inserted + row)
            && inserted + row == OrderRows(o, items[..n + 1], Reserved)
  {
    assert items[..n + 1] == items[..n] + [items[n]];
    OrderRowsConcat(items[..n], [items[n]], o, Reserved);
  }

  /** After UPDATE and INSERT the atomic loop is one item further. */
  lemma InsertAdvances(db: Ledger, o: string, items: seq<Item>, n: nat, own: map<string, Product>, inserted: seq<Row>)
    requires ReservedSoFar(db, o, items, n, own, inserted) && n < |items|
    requires items[n].product in own
    requires Scanned(items[n], own, own[items[n].product]) && items[n].quantity > 0
    requires StockAllowed(own[items[n].product].(reserved := own[items[n].product].reserved + items[n].quantity))
    ensures var x := items[n];
            ReservedSoFar(db, o, items, n + 1,
                          own[x.product := own[x.product].(reserved := own[x.product].reserved + x.quantity)],
                          inserted + [Row(o, x.product, x.quantity, Reserved)])
  {
    var x := items[n];
    var v := own[x.product].(reserved := own[x.product].reserved + x.quantity);
    ReserveSnoc(db, o, items, n);
    OneMore(db, o, items, n, own, inserted, v);
    assert (db.products + own)[x.product] == own[x.product];
  }

  lemma RefusalIsAtomic(db: Ledger, o: string, items: seq<Item>, n: nat, own: map<string, Product>, inserted: seq<Row>)
    requires ReservedSoFar(db, o, items, n, own, inserted) && n < |items|
    ensures var now := ReserveOne(Ledger(db.products + own, db.rows + inserted), o, items[n]);
            now.Err? ==> ReserveAll(db, o, items) == now
  {
    ReserveSnoc(db, o, items, n);
  }

  /** What a statement leaves behind is in order, and what it answers is what the atomic operation
      would answer on the tables as committed at that moment. */
  ghost predicate MoveOk(db: Ledger, tx: Tx, m: Move) {
    match m
    case Impossible => true
    case Rejected(e) => Apply(db, OpOf(tx)) == Err(e)
    case Committed(db') => Apply(db, OpOf(tx)) == Ok(db')
    case Moved(tx') =>
      && TxOk(db, tx')
      && tx'.order == tx.order
      && tx'.held.Keys <= tx.held.Keys + (if Wants(tx).Some? then {Wants(tx).value} else {})
      && (LocksRowsOf(tx', tx.order) ==> LocksRowsOf(tx, tx.order) || tx.Selecting?)
  }

  lemma LockMoveOk(db: Ledger, tx: Tx)
    requires tx.Reserving? && tx.phase.Locking? && tx.next < |tx.items| && TxOk(db, tx)
    ensures MoveOk(db, tx, ReserveMove(db, tx))
  {
    RefusalIsAtomic(db, tx.order, tx.items, tx.next, tx.held, tx.inserted);
    var p := tx.items[tx.next].product;
    if p in db.products { LockKeeps(db, tx.order, tx.items, tx.next, tx.held, tx.inserted, p); }
  }

  lemma UpdateMoveOk(db: Ledger, tx: Tx)
    requires tx.Reserving? && tx.phase.Updating? && TxOk(db, tx)
    ensures MoveOk(db, tx, ReserveMove(db, tx))
  {
    RefusalIsAtomic(db, tx.order, tx.items, tx.next, tx.held, tx.inserted);
    var item, product := tx.items[tx.next], tx.phase.product;
    var v := product.(reserved := product.reserved + item.quantity);
    assert (db.products + tx.held)[item.product] == product;
    assert tx.held[item.product := v][item.product := product] == tx.held;
  }

  lemma InsertRefused(db: Ledger, tx: Tx)
    requires tx.Reserving? && tx.phase.Inserting? && TxOk(db, tx) && tx.items[tx.next].quantity <= 0
    ensures MoveOk(db, tx, ReserveMove(db, tx))
  {
    var item, product := tx.items[tx.next], tx.phase.product;
    var own := tx.held[item.product := product];
    RefusalIsAtomic(db, tx.order, tx.items, tx.next, own, tx.inserted);
    assert (db.products + own)[item.product] == product;
  }

  lemma InsertReserves(db: Ledger, tx: Tx)
    requires tx.Reserving? && tx.phase.Inserting? && TxOk(db, tx) && tx.items[tx.next].quantity > 0
    ensures var x := tx.items[tx.next];
            ReservedSoFar(db, tx.order, tx.items, tx.next + 1, tx.held,
                          tx.inserted + [Row(tx.order, x.product, x.quantity, Reserved)])
  {
    var item, product := tx.items[tx.next], tx.phase.product;
    var own := tx.held[item.product := product];
    InsertAdvances(db, tx.order, tx.items, tx.next, own, tx.inserted);
    assert own[item.product := tx.held[item.product]] == tx.held;
  }

  lemma InsertWorks(db: Ledger, tx: Tx)
    requires tx.Reserving? && tx.phase.Inserting? && TxOk(db, tx) && tx.items[tx.next].quantity > 0
    ensures MoveOk(db, tx, ReserveMove(db, tx))
  {
    InsertReserves(db, tx);
  }

  lemma InsertMoveOk(db: Ledger, tx: Tx)
    requires tx.Reserving? && tx.phase.Inserting? && TxOk(db, tx)
    ensures MoveOk(db, tx, ReserveMove(db, tx))
  {
    if tx.items[tx.next].quantity <= 0 { InsertRefused(db, tx); } else { InsertWorks(db, tx); }
  }

  lemma ReserveMoveOk(db: Ledger, tx: Tx)
    requires tx.Reserving? && TxOk(db, tx)
    ensures MoveOk(db, tx, ReserveMove(db, tx))
  {
    if tx.next >= |tx.items| {
      assert tx.items[..tx.next] == tx.items;
    } else {
      match tx.phase
      case Locking => LockMoveOk(db, tx);
      case Updating(_) => UpdateMoveOk(db, tx);
      case Inserting(_) => InsertMoveOk(db, tx);
    }
  }

  lemma NextOfLoop(db: Ledger, kind: Status, sel: seq<Row>, at: nat, held: map<string, Product>)
    requires Applying(db, kind, sel, at, held) && at < |sel| && sel[at].product in db.products
    requires SettleEach(db.products, sel[..at + 1], kind).Applied?
    ensures var p, view := sel[at].product, db.products + held;
            p in view && (var v := SettleProduct(view[p], sel[at].quantity, kind);
                          StockAllowed(v) && Applying(db, kind, sel, at + 1, held[p := v]))
  {
    var p, view := sel[at].product, db.products + held;
    assert sel[..at + 1][..at] == sel[..at];
    var v := SettleProduct(view[p], sel[at].quantity, kind);
    assert view[p := v] == db.products + held[p := v];
  }

  /** One more UPDATE of the loop: no CHECK refuses it, whether or not rows were added behind the selection. */
  lemma ApplyNext(db: Ledger, o: string, kind: Status, sel: seq<Row>, at: nat, held: map<string, Product>)
    requires Covered(db) && Applying(db, kind, sel, at, held) && at < |sel|
    requires multiset(sel) <= multiset(Matching(db.rows, {o}))
    ensures var p, view := sel[at].product, db.products + held;
            && p in view
            && (var v := SettleProduct(view[p], sel[at].quantity, kind);
                StockAllowed(v) && Applying(db, kind, sel, at + 1, held[p := v]))
  {
    PartOf(db, {o}, sel);
    LoopApplies(db, {o}, sel, kind, at + 1);
    NextOfLoop(db, kind, sel, at, held);
  }

  /** If no row of the order was added behind those the UPDATE has seen, it marks all the order holds. */
  lemma MarkSeenAll(rows: seq<Row>, seen: nat, o: string, kind: Status)
    requires seen <= |rows| && Matching(rows[seen..], {o}) == []
    ensures MarkSeen(rows, seen, o, kind) == Mark(rows, {o}, kind)
  {
    MarkNone(rows[seen..], {o}, kind);
    forall i | seen <= i < |rows| ensures MarkRow(rows[i], {o}, kind) == rows[i] {
      assert rows[seen..][i - seen] == rows[i];
    }
  }

  lemma MarkedCommits(db: Ledger, o: string, kind: Status, sel: seq<Row>, held: map<string, Product>, seen: nat)
    requires Valid(db) && SettlingOk(db, o, kind, sel, |sel|, held)
    requires seen <= |db.rows| && Matching(db.rows[seen..], {o}) == []
    ensures Settle(db, {o}, kind) == Ok(Ledger(db.products + held, MarkSeen(db.rows, seen, o, kind)))
  {
    SelectionSound(db, {o}, sel);
    ChecksNeverFire(db, {o}, sel, kind, |sel|);
    assert sel[..|sel|] == sel;
    MarkSeenAll(db.rows, seen, o, kind);
  }

  lemma SelectMoveOk(db: Ledger, tx: Tx, rows: seq<Row>)
    requires Valid(db) && tx.Selecting? && TxOk(db, tx)
    ensures MoveOk(db, tx, SettleMove(db, tx, rows))
  {
    assert |multiset(rows)| == |rows|;
    assert |multiset(Matching(db.rows, {tx.order}))| == |Matching(db.rows, {tx.order})|;
    assert db.products + tx.held == db.products;
  }

  lemma LoopMoveOk(db: Ledger, tx: Tx, rows: seq<Row>)
    requires Valid(db) && tx.Settling? && TxOk(db, tx)
    ensures MoveOk(db, tx, SettleMove(db, tx, rows))
  {
    if tx.at < |tx.sel| {
      ValidIsCovered(db);
      ApplyNext(db, tx.order, tx.kind, tx.sel, tx.at, tx.held);
    } else {
      assert db.rows[|db.rows|..] == [];
    }
  }

  lemma SettleMoveOk(db: Ledger, tx: Tx, rows: seq<Row>)
    requires Valid(db) && !tx.Reserving? && TxOk(db, tx)
    ensures MoveOk(db, tx, SettleMove(db, tx, rows))
  {
    match tx
    case Selecting(_, _, _) => SelectMoveOk(db, tx, rows);
    case Settling(_, _, _, _, _) => LoopMoveOk(db, tx, rows);
    case Marked(o, kind, sel, held, seen) => MarkedCommits(db, o, kind, sel, held, seen);
  }

  lemma MoveIsOk(db: Ledger, tx: Tx, rows: seq<Row>)
    requires Valid(db) && TxOk(db, tx)
    ensures MoveOk(db, tx, MoveOf(db, tx, rows))
  {
    if tx.Reserving? { ReserveMoveOk(db, tx); } else { SettleMoveOk(db, tx, rows); }
  }

  lemma MoveKeepsOp(db: Ledger, tx: Tx, rows: seq<Row>)
    requires MoveOf(db, tx, rows).Moved?
    ensures MoveOf(db, tx, rows).tx.order == tx.order && OpOf(MoveOf(db, tx, rows).tx) == OpOf(tx)
  {
  }

  /******* What a commit leaves alone *******/

  /** Rows appended by another order, or marked by it, are none that the order o holds. */
  lemma AppendKeeps(rows: seq<Row>, added: seq<Row>, seen: nat, o: string)
    requires seen <= |rows|
    requires forall i :: 0 <= i < |added| ==> added[i].order != o
    ensures Matching((rows + added)[seen..], {o}) == Matching(rows[seen..], {o})
  {
    assert (rows + added)[seen..] == rows[seen..] + added;
    MatchingConcat(rows[seen..], added, {o});
    MatchingNone(added, {o});
  }

  lemma MarkKeeps(rows: seq<Row>, u: string, kind: Status, seen: nat, o: string)
    requires seen <= |rows| && u != o && kind != Reserved
    ensures Matching(Mark(rows, {u}, kind)[seen..], {o}) == Matching(rows[seen..], {o})
  {
    assert Mark(rows, {u}, kind)[seen..] == Mark(rows[seen..], {u}, kind);
    MatchingMark(rows[seen..], {u}, {o}, kind);
    assert {o} - {u} == {o};
  }

  lemma ReserveUndisturbing(db: Ledger, tx: Tx, other: Tx)
    requires tx.Reserving? && TxOk(db, tx) && tx.next >= |tx.items| && Apart(tx, other)
    requires !LocksRowsOf(other, tx.order)
    ensures Undisturbed(db, Ledger(db.products + tx.held, db.rows + tx.inserted), other)
  {
    if LocksRowsOf(other, other.order) {
      AppendKeeps(db.rows, tx.inserted, 0, other.order);
      if other.Marked? && other.seen <= |db.rows| { AppendKeeps(db.rows, tx.inserted, other.seen, other.order); }
    }
  }

  lemma SettleUndisturbing(db: Ledger, tx: Tx, other: Tx)
    requires tx.Marked? && TxOk(db, tx) && Apart(tx, other)
    ensures Undisturbed(db, Ledger(db.products + tx.held, MarkSeen(db.rows, tx.seen, tx.order, tx.kind)), other)
  {
    MarkSeenAll(db.rows, tx.seen, tx.order, tx.kind);
    assert !LocksRowsOf(other, tx.order);
    if LocksRowsOf(other, other.order) {
      MarkKeeps(db.rows, tx.order, tx.kind, 0, other.order);
      if other.Marked? && other.seen <= |db.rows| { MarkKeeps(db.rows, tx.order, tx.kind, other.seen, other.order); }
    }
  }

  /******* Every action keeps the invariant *******/

  lemma ContinueInv(l: Ledger, s: Sys, t: nat, tx: Tx)
    requires Inv(l, s) && TxOk(s.db, tx)
    requires forall u :: u in s.txs && u != t ==> Apart(tx, s.txs[u]) && Apart(s.txs[u], tx)
    ensures Inv(l, s.(txs := s.txs[t := tx]))
  {
  }

  lemma MovedInv(l: Ledger, s: Sys, t: nat, tx: Tx)
    requires Inv(l, s) && t in s.txs && !Blocked(s.txs, t) && MoveOk(s.db, s.txs[t], Moved(tx))
    ensures Inv(l, s.(txs := s.txs[t := tx]))
  {
    forall u | u in s.txs && u != t ensures Apart(tx, s.txs[u]) && Apart(s.txs[u], tx) {
      assert Apart(s.txs[t], s.txs[u]) && Apart(s.txs[u], s.txs[t]);
    }
    ContinueInv(l, s, t, tx);
  }

  lemma RemoveInv(l: Ledger, s: Sys, t: nat, log: seq<Entry>)
    requires Inv(l, s) && Replay(l, log) == Some(s.db)
    ensures Inv(l, Sys(s.db, Remove(s.txs, t), log))
  {
  }

  lemma CommitInv(l: Ledger, s: Sys, op: Op, txs: map<nat, Tx>)
    requires Inv(l, s) && WellFormed(op) && Apply(s.db, op).Ok?
    requires txs.Keys <= s.txs.Keys
    requires forall u :: u in txs ==> txs[u] == s.txs[u] && Undisturbed(s.db, After(s.db, op), txs[u])
    ensures Inv(l, Sys(After(s.db, op), txs, s.log + [Entry(op, None)]))
  {
    assert (s.log + [Entry(op, None)])[..|s.log|] == s.log;
    ApplyValid(s.db, op);
    forall u | u in txs ensures TxOk(After(s.db, op), txs[u]) {
      TxOkFrame(s.db, After(s.db, op), txs[u]);
    }
  }

  lemma ReplayRefusal(l: Ledger, log: seq<Entry>, db: Ledger, op: Op, e: Failure)
    requires Replay(l, log) == Some(db) && Apply(db, op) == Err(e)
    ensures Replay(l, log + [Entry(op, Some(e))]) == Some(db)
  {
    assert (log + [Entry(op, Some(e))])[..|log|] == log;
  }

  lemma RejectInv(l: Ledger, s: Sys, t: nat, e: Failure)
    requires Inv(l, s) && t in s.txs && Apply(s.db, OpOf(s.txs[t])) == Err(e)
    ensures Inv(l, Sys(s.db, Remove(s.txs, t), s.log + [Entry(OpOf(s.txs[t]), Some(e))]))
  {
    ReplayRefusal(l, s.log, s.db, OpOf(s.txs[t]), e);
    RemoveInv(l, s, t, s.log + [Entry(OpOf(s.txs[t]), Some(e))]);
  }

  lemma CommittedUndisturbing(s: Sys, a: Action, db: Ledger, u: nat)
    requires a.Statement? && a.t in s.txs && NoOverlap(s, a) && Exclusive(s.txs) && TxOk(s.db, s.txs[a.t])
    requires MoveOf(s.db, s.txs[a.t], a.rows) == Committed(db)
    requires u in s.txs && u != a.t
    ensures Undisturbed(s.db, db, s.txs[u])
  {
    var tx := s.txs[a.t];
    assert Apart(tx, s.txs[u]);
    if tx.Reserving? { ReserveUndisturbing(s.db, tx, s.txs[u]); } else { SettleUndisturbing(s.db, tx, s.txs[u]); }
  }

  lemma StatementInv(l: Ledger, s: Sys, a: Action)
    requires a.Statement? && Inv(l, s) && NoOverlap(s, a) && Next(s, a).Some?
    ensures Inv(l, Next(s, a).value)
  {
    var t, tx := a.t, s.txs[a.t];
    assert TxOk(s.db, tx);
    var m := MoveOf(s.db, tx, a.rows);
    MoveIsOk(s.db, tx, a.rows);
    match m
    case Moved(tx') => MovedInv(l, s, t, tx');
    case Rejected(e) => RejectInv(l, s, t, e);
    case Committed(db) =>
      forall u | u in s.txs && u != t ensures Undisturbed(s.db, db, s.txs[u]) {
        CommittedUndisturbing(s, a, db, u);
      }
      CommitInv(l, s, OpOf(tx), Remove(s.txs, t));
  }

  /** A transaction that has just begun has read and locked nothing. */
  lemma BegunOk(db: Ledger, o: string, items: seq<Item>, kind: Status)
    requires kind != Reserved
    ensures TxOk(db, Reserving(o, items, 0, Locking, map[], []))
    ensures TxOk(db, Selecting(o, kind, map[]))
  {
    assert db.products + map[] == db.products;
    assert db.rows + [] == db.rows;
  }

  lemma BeginInv(l: Ledger, s: Sys, a: Action)
    requires Inv(l, s) && a.Begin? && Next(s, a).Some?
    ensures Inv(l, Next(s, a).value)
  {
    match a.op
    case ReserveOp(o, items) =>
      BegunOk(s.db, o, items, Released);
      ContinueInv(l, s, a.t, Reserving(o, items, 0, Locking, map[], []));
    case SettleOp(o, kind) =>
      BegunOk(s.db, o, [], kind);
      ContinueInv(l, s, a.t, Selecting(o, kind, map[]));
  }

  lemma NextInv(l: Ledger, s: Sys, a: Action)
    requires Inv(l, s) && NoOverlap(s, a) && Next(s, a).Some?
    ensures Inv(l, Next(s, a).value)
  {
    match a
    case Begin(_, _) => BeginInv(l, s, a);
    case Abort(t) => RemoveInv(l, s, t, s.log);
    case Create(id, stock) => CommitInv(l, s, CreateProduct(id, stock), s.txs);
    case Statement(_, _) => StatementInv(l, s, a);
  }

  lemma {:induction false} ExecInv(l: Ledger, actions: seq<Action>)
    requires Valid(l) && NeverOverlaps(Sys(l, map[], []), actions)
    requires Exec(Sys(l, map[], []), actions).Some?
    ensures Inv(l, Exec(Sys(l, map[], []), actions).value)
  {
    if actions == [] {
    } else {
      var init := actions[..|actions| - 1];
      ExecInv(l, init);
      NextInv(l, Exec(Sys(l, map[], []), init).value, actions[|actions| - 1]);
    }
  }

  function Ops(log: seq<Entry>): seq<Op> {
    if log == [] then [] else Ops(log[..|log| - 1]) + [log[|log| - 1].op]
  }

  lemma {:induction false} ReplayIsRun(l: Ledger, log: seq<Entry>)
    requires Replay(l, log).Some?
    ensures Replay(l, log).value == Run(l, Ops(log))
  {
    if log == [] {
    } else {
      var init := log[..|log| - 1];
      ReplayIsRun(l, init);
      assert Ops(log)[..|Ops(log)| - 1] == Ops(init);
    }
  }

  /** Every interleaving of the statements commits and answers exactly as the answered
      transactions run one at a time, in the order in which they answered. */
  lemma Serializable(l: Ledger, actions: seq<Action>)
    requires Valid(l) && NeverOverlaps(Sys(l, map[], []), actions)
    requires Exec(Sys(l, map[], []), actions).Some?
    ensures var s := Exec(Sys(l, map[], []), actions).value;
            && Replay(l, s.log) == Some(s.db)
            && s.db == Run(l, Ops(s.log))
            && Valid(s.db)
  {
    ExecInv(l, actions);
    ReplayIsRun(l, Exec(Sys(l, map[], []), actions).value.log);
  }

  /******* Every transaction is answered *******/

  lemma {:induction false} ExecIs(s: Sys, actions: seq<Action>, states: seq<Sys>)
    requires |states| == |actions| + 1 && states[0] == s
    requires forall i :: 0 <= i < |actions| ==> Next(states[i], actions[i]) == Some(states[i + 1])
    ensures Exec(s, actions) == Some(states[|actions|])
  {
    if actions == [] {
    } else {
      ExecIs(s, actions[..|actions| - 1], states[..|actions|]);
    }
  }

  lemma {:induction false} ExecConcat(s: Sys, a: seq<Action>, b: seq<Action>)
    requires Exec(s, a).Some?
    ensures Exec(s, a + b) == Exec(Exec(s, a).value, b)
  {
    if b == [] {
      assert a + b == a;
    } else {
      assert (a + b)[..|a + b| - 1] == a + b[..|b| - 1];
      ExecConcat(s, a, b[..|b| - 1]);
    }
  }

  /** Statements left until a transaction answers, at most; a SELECT of release or decrement still has to
      find out how many rows there are. */
  function Left(db: Ledger, tx: Tx): nat {
    match tx
    case Reserving(_, items, next, phase, _, _) =>
      if next >= |items| then 1
      else 3 * (|items| - next) + 1 - (match phase case Locking => 0 case Updating(_) => 1 case Inserting(_) => 2)
    case Selecting(o, _, _) => |Matching(db.rows, {o})| + 3
    case Settling(_, _, sel, at, _) => if at < |sel| then |sel| - at + 2 else 2
    case Marked(_, _, _, _, _) => 1
  }

  /** Three statements an item and the COMMIT for a reserve; for a release or decrement one a row, and the
      SELECT, the UPDATE by predicate and the COMMIT. */
  lemma LeftBounds(db: Ledger, tx: Tx)
    ensures tx.Reserving? ==> Left(db, tx) <= 3 * |tx.items| + 1
    ensures tx.Selecting? ==> Left(db, tx) <= |Matching(db.rows, {tx.order})| + 3
    ensures tx.Settling? ==> Left(db, tx) <= |tx.sel| + 2
  {
  }

  /** The rows that the SELECT of a settle may return. */
  function Selection(db: Ledger, tx: Tx): seq<Row> {
    Matching(db.rows, {tx.order})
  }

  /** A transaction that does not have to wait can take its next statement. */
  lemma CanGoOn(s: Sys, t: nat)
    requires t in s.txs && !Blocked(s.txs, t)
    ensures Next(s, Statement(t, Selection(s.db, s.txs[t]))).Some?
  {
  }

  lemma MoveDescends(db: Ledger, tx: Tx, rows: seq<Row>)
    requires TxOk(db, tx) && MoveOf(db, tx, rows).Moved?
    ensures Left(db, MoveOf(db, tx, rows).tx) < Left(db, tx)
  {
    if tx.Selecting? { SameLength(rows, Selection(db, tx)); }
  }

  /** What the transaction is answered if it is answered now, and the tables after it. */
  function Refusal(db: Ledger, op: Op): Option<Failure> {
    match Apply(db, op) case Ok(_) => None case Err(e) => Some(e)
  }

  ghost predicate AnsweredNow(s: Sys, tx: Tx, s': Sys) {
    && s'.log == s.log + [Entry(OpOf(tx), Refusal(s.db, OpOf(tx)))]
    && s'.db == After(s.db, OpOf(tx))
  }

  /** Each statement of a transaction brings it closer to its answer, or is its answer: the outcome that
      the atomic operation has on the tables as committed at that moment. */
  lemma StatementDecides(l: Ledger, s: Sys, t: nat, rows: seq<Row>)
    requires Inv(l, s) && t in s.txs && Next(s, Statement(t, rows)).Some?
    ensures var s' := Next(s, Statement(t, rows)).value;
            if t in s'.txs
            then s'.db == s.db && s'.log == s.log && OpOf(s'.txs[t]) == OpOf(s.txs[t])
                 && Left(s'.db, s'.txs[t]) < Left(s.db, s.txs[t])
            else AnsweredNow(s, s.txs[t], s')
  {
    var tx := s.txs[t];
    assert TxOk(s.db, tx);
    MoveIsOk(s.db, tx, rows);
    if MoveOf(s.db, tx, rows).Moved? {
      MoveKeepsOp(s.db, tx, rows);
      MoveDescends(s.db, tx, rows);
    }
  }

  lemma OthersLeaveAlone(s: Sys, a: Action, t: nat)
    requires Next(s, a).Some? && t in s.txs && a != Abort(t) && !(a.Statement? && a.t == t)
    ensures t in Next(s, a).value.txs && Next(s, a).value.txs[t] == s.txs[t]
  {
  }

  /** A transaction may fail at every point: it is gone, and nothing else has changed. */
  lemma CanAbort(s: Sys, t: nat)
    requires t in s.txs
    ensures var r := Next(s, Abort(t));
            && r.Some? && r.value.db == s.db && r.value.log == s.log && t !in r.value.txs
            && forall u :: u in s.txs && u != t ==> u in r.value.txs && r.value.txs[u] == s.txs[u]
  {
  }

  /** A product is created, with its stock and nothing reserved, if and only if its id is new and the stock
      is a number that the column can hold. */
  lemma CreatesExactly(s: Sys, id: string, stock: int)
    ensures Next(s, Create(id, stock)).Some? <==> id !in s.db.products && 0 <= stock <= 0x7FFF_FFFF
    ensures Next(s, Create(id, stock)).Some? ==>
              Next(s, Create(id, stock)).value.db == s.db.(products := s.db.products[id := Product(stock, 0)])
  {
  }

  lemma UnblockedAlone(s: Sys, t: nat)
    requires s.txs.Keys == {t}
    ensures !Blocked(s.txs, t)
  {
  }

  /** A transaction that is alone is answered after at most as many statements as are left to it: with the
      outcome of the atomic operation, and the tables as that operation leaves them. */
  lemma {:induction false} AnsweredAlone(l: Ledger, s: Sys, t: nat) returns (actions: seq<Action>, end: Sys)
    requires Inv(l, s) && s.txs.Keys == {t}
    ensures |actions| <= Left(s.db, s.txs[t])
    ensures forall i :: 0 <= i < |actions| ==> actions[i].Statement? && actions[i].t == t
    ensures Exec(s, actions) == Some(end) && end.txs == map[] && AnsweredNow(s, s.txs[t], end)
    decreases Left(s.db, s.txs[t])
  {
    UnblockedAlone(s, t);
    CanGoOn(s, t);
    var first := Statement(t, Selection(s.db, s.txs[t]));
    var next := Next(s, first).value;
    StatementDecides(l, s, t, first.rows);
    ExecIs(s, [first], [s, next]);
    if t in next.txs {
      NextInv(l, s, first);
      var rest;
      rest, end := AnsweredAlone(l, next, t);
      ExecConcat(s, [first], rest);
      actions := [first] + rest;
    } else {
      actions, end := [first], next;
    }
  }

  predicate IsOwn(a: Action, t: nat) {
    a.Statement? && a.t == t
  }

  function OwnStatements(actions: seq<Action>, t: nat): nat {
    if actions == [] then 0
    else
      var a := actions[|actions| - 1];
      OwnStatements(actions[..|actions| - 1], t) + if IsOwn(a, t) then 1 else 0
  }

  lemma WasOpen(s: Sys, a: Action, t: nat)
    requires Next(s, a).Some? && t in Next(s, a).value.txs && !(a.Begin? && a.t == t)
    ensures t in s.txs && a != Abort(t)
  {
  }

  lemma InTimeStep(l: Ledger, s: Sys, a: Action, t: nat)
    requires Inv(l, s) && Next(s, a).Some? && t in s.txs && !s.txs[t].Selecting?
    requires t in Next(s, a).value.txs && !(a.Begin? && a.t == t)
    ensures var s' := Next(s, a).value;
            && !s'.txs[t].Selecting?
            && (if IsOwn(a, t) then 1 else 0) + Left(s'.db, s'.txs[t]) <= Left(s.db, s.txs[t])
  {
    WasOpen(s, a, t);
    if IsOwn(a, t) {
      StatementDecides(l, s, t, a.rows);
    } else {
      OthersLeaveAlone(s, a, t);
    }
  }

  /** In every interleaving a transaction that has been through its SELECT, or has none, is answered or
      aborted by the time it has run as many statements as were left to it. */
  lemma {:induction false} AnsweredInTime(l: Ledger, s: Sys, actions: seq<Action>, t: nat)
    requires Inv(l, s) && NeverOverlaps(s, actions) && Exec(s, actions).Some?
    requires t in s.txs && !s.txs[t].Selecting? && t in Exec(s, actions).value.txs
    requires forall i :: 0 <= i < |actions| ==> !(actions[i].Begin? && actions[i].t == t)
    ensures Inv(l, Exec(s, actions).value) && !Exec(s, actions).value.txs[t].Selecting?
    ensures OwnStatements(actions, t) + Left(Exec(s, actions).value.db, Exec(s, actions).value.txs[t])
            <= Left(s.db, s.txs[t])
  {
    if actions == [] {
    } else {
      var init, a := actions[..|actions| - 1], actions[|actions| - 1];
      var mid := Exec(s, init).value;
      WasOpen(mid, a, t);
      AnsweredInTime(l, s, init, t);
      NextInv(l, mid, a);
      InTimeStep(l, mid, a, t);
    }
  }

  /** Transactions of different orders wait for each other only over products. */
  lemma ApartNeverBlocks(txs: map<nat, Tx>, t: nat)
    requires t in txs
    requires forall u :: u in txs && u != t ==> txs[u].order != txs[t].order
    requires forall u :: u in txs && u != t && Wants(txs[t]).Some? ==> Wants(txs[t]).value !in txs[u].held
    ensures !Blocked(txs, t)
  {
  }

  /******* Who meets the assumption *******/

  /** A transaction begins only if no other one of its order is open. */
  ghost predicate BeginsAlone(s: Sys, a: Action) {
    a.Begin? && !a.op.CreateProduct? ==> forall u :: u in s.txs ==> s.txs[u].order != a.op.order
  }

  ghost predicate OneAtATime(s: Sys, actions: seq<Action>) {
    actions == []
    || (OneAtATime(s, actions[..|actions| - 1])
        && match Exec(s, actions[..|actions| - 1])
           case None => true
           case Some(mid) => BeginsAlone(mid, actions[|actions| - 1]))
  }

  ghost predicate OnePerOrder(txs: map<nat, Tx>) {
    forall t, u :: t in txs && u in txs && t != u ==> txs[t].order != txs[u].order
  }

  lemma OnePerOrderKept(s: Sys, a: Action)
    requires OnePerOrder(s.txs) && BeginsAlone(s, a) && Next(s, a).Some?
    ensures OnePerOrder(Next(s, a).value.txs)
  {
    if a.Statement? && MoveOf(s.db, s.txs[a.t], a.rows).Moved? { MoveKeepsOp(s.db, s.txs[a.t], a.rows); }
  }

  /** Callers that have at most one transaction open for each order never overlap. */
  lemma {:induction false} OneAtATimeNeverOverlaps(l: Ledger, actions: seq<Action>)
    requires OneAtATime(Sys(l, map[], []), actions)
    ensures NeverOverlaps(Sys(l, map[], []), actions)
    ensures var r := Exec(Sys(l, map[], []), actions); r.Some? ==> OnePerOrder(r.value.txs)
  {
    if actions == [] {
    } else {
      var init := actions[..|actions| - 1];
      OneAtATimeNeverOverlaps(l, init);
      var mid := Exec(Sys(l, map[], []), init);
      if mid.Some? && Next(mid.value, actions[|actions| - 1]).Some? {
        OnePerOrderKept(mid.value, actions[|actions| - 1]);
      }
    }
  }

  /******* Why the assumption is needed *******/

  const HELD := Row("o", "A", 1, Reserved)
  const LATE := Row("o", "A", 2, Reserved)
  const ONE_HELD := Ledger(map["A" := Product(10, 1)], [HELD])
  const RELEASE := SettleOp("o", Released)
  const RESERVE := ReserveOp("o", [Item("A", 2)])

  lemma StatementMoves(s: Sys, t: nat, rows: seq<Row>, tx: Tx)
    requires t in s.txs && !Blocked(s.txs, t) && MoveOf(s.db, s.txs[t], rows) == Moved(tx)
    ensures Next(s, Statement(t, rows)) == Some(s.(txs := s.txs[t := tx]))
  {
  }

  /** The release has selected its one row; the reserve has begun. */
  ghost predicate Selected(s: Sys) {
    && s.db == ONE_HELD && s.txs.Keys == {1, 2}
    && s.txs[1] == Settling("o", Released, [HELD], 0, map[])
    && s.txs[2] == Reserving("o", [Item("A", 2)], 0, Locking, map[], [])
  }

  /** The reserve has committed its row behind the release's back. */
  ghost predicate Overtaken(s: Sys) {
    && s.db == Ledger(map["A" := Product(10, 3)], [HELD, LATE]) && s.txs.Keys == {1}
    && s.txs[1] == Settling("o", Released, [HELD], 0, map[])
  }

  lemma ReleaseSelects() returns (actions: seq<Action>)
    ensures Valid(ONE_HELD)
    ensures var r := Exec(Sys(ONE_HELD, map[], []), actions); r.Some? && Selected(r.value)
  {
    assert ONE_HELD.rows[..0] == [];
    assert Matching(ONE_HELD.rows, {"o"}) == [HELD];
    assert ValidProduct(ONE_HELD, "A");
    var s := Sys(ONE_HELD, map[], []);
    var s1 := s.(txs := s.txs[1 := Selecting("o", Released, map[])]);
    var tx := Settling("o", Released, [HELD], 0, map[]);
    var s2 := s1.(txs := s1.txs[1 := tx]);
    StatementMoves(s1, 1, [HELD], tx);
    var s3 := s2.(txs := s2.txs[2 := Reserving("o", [Item("A", 2)], 0, Locking, map[], [])]);
    actions := [Begin(1, RELEASE), Statement(1, [HELD]), Begin(2, RESERVE)];
    ExecIs(s, actions, [s, s1, s2, s3]);
  }

  lemma ReserveCommits(s: Sys) returns (actions: seq<Action>)
    requires Selected(s)
    ensures var r := Exec(s, actions); r.Some? && Overtaken(r.value)
  {
    var item, p, q := Item("A", 2), Product(10, 1), Product(10, 3);
    assert (ONE_HELD.products + map[])["A"] == p;
    var h1 := (map[])["A" := p];
    var tx1 := Reserving("o", [item], 0, Updating(p), h1, []);
    var s1 := s.(txs := s.txs[2 := tx1]);
    StatementMoves(s, 2, [], tx1);
    var tx2 := Reserving("o", [item], 0, Inserting(p), h1["A" := q], []);
    var s2 := s1.(txs := s1.txs[2 := tx2]);
    StatementMoves(s1, 2, [], tx2);
    var tx3 := Reserving("o", [item], 1, Locking, h1["A" := q], [] + [LATE]);
    var s3 := s2.(txs := s2.txs[2 := tx3]);
    StatementMoves(s2, 2, [], tx3);
    var s4 := Next(s3, Statement(2, [])).value;
    assert s4.db.products == map["A" := q];
    var n := Statement(2, []);
    actions := [n, n, n, n];
    ExecIs(s, actions, [s, s1, s2, s3, s4]);
  }

  lemma ReleaseCommits(s: Sys) returns (actions: seq<Action>)
    requires Overtaken(s)
    ensures var r := Exec(s, actions);
            r.Some? && r.value.db == Ledger(map["A" := Product(10, 2)],
                                            [HELD.(status := Released), LATE.(status := Released)])
  {
    var held := (map[])["A" := Product(10, 2)];
    assert (s.db.products + map[])["A"] == Product(10, 3);
    var tx1 := Settling("o", Released, [HELD], 1, held);
    var s1 := s.(txs := s.txs[1 := tx1]);
    StatementMoves(s, 1, [], tx1);
    var tx2 := Marked("o", Released, [HELD], held, |s.db.rows|);
    var s2 := s1.(txs := s1.txs[1 := tx2]);
    StatementMoves(s1, 1, [], tx2);
    var s3 := Next(s2, Statement(1, [])).value;
    assert s3.db.products == map["A" := Product(10, 2)];
    assert s3.db.rows == [HELD.(status := Released), LATE.(status := Released)];
    var n := Statement(1, []);
    actions := [n, n, n];
    ExecIs(s, actions, [s, s1, s2, s3]);
  }

  lemma {:induction false} QtyNotReserved(rows: seq<Row>, p: string)
    requires forall i :: 0 <= i < |rows| ==> rows[i].status != Reserved
    ensures Qty(rows, p, Reserved) == 0
  {
    if rows == [] {
    } else {
      QtyNotReserved(rows[..|rows| - 1], p);
    }
  }

  /** A reserve of order "o" commits between the SELECT and the UPDATE by predicate of a release
      of "o": its row is marked RELEASED although its quantity was never given back. */
  lemma OverlapBreaksTheLedger() returns (l: Ledger, actions: seq<Action>)
    ensures Valid(l) && Exec(Sys(l, map[], []), actions).Some?
    ensures !Valid(Exec(Sys(l, map[], []), actions).value.db)
  {
    l := ONE_HELD;
    var s := Sys(l, map[], []);
    var a := ReleaseSelects();
    var b := ReserveCommits(Exec(s, a).value);
    var c := ReleaseCommits(Exec(Exec(s, a).value, b).value);
    ExecConcat(s, a, b);
    ExecConcat(s, a + b, c);
    actions := a + b + c;
    var db := Exec(s, actions).value.db;
    QtyNotReserved(db.rows, "A");
    assert !ValidProduct(db, "A");
  }
}
