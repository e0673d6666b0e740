/**
What overlapping transactions of one order do to the ledger, without the assumption under which
they are serializable: in every run each counter covers its rows, and the run ends in a valid ledger
exactly if no settle commits that a reserve of its order overtook between its SELECT and its
UPDATE by predicate.
*/
module LedgerOverlap {
  import opened Common
  import opened StockLedger
  import opened LedgerTheorems
  import opened LedgerConcurrency

  /** Which open settles have been overtaken so far, and whether such a one has committed. */
  datatype Watch = Watch(overtaken: set<nat>, broken: bool)

  /** The settles between SELECT and UPDATE by predicate whose order's reserve commits here, with rows. */
  function Overtaken(s: Sys, a: Action): set<nat> {
    if a.Statement? && a.t in s.txs && s.txs[a.t].Reserving?
       && s.txs[a.t].items != [] && s.txs[a.t].next >= |s.txs[a.t].items|
    then set u | u in s.txs && s.txs[u].Settling? && s.txs[u].order == s.txs[a.t].order
    else {}
  }

  predicate SettleCommits(s: Sys, a: Action) {
    a.Statement? && a.t in s.txs && s.txs[a.t].Marked?
  }

  function Observe(w: Watch, s: Sys, a: Action, s': Sys): Watch {
    Watch((w.overtaken + Overtaken(s, a)) * s'.txs.Keys,
          w.broken || (SettleCommits(s, a) && a.t in w.overtaken))
  }

  ghost function WatchOf(s: Sys, actions: seq<Action>): Watch
    requires Exec(s, actions).Some?
  {
    if actions == [] then Watch({}, false)
    else
      var init := actions[..|actions| - 1];
      Observe(WatchOf(s, init), Exec(s, init).value, actions[|actions| - 1], Exec(s, actions).value)
  }

  /******* Counters and rows drift apart *******/

  function Drift(l: Ledger, p: string): int
    requires p in l.products
  {
    l.products[p].reserved - Qty(l.rows, p, Reserved)
  }

  lemma ValidMeansNoDrift(l: Ledger)
    requires Covered(l)
    ensures Valid(l) <==> forall p :: p in l.products ==> Drift(l, p) == 0
  {
    forall p | p in l.products ensures Drift(l, p) == 0 <==> ValidProduct(l, p) {
      assert CoveredProduct(l, p);
      QtyNonNegative(l.rows, p, Reserved);
    }
  }

  /** No counter drifted; a new product starts without drift. */
  ghost predicate SameDrift(l: Ledger, l': Ledger) {
    && l.products.Keys <= l'.products.Keys
    && (forall p :: p in l'.products ==> Drift(l', p) == if p in l.products then Drift(l, p) else 0)
  }

  lemma SameDriftSameValidity(l: Ledger, l': Ledger)
    requires Covered(l) && Covered(l') && SameDrift(l, l')
    ensures Valid(l') <==> Valid(l)
  {
    ValidMeansNoDrift(l);
    ValidMeansNoDrift(l');
    forall p | p in l.products ensures Drift(l', p) == Drift(l, p) { assert p in l'.products; }
  }

  lemma ReserveOneCovered(l: Ledger, o: string, item: Item)
    requires Covered(l) && ReserveOne(l, o, item).Ok?
    ensures var l' := ReserveOne(l, o, item).ledger; Covered(l') && SameDrift(l, l')
  {
    var l' := ReserveOne(l, o, item).ledger;
    assert CoveredProduct(l, item.product);
    QtyNonNegative(l.rows, item.product, Reserved);
    forall p | p in l'.products ensures CoveredProduct(l', p) && Drift(l', p) == Drift(l, p) {
      assert CoveredProduct(l, p);
      QtyConcat(l.rows, [Row(o, item.product, item.quantity, Reserved)], p, Reserved);
    }
  }

  lemma {:induction false} ReserveAllCovered(l: Ledger, o: string, items: seq<Item>)
    requires Covered(l) && ReserveAll(l, o, items).Ok?
    ensures var l' := ReserveAll(l, o, items).ledger; Covered(l') && SameDrift(l, l')
  {
    if items == [] {
    } else {
      var init := items[..|items| - 1];
      ReserveAllCovered(l, o, init);
      ReserveOneCovered(ReserveAll(l, o, init).ledger, o, items[|items| - 1]);
    }
  }

  lemma CreateCovered(l: Ledger, id: string, stock: int)
    requires Covered(l) && Apply(l, CreateProduct(id, stock)).Ok?
    ensures var l' := After(l, CreateProduct(id, stock)); Covered(l') && SameDrift(l, l')
  {
    var l' := After(l, CreateProduct(id, stock));
    QtyAbsent(l.rows, id, Reserved);
    forall p | p in l'.products ensures CoveredProduct(l', p) {
      if p in l.products { assert CoveredProduct(l, p); }
    }
  }

  /******* A settle that selected only a part of what it marks *******/

  /** The selection is a part of what is found later; `late` tells whether it is a proper part. */
  ghost predicate Behind(sel: seq<Row>, found: seq<Row>, late: bool) {
    multiset(sel) <= multiset(found) && (late <==> |sel| < |found|)
  }

  lemma MarkSeenQty(rows: seq<Row>, seen: nat, o: string, kind: Status, p: string)
    requires seen <= |rows| && kind != Reserved
    ensures Qty(MarkSeen(rows, seen, o, kind), p, Reserved)
            == Qty(rows, p, Reserved) - Qty(Matching(rows[..seen], {o}), p, Reserved)
  {
    assert MarkSeen(rows, seen, o, kind) == Mark(rows[..seen], {o}, kind) + rows[seen..];
    assert rows == rows[..seen] + rows[seen..];
    QtyConcat(Mark(rows[..seen], {o}, kind), rows[seen..], p, Reserved);
    QtyConcat(rows[..seen], rows[seen..], p, Reserved);
    QtyMark(rows[..seen], {o}, kind, p, Reserved);
  }

  lemma SelectedPart(rows: seq<Row>, seen: nat, o: string, sel: seq<Row>)
    requires seen <= |rows| && multiset(sel) <= multiset(Matching(rows[..seen], {o}))
    ensures multiset(sel) <= multiset(Matching(rows, {o}))
  {
    assert rows == rows[..seen] + rows[seen..];
    MatchingConcat(rows[..seen], rows[seen..], {o});
  }

  lemma FoundKnown(db: Ledger, seen: nat, o: string)
    requires Covered(db) && seen <= |db.rows|
    ensures Positive(Matching(db.rows[..seen], {o}))
    ensures forall r :: r in Matching(db.rows[..seen], {o}) ==> r.status == Reserved && r.product in db.products
  {
    MatchingPositive(db.rows[..seen], {o});
    MatchingSound(db.rows[..seen], {o});
  }

  /** The rows that are marked but were not selected: their quantities are what the counters keep. */
  lemma LateRows(db: Ledger, o: string, sel: seq<Row>, seen: nat, late: bool) returns (rest: seq<Row>)
    requires Covered(db) && seen <= |db.rows| && Behind(sel, Matching(db.rows[..seen], {o}), late)
    ensures forall p :: Qty(Matching(db.rows[..seen], {o}), p, Reserved)
                     == Qty(sel, p, Reserved) + Qty(rest, p, Reserved)
    ensures Positive(rest) && (late <==> rest != [])
    ensures forall i :: 0 <= i < |rest| ==> rest[i].status == Reserved && rest[i].product in db.products
  {
    var found := Matching(db.rows[..seen], {o});
    FoundKnown(db, seen, o);
    rest := Remainder(sel, found);
    RestPositive(sel, rest, found);
    forall p ensures Qty(found, p, Reserved) == Qty(sel, p, Reserved) + Qty(rest, p, Reserved) {
      QtyMultiset(sel + rest, found, p, Reserved);
      QtyConcat(sel, rest, p, Reserved);
    }
    assert |multiset(sel + rest)| == |sel| + |rest| && |multiset(found)| == |found|;
  }

  /** A committed settle: which counters it leaves above their rows, and by how much. */
  ghost predicate Drifted(l: Ledger, l': Ledger, rest: seq<Row>) {
    && l'.products.Keys == l.products.Keys
    && forall p :: p in l.products ==> Drift(l', p) == Drift(l, p) + Qty(rest, p, Reserved)
  }

  lemma HeldIsPartly(db: Ledger, o: string, kind: Status, sel: seq<Row>, held: map<string, Product>, seen: nat)
    requires Covered(db) && Applying(db, kind, sel, |sel|, held) && seen <= |db.rows|
    requires multiset(sel) <= multiset(Matching(db.rows[..seen], {o}))
    ensures db.products + held == Partly(db.products, sel, kind)
  {
    SelectedPart(db.rows, seen, o, sel);
    LoopApplies(db, {o}, sel, kind, |sel|);
    assert sel[..|sel|] == sel;
  }

  lemma SettleDrifts(db: Ledger, db': Ledger, o: string, kind: Status, sel: seq<Row>, seen: nat, rest: seq<Row>)
    requires kind != Reserved && seen <= |db.rows|
    requires db' == Ledger(Partly(db.products, sel, kind), MarkSeen(db.rows, seen, o, kind))
    requires forall p :: Qty(Matching(db.rows[..seen], {o}), p, Reserved)
                      == Qty(sel, p, Reserved) + Qty(rest, p, Reserved)
    ensures Drifted(db, db', rest)
  {
    forall p | p in db.products ensures Drift(db', p) == Drift(db, p) + Qty(rest, p, Reserved) {
      MarkSeenQty(db.rows, seen, o, kind, p);
    }
  }

  lemma SettledCovered(db: Ledger, db': Ledger, sel: seq<Row>, kind: Status, rest: seq<Row>)
    requires Covered(db) && Positive(sel) && Positive(rest) && Positive(db'.rows)
    requires forall r :: r in db'.rows ==> r.product in db.products
    requires db'.products == Partly(db.products, sel, kind) && Drifted(db, db', rest)
    ensures Covered(db')
  {
    forall p | p in db'.products ensures CoveredProduct(db', p) {
      assert CoveredProduct(db, p);
      QtyNonNegative(rest, p, Reserved);
      QtyNonNegative(sel, p, Reserved);
    }
  }

  lemma {:induction false} SomeQty(rest: seq<Row>, i: nat)
    requires Positive(rest) && i < |rest| && rest[i].status == Reserved
    ensures Qty(rest, rest[i].product, Reserved) > 0
  {
    var n := |rest| - 1;
    if i == n {
      QtyNonNegative(rest[..n], rest[i].product, Reserved);
    } else {
      SomeQty(rest[..n], i);
    }
  }

  lemma DriftDecides(db: Ledger, db': Ledger, rest: seq<Row>)
    requires Covered(db) && Covered(db') && Drifted(db, db', rest) && Positive(rest)
    requires forall i :: 0 <= i < |rest| ==> rest[i].status == Reserved && rest[i].product in db.products
    ensures Valid(db') <==> Valid(db) && rest == []
  {
    ValidMeansNoDrift(db);
    ValidMeansNoDrift(db');
    forall p | p in db.products ensures Drift(db, p) >= 0 && Qty(rest, p, Reserved) >= 0 {
      assert CoveredProduct(db, p);
      QtyNonNegative(rest, p, Reserved);
    }
    if rest != [] { SomeQty(rest, 0); }
  }

  lemma MarkedRowsKnown(db: Ledger, seen: nat, o: string, kind: Status)
    requires Covered(db)
    ensures Positive(MarkSeen(db.rows, seen, o, kind))
    ensures forall r :: r in MarkSeen(db.rows, seen, o, kind) ==> r.product in db.products
  {
  }

  lemma SelectedPositive(db: Ledger, seen: nat, o: string, sel: seq<Row>)
    requires Covered(db) && seen <= |db.rows| && multiset(sel) <= multiset(Matching(db.rows[..seen], {o}))
    ensures Positive(sel)
  {
    SelectedPart(db.rows, seen, o, sel);
    PartOf(db, {o}, sel);
  }

  lemma PartlyDecides(db: Ledger, db': Ledger, o: string, kind: Status, sel: seq<Row>, seen: nat, late: bool)
    requires Covered(db) && kind != Reserved && seen <= |db.rows|
    requires Behind(sel, Matching(db.rows[..seen], {o}), late)
    requires db' == Ledger(Partly(db.products, sel, kind), MarkSeen(db.rows, seen, o, kind))
    ensures Covered(db') && (Valid(db') <==> Valid(db) && !late)
  {
    var rest := LateRows(db, o, sel, seen, late);
    SettleDrifts(db, db', o, kind, sel, seen, rest);
    SelectedPositive(db, seen, o, sel);
    MarkedRowsKnown(db, seen, o, kind);
    SettledCovered(db, db', sel, kind, rest);
    DriftDecides(db, db', rest);
  }

  /** The commit of a settle: the counters still cover the rows, and the ledger is valid afterwards
      exactly if it was and the settle marked only rows that it had selected. */
  lemma SettleDecides(db: Ledger, o: string, kind: Status, sel: seq<Row>, held: map<string, Product>, seen: nat,
      late: bool)
    requires Covered(db) && Applying(db, kind, sel, |sel|, held) && seen <= |db.rows|
    requires Behind(sel, Matching(db.rows[..seen], {o}), late)
    ensures var db' := Ledger(db.products + held, MarkSeen(db.rows, seen, o, kind));
            Covered(db') && (Valid(db') <==> Valid(db) && !late)
  {
    var db' := Ledger(db.products + held, MarkSeen(db.rows, seen, o, kind));
    HeldIsPartly(db, o, kind, sel, held, seen);
    PartlyDecides(db, db', o, kind, sel, seen, late);
  }

  /******* Every run *******/

  /** An open transaction, whether or not it has been overtaken. */
  ghost predicate OpenTx(db: Ledger, tx: Tx, late: bool) {
    match tx
    case Reserving(_, _, _, _, _, _) => ReservingOk(db, tx) && !late
    case Selecting(_, kind, held) => kind != Reserved && held == map[] && !late
    case Settling(o, kind, sel, at, held) =>
      Applying(db, kind, sel, at, held) && Behind(sel, Matching(db.rows, {o}), late)
    case Marked(o, kind, sel, held, seen) =>
      && Applying(db, kind, sel, |sel|, held)
      && seen <= |db.rows| && Behind(sel, Matching(db.rows[..seen], {o}), late)
  }

  ghost predicate AllOpen(s: Sys, overtaken: set<nat>) {
    forall t :: t in s.txs ==> OpenTx(s.db, s.txs[t], t in overtaken)
  }

  ghost predicate WatchInv(s: Sys, w: Watch) {
    && Covered(s.db) && Exclusive(s.txs) && AllOpen(s, w.overtaken)
    && w.overtaken <= s.txs.Keys
    && (Valid(s.db) <==> !w.broken)
  }

  /** A step that commits nothing. */
  lemma QuietStep(s: Sys, w: Watch, a: Action, s': Sys)
    requires WatchInv(s, w) && Next(s, a) == Some(s') && s'.db == s.db
    requires Overtaken(s, a) == {} && !SettleCommits(s, a)
    requires Exclusive(s'.txs)
    requires forall t :: t in s'.txs ==>
               (t in s.txs && s'.txs[t] == s.txs[t]) || OpenTx(s.db, s'.txs[t], t in w.overtaken)
    ensures WatchInv(s', Observe(w, s, a, s'))
  {
    var w' := Observe(w, s, a, s');
    forall t | t in s'.txs ensures OpenTx(s'.db, s'.txs[t], t in w'.overtaken) {
      assert t in w'.overtaken <==> t in w.overtaken;
    }
  }

  /** What one statement of an open transaction leaves open. */
  ghost predicate StaysOpen(db: Ledger, tx: Tx, tx': Tx, late: bool) {
    && OpenTx(db, tx', late)
    && tx'.order == tx.order
    && tx'.held.Keys <= tx.held.Keys + (if Wants(tx).Some? then {Wants(tx).value} else {})
    && (LocksRowsOf(tx', tx.order) ==> LocksRowsOf(tx, tx.order) || tx.Selecting?)
  }

  lemma SelectOpens(db: Ledger, tx: Tx, rows: seq<Row>)
    requires tx.Selecting? && OpenTx(db, tx, false) && SettleMove(db, tx, rows).Moved?
    ensures StaysOpen(db, tx, SettleMove(db, tx, rows).tx, false)
  {
    assert |multiset(rows)| == |rows|;
    assert |multiset(Matching(db.rows, {tx.order}))| == |Matching(db.rows, {tx.order})|;
    assert db.products + tx.held == db.products;
  }

  lemma LoopOpens(db: Ledger, tx: Tx, rows: seq<Row>, late: bool)
    requires tx.Settling? && tx.at < |tx.sel| && Covered(db) && OpenTx(db, tx, late)
    ensures SettleMove(db, tx, rows).Moved? && StaysOpen(db, tx, SettleMove(db, tx, rows).tx, late)
  {
    ApplyNext(db, tx.order, tx.kind, tx.sel, tx.at, tx.held);
  }

  lemma MarkOpens(db: Ledger, tx: Tx, rows: seq<Row>, late: bool)
    requires tx.Settling? && tx.at >= |tx.sel| && OpenTx(db, tx, late)
    ensures SettleMove(db, tx, rows).Moved? && StaysOpen(db, tx, SettleMove(db, tx, rows).tx, late)
  {
    assert db.rows[..|db.rows|] == db.rows;
  }

  lemma MoveOpens(db: Ledger, tx: Tx, rows: seq<Row>, late: bool)
    requires Covered(db) && OpenTx(db, tx, late) && MoveOf(db, tx, rows).Moved?
    ensures StaysOpen(db, tx, MoveOf(db, tx, rows).tx, late)
  {
    match tx
    case Reserving(_, _, _, _, _, _) => ReserveMoveOk(db, tx);
    case Selecting(_, _, _) => SelectOpens(db, tx, rows);
    case Settling(_, _, sel, at, _) =>
      if at < |sel| { LoopOpens(db, tx, rows, late); } else { MarkOpens(db, tx, rows, late); }
    case Marked(_, _, _, _, _) =>
  }

  lemma MovedStep(s: Sys, w: Watch, a: Action, tx: Tx)
    requires WatchInv(s, w) && a.Statement? && a.t in s.txs && !Blocked(s.txs, a.t)
    requires MoveOf(s.db, s.txs[a.t], a.rows) == Moved(tx)
    ensures Next(s, a).Some? && WatchInv(Next(s, a).value, Observe(w, s, a, Next(s, a).value))
  {
    var s' := s.(txs := s.txs[a.t := tx]);
    MoveOpens(s.db, s.txs[a.t], a.rows, a.t in w.overtaken);
    forall u | u in s.txs && u != a.t ensures Apart(tx, s.txs[u]) && Apart(s.txs[u], tx) {
      assert Apart(s.txs[a.t], s.txs[u]) && Apart(s.txs[u], s.txs[a.t]);
    }
    assert Overtaken(s, a) == {};
    QuietStep(s, w, a, s');
  }

  lemma GoneStep(s: Sys, w: Watch, a: Action, s': Sys)
    requires WatchInv(s, w) && Next(s, a) == Some(s') && s'.db == s.db
    requires Overtaken(s, a) == {} && !SettleCommits(s, a)
    requires forall t :: t in s'.txs ==> t in s.txs && s'.txs[t] == s.txs[t]
    ensures WatchInv(s', Observe(w, s, a, s'))
  {
    QuietStep(s, w, a, s');
  }

  lemma BegunStep(s: Sys, w: Watch, a: Action, tx: Tx)
    requires WatchInv(s, w) && a.Begin? && a.t !in s.txs && Next(s, a) == Some(s.(txs := s.txs[a.t := tx]))
    requires OpenTx(s.db, tx, false) && tx.held == map[] && !LocksRowsOf(tx, tx.order)
    ensures WatchInv(Next(s, a).value, Observe(w, s, a, Next(s, a).value))
  {
    QuietStep(s, w, a, Next(s, a).value);
  }

  lemma BeginStep(s: Sys, w: Watch, a: Action)
    requires WatchInv(s, w) && a.Begin? && Next(s, a).Some?
    ensures WatchInv(Next(s, a).value, Observe(w, s, a, Next(s, a).value))
  {
    match a.op
    case ReserveOp(o, items) =>
      BegunOk(s.db, o, items, Released);
      BegunStep(s, w, a, Reserving(o, items, 0, Locking, map[], []));
    case SettleOp(o, kind) =>
      BegunOk(s.db, o, [], kind);
      BegunStep(s, w, a, Selecting(o, kind, map[]));
  }

  /******* A commit, seen by the other open transactions *******/

  /** db' is db after someone else's commit: locked products are as they were, and the rows that
      a settle found are found again; `more` tells whether rows of its order came behind them. */
  ghost predicate Passed(db: Ledger, db': Ledger, tx: Tx, more: bool) {
    && db.products.Keys <= db'.products.Keys
    && (forall p :: p in tx.held && p in db.products ==> db'.products[p] == db.products[p])
    && (tx.Settling? ==>
          multiset(Matching(db.rows, {tx.order})) <= multiset(Matching(db'.rows, {tx.order}))
          && (more <==> |Matching(db.rows, {tx.order})| < |Matching(db'.rows, {tx.order})|))
    && (tx.Marked? && tx.seen <= |db.rows| ==>
          |db.rows| <= |db'.rows|
          && Matching(db'.rows[..tx.seen], {tx.order}) == Matching(db.rows[..tx.seen], {tx.order}))
  }

  lemma BehindLonger(sel: seq<Row>, found: seq<Row>, found': seq<Row>, late: bool, more: bool)
    requires Behind(sel, found, late)
    requires multiset(found) <= multiset(found') && (more <==> |found| < |found'|)
    ensures Behind(sel, found', late || more)
  {
    PartNotLonger(sel, found);
    PartNotLonger(found, found');
  }

  lemma PassedStaysOpen(db: Ledger, db': Ledger, tx: Tx, late: bool, more: bool)
    requires OpenTx(db, tx, late) && Passed(db, db', tx, more) && (more ==> tx.Settling?)
    ensures OpenTx(db', tx, late || more)
  {
    match tx
    case Selecting(_, _, _) =>
    case Reserving(o, items, n, phase, held, inserted) =>
      var own := if phase.Inserting? then held[items[n].product := phase.product] else held;
      assert ReservedSoFar(db, o, items, n, own, inserted);
      assert own.Keys == held.Keys;
      ReservedFrame(db, db', o, items, n, own, inserted);
    case Settling(o, kind, sel, at, held) =>
      ApplyingFrame(db, db', kind, sel, at, held);
      BehindLonger(sel, Matching(db.rows, {o}), Matching(db'.rows, {o}), late, more);
    case Marked(_, kind, sel, held, _) => ApplyingFrame(db, db', kind, sel, |sel|, held);
  }

  /** What an order holds after a reserve of order u has committed. */
  lemma HeldAfterReserve(rows: seq<Row>, u: string, items: seq<Item>, o: string)
    ensures Matching(rows + OrderRows(u, items, Reserved), {o})
            == Matching(rows, {o}) + if u == o then OrderRows(u, items, Reserved) else []
  {
    var added := OrderRows(u, items, Reserved);
    MatchingConcat(rows, added, {o});
    if u == o { MatchingAll(added, {o}); } else { MatchingNone(added, {o}); }
  }

  lemma AtCommit(db: Ledger, tx: Tx)
    requires tx.Reserving? && ReservingOk(db, tx) && tx.next >= |tx.items|
    ensures tx.inserted == OrderRows(tx.order, tx.items, Reserved)
    ensures ReserveAll(db, tx.order, tx.items) == Ok(Ledger(db.products + tx.held, db.rows + tx.inserted))
  {
    assert tx.items[..tx.next] == tx.items;
  }

  lemma ReservePasses(db: Ledger, tx: Tx, other: Tx)
    requires tx.Reserving? && tx.inserted == OrderRows(tx.order, tx.items, Reserved) && Apart(tx, other)
    ensures Passed(db, Ledger(db.products + tx.held, db.rows + tx.inserted), other,
                   other.Settling? && other.order == tx.order && tx.items != [])
  {
    HeldAfterReserve(db.rows, tx.order, tx.items, other.order);
    if other.Marked? && other.seen <= |db.rows| {
      assert (db.rows + tx.inserted)[..other.seen] == db.rows[..other.seen];
    }
  }

  /** Marks of one order's rows leave the rows that another order holds where they are. */
  lemma MarkSeenKeeps(rows: seq<Row>, seen: nat, u: string, kind: Status, n: nat, o: string)
    requires seen <= |rows| && n <= |rows| && u != o && kind != Reserved
    ensures Matching(MarkSeen(rows, seen, u, kind)[..n], {o}) == Matching(rows[..n], {o})
  {
    var k := if seen < n then seen else n;
    assert MarkSeen(rows, seen, u, kind)[..n] == Mark(rows[..k], {u}, kind) + rows[k..n];
    assert rows[..n] == rows[..k] + rows[k..n];
    MatchingConcat(Mark(rows[..k], {u}, kind), rows[k..n], {o});
    MatchingConcat(rows[..k], rows[k..n], {o});
    MatchingMark(rows[..k], {u}, {o}, kind);
    assert {o} - {u} == {o};
  }

  lemma SettlePasses(db: Ledger, tx: Tx, late: bool, other: Tx)
    requires tx.Marked? && OpenTx(db, tx, late) && Apart(tx, other)
    ensures Passed(db, Ledger(db.products + tx.held, MarkSeen(db.rows, tx.seen, tx.order, tx.kind)), other, false)
  {
    var rows := MarkSeen(db.rows, tx.seen, tx.order, tx.kind);
    assert !LocksRowsOf(other, tx.order);
    if other.Settling? {
      MarkSeenKeeps(db.rows, tx.seen, tx.order, tx.kind, |db.rows|, other.order);
      assert rows[..|db.rows|] == rows && db.rows[..|db.rows|] == db.rows;
    } else if other.Marked? && other.seen <= |db.rows| {
      MarkSeenKeeps(db.rows, tx.seen, tx.order, tx.kind, other.seen, other.order);
    }
  }

  lemma CreatePasses(db: Ledger, id: string, stock: int, other: Tx)
    requires Apply(db, CreateProduct(id, stock)).Ok?
    ensures Passed(db, After(db, CreateProduct(id, stock)), other, false)
  {
  }

  /** A step that commits db', past every other open transaction. */
  lemma CommitStep(s: Sys, w: Watch, a: Action, s': Sys)
    requires WatchInv(s, w) && Next(s, a) == Some(s') && Covered(s'.db)
    requires forall t :: t in s'.txs ==> t in s.txs && s'.txs[t] == s.txs[t]
    requires forall u :: u in s'.txs ==> Passed(s.db, s'.db, s.txs[u], u in Overtaken(s, a))
    requires Valid(s'.db) <==> !Observe(w, s, a, s').broken
    ensures WatchInv(s', Observe(w, s, a, s'))
  {
    var w' := Observe(w, s, a, s');
    forall t | t in s'.txs ensures OpenTx(s'.db, s'.txs[t], t in w'.overtaken) {
      assert OpenTx(s.db, s.txs[t], t in w.overtaken);
      PassedStaysOpen(s.db, s'.db, s.txs[t], t in w.overtaken, t in Overtaken(s, a));
    }
  }

  lemma ReserveCommitted(db: Ledger, tx: Tx)
    requires Covered(db) && tx.Reserving? && OpenTx(db, tx, false) && ReserveMove(db, tx).Committed?
    ensures var db' := ReserveMove(db, tx).db;
            && tx.next >= |tx.items| && tx.inserted == OrderRows(tx.order, tx.items, Reserved)
            && db' == Ledger(db.products + tx.held, db.rows + tx.inserted)
            && Covered(db') && (Valid(db') <==> Valid(db))
  {
    AtCommit(db, tx);
    ReserveAllCovered(db, tx.order, tx.items);
    SameDriftSameValidity(db, ReserveMove(db, tx).db);
  }

  lemma ReserveCommitStep(s: Sys, w: Watch, a: Action, db: Ledger)
    requires WatchInv(s, w) && a.Statement? && a.t in s.txs && s.txs[a.t].Reserving?
    requires MoveOf(s.db, s.txs[a.t], a.rows) == Committed(db) && Next(s, a).Some?
    ensures WatchInv(Next(s, a).value, Observe(w, s, a, Next(s, a).value))
  {
    var tx, s' := s.txs[a.t], Next(s, a).value;
    assert OpenTx(s.db, tx, a.t in w.overtaken);
    ReserveCommitted(s.db, tx);
    forall u | u in s'.txs ensures Passed(s.db, db, s.txs[u], u in Overtaken(s, a)) {
      assert Apart(tx, s.txs[u]);
      ReservePasses(s.db, tx, s.txs[u]);
    }
    CommitStep(s, w, a, s');
  }

  lemma SettleCommitStep(s: Sys, w: Watch, a: Action, db: Ledger)
    requires WatchInv(s, w) && a.Statement? && a.t in s.txs && s.txs[a.t].Marked?
    requires MoveOf(s.db, s.txs[a.t], a.rows) == Committed(db) && Next(s, a).Some?
    ensures WatchInv(Next(s, a).value, Observe(w, s, a, Next(s, a).value))
  {
    var tx, s' := s.txs[a.t], Next(s, a).value;
    assert OpenTx(s.db, tx, a.t in w.overtaken);
    SettleDecides(s.db, tx.order, tx.kind, tx.sel, tx.held, tx.seen, a.t in w.overtaken);
    forall u | u in s'.txs ensures Passed(s.db, db, s.txs[u], u in Overtaken(s, a)) {
      assert Apart(tx, s.txs[u]);
      SettlePasses(s.db, tx, a.t in w.overtaken, s.txs[u]);
    }
    CommitStep(s, w, a, s');
  }

  lemma CreateStep(s: Sys, w: Watch, a: Action)
    requires WatchInv(s, w) && a.Create? && Next(s, a).Some?
    ensures WatchInv(Next(s, a).value, Observe(w, s, a, Next(s, a).value))
  {
    var s' := Next(s, a).value;
    CreateCovered(s.db, a.id, a.stock);
    SameDriftSameValidity(s.db, s'.db);
    forall u | u in s'.txs ensures Passed(s.db, s'.db, s.txs[u], u in Overtaken(s, a)) {
      CreatePasses(s.db, a.id, a.stock, s.txs[u]);
    }
    CommitStep(s, w, a, s');
  }

  lemma StatementStep(s: Sys, w: Watch, a: Action)
    requires WatchInv(s, w) && a.Statement? && Next(s, a).Some?
    ensures WatchInv(Next(s, a).value, Observe(w, s, a, Next(s, a).value))
  {
    match MoveOf(s.db, s.txs[a.t], a.rows)
    case Moved(tx) => MovedStep(s, w, a, tx);
    case Rejected(_) => GoneStep(s, w, a, Next(s, a).value);
    case Committed(db) =>
      if s.txs[a.t].Reserving? { ReserveCommitStep(s, w, a, db); } else { SettleCommitStep(s, w, a, db); }
  }

  lemma WatchStep(s: Sys, w: Watch, a: Action)
    requires WatchInv(s, w) && Next(s, a).Some?
    ensures WatchInv(Next(s, a).value, Observe(w, s, a, Next(s, a).value))
  {
    match a
    case Begin(_, _) => BeginStep(s, w, a);
    case Statement(_, _) => StatementStep(s, w, a);
    case Abort(_) => GoneStep(s, w, a, Next(s, a).value);
    case Create(_, _) => CreateStep(s, w, a);
  }

  lemma {:induction false} WatchRun(l: Ledger, actions: seq<Action>)
    requires Valid(l) && Exec(Sys(l, map[], []), actions).Some?
    ensures WatchInv(Exec(Sys(l, map[], []), actions).value, WatchOf(Sys(l, map[], []), actions))
  {
    var start := Sys(l, map[], []);
    if actions == [] {
      ValidIsCovered(l);
    } else {
      var init := actions[..|actions| - 1];
      WatchRun(l, init);
      WatchStep(Exec(start, init).value, WatchOf(start, init), actions[|actions| - 1]);
    }
  }

  /** Every run, however its transactions overlap, ends in a valid ledger if and only if no settle
      committed that was overtaken: no reserve of its order committed rows between its SELECT and
      its UPDATE by predicate. Even then every counter is at least the sum of its reserved rows. */
  lemma OverlapDecides(l: Ledger, actions: seq<Action>)
    requires Valid(l) && Exec(Sys(l, map[], []), actions).Some?
    ensures var db := Exec(Sys(l, map[], []), actions).value.db;
            Covered(db) && (Valid(db) <==> !WatchOf(Sys(l, map[], []), actions).broken)
  {
    WatchRun(l, actions);
  }

  /** The assumption of Serializable rules such settles out. */
  lemma NoOverlapNotBroken(l: Ledger, actions: seq<Action>)
    requires Valid(l) && NeverOverlaps(Sys(l, map[], []), actions) && Exec(Sys(l, map[], []), actions).Some?
    ensures !WatchOf(Sys(l, map[], []), actions).broken
  {
    OverlapDecides(l, actions);
    Serializable(l, actions);
  }
}
