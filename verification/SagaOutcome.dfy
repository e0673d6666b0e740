/**
How one Execute ends, alone: decided by the fates of its statements and the free stock. And over runs
with any number of orders, crashes and retries: an order is completed only after its payment and its
decrement succeeded, and compensated only after one of them did not.
*/
module SagaOutcome {
  import opened Common
  import opened StockLedger
  import opened LedgerTheorems
  import opened SagaProtocol
  import opened SagaTheorems
  import opened SagaOrchestration

  /******* One Execute, alone *******/

  /** An order that has just been placed. */
  function Placed(items: seq<Item>): Order {
    Order(items, Pending, None, Some(CheckSaga), CLEAN)
  }

  predicate Ends(id: string, end: Position, status: OrderStatus, saga: SagaStatus, rows: seq<Row>) {
    && end.order.pc.None? && end.order.status == status
    && end.order.saga.Some? && end.order.saga.value.status == saga
    && RowsOf(end.ledger.rows, id) == rows
  }

  predicate Stands(id: string, items: seq<Item>, at: Position, pc: Pc, rows: seq<Row>) {
    && at.order.pc == Some(pc) && at.order.saga.Some? && at.order.items == items != []
    && RowsOf(at.ledger.rows, id) == rows
  }

  /** What a compensation leaves of rows that are reserved. */
  function Compensated(fates: Fates): Status {
    if fates(CallRelease) == RequestLost then Reserved else Released
  }

  lemma FromRelease(id: string, items: seq<Item>, at: Position, st: Status, fates: Fates)
    requires Stands(id, items, at, CallRelease, OrderRows(id, items, st))
    ensures Ends(id, RunToReturn(id, at, fates), Failed, SagaFailed,
                 OrderRows(id, items, if st == Reserved then Compensated(fates) else st))
  {
    SettleRows(at.ledger, id, items, st, Released);
    var next := StepOnce(id, at, fates);
    assert RunToReturn(id, at, fates) == RunToReturn(id, next, fates);
    ToFailed(id, next, fates);
  }

  /** What becomes of the rows if the decrement is not answered with a success. */
  function AfterDecrement(fates: Fates): Status {
    if fates(CallDecrement) == ReplyLost then Decremented else Compensated(fates)
  }

  lemma FromDecrement(id: string, items: seq<Item>, at: Position, fates: Fates)
    requires Stands(id, items, at, CallDecrement, OrderRows(id, items, Reserved))
    ensures var end := RunToReturn(id, at, fates);
            if fates(CallDecrement) == Delivered
            then Ends(id, end, Completed, SagaCompleted, OrderRows(id, items, Decremented))
            else Ends(id, end, Failed, SagaFailed, OrderRows(id, items, AfterDecrement(fates)))
  {
    SettleRows(at.ledger, id, items, Reserved, Decremented);
    var next := StepOnce(id, at, fates);
    assert RunToReturn(id, at, fates) == RunToReturn(id, next, fates);
    match fates(CallDecrement)
    case Delivered => ToCompleted(id, next, fates);
    case ReplyLost => FromRelease(id, items, next, Decremented, fates);
    case RequestLost => FromRelease(id, items, next, Reserved, fates);
  }

  predicate Confirms(fates: Fates) {
    fates(CallPayment) == Delivered && fates(CallDecrement) == Delivered
  }

  /** What becomes of the rows if payment or decrement is not answered with a success. */
  function Unconfirmed(fates: Fates): Status {
    if fates(CallPayment) == Delivered then AfterDecrement(fates) else Compensated(fates)
  }

  lemma FromPayment(id: string, items: seq<Item>, at: Position, fates: Fates)
    requires Stands(id, items, at, CallPayment, OrderRows(id, items, Reserved))
    ensures var end := RunToReturn(id, at, fates);
            if Confirms(fates) then Ends(id, end, Completed, SagaCompleted, OrderRows(id, items, Decremented))
            else Ends(id, end, Failed, SagaFailed, OrderRows(id, items, Unconfirmed(fates)))
  {
    var next := StepOnce(id, at, fates);
    assert RunToReturn(id, at, fates) == RunToReturn(id, next, fates);
    if fates(CallPayment) == Delivered {
      ToCallDecrement(id, next, fates);
      var x := Goto(SetStep(next.order, ConfirmOrder).(status := Confirming), CallDecrement);
      FromDecrement(id, items, next.(order := x), fates);
    } else {
      FromRelease(id, items, next, Reserved, fates);
    }
  }

  lemma ReservedRows(l: Ledger, id: string, items: seq<Item>)
    requires Valid(l) && RowsOf(l.rows, id) == []
    ensures Apply(l, ReserveOp(id, items)).Ok? <==> Fits(l, items)
    ensures Fits(l, items) ==> RowsOf(Apply(l, ReserveOp(id, items)).ledger.rows, id) == OrderRows(id, items, Reserved)
  {
    ReserveExact(l, id, items);
    RowsOfConcat(l.rows, OrderRows(id, items, Reserved), id);
    RowsOfAll(OrderRows(id, items, Reserved), id);
  }

  /** The answer to the reserve is a success. */
  ghost predicate IsReserved(l: Ledger, items: seq<Item>, fates: Fates) {
    fates(CallReserve) == Delivered && Fits(l, items)
  }

  /** What the reserve leaves if it is not answered with a success. */
  ghost function Unreserved(l: Ledger, id: string, items: seq<Item>, fates: Fates): seq<Row> {
    if fates(CallReserve) == ReplyLost && Fits(l, items) then OrderRows(id, items, Reserved) else []
  }

  lemma ReserveFails(id: string, items: seq<Item>, at: Position, fates: Fates)
    requires Stands(id, items, at, CallReserve, []) && Valid(at.ledger) && !IsReserved(at.ledger, items, fates)
    ensures Ends(id, RunToReturn(id, at, fates), Failed, SagaFailed, Unreserved(at.ledger, id, items, fates))
  {
    ReservedRows(at.ledger, id, items);
    var next := StepOnce(id, at, fates);
    assert RunToReturn(id, at, fates) == RunToReturn(id, next, fates);
    ToFailed(id, next, fates);
  }

  lemma ReserveWorks(id: string, items: seq<Item>, at: Position, fates: Fates)
    requires Stands(id, items, at, CallReserve, []) && Valid(at.ledger) && IsReserved(at.ledger, items, fates)
    ensures var end := RunToReturn(id, at, fates);
            if Confirms(fates) then Ends(id, end, Completed, SagaCompleted, OrderRows(id, items, Decremented))
            else Ends(id, end, Failed, SagaFailed, OrderRows(id, items, Unconfirmed(fates)))
  {
    ReservedRows(at.ledger, id, items);
    var next := StepOnce(id, at, fates);
    assert RunToReturn(id, at, fates) == RunToReturn(id, next, fates);
    ToCallPayment(id, next, fates);
    var x := Goto(SetStep(SetReservation(next.order, id), ProcessPayment).(status := Paying), CallPayment);
    FromPayment(id, items, next.(order := x), fates);
  }

  predicate Starts(fates: Fates) {
    fates(CheckSaga) == Delivered && fates(CreateSaga) == Delivered
  }

  lemma FromStart(id: string, items: seq<Item>, l: Ledger, fates: Fates) returns (at: Position)
    requires Starts(fates) && items != [] && RowsOf(l.rows, id) == []
    ensures Stands(id, items, at, CallReserve, []) && at.ledger == l
    ensures RunToReturn(id, Position(Placed(items), l), fates) == RunToReturn(id, at, fates)
  {
    var start := Position(Placed(items), l);
    var checked := StepOnce(id, start, fates);
    assert RunToReturn(id, start, fates) == RunToReturn(id, checked, fates);
    var created := StepOnce(id, checked, fates);
    assert RunToReturn(id, checked, fates) == RunToReturn(id, created, fates);
    ToCallReserve(id, created, fates);
    at := created.(order := Goto(SetStep(created.order, ReserveInventory).(status := Reserving), CallReserve));
  }

  /** For an order that has a saga, or if the saga cannot be started, Execute changes nothing. */
  lemma NeverStarts(id: string, x: Order, l: Ledger, fates: Fates)
    requires x.pc == Some(CheckSaga) && (x.saga.Some? || !Starts(fates))
    ensures var end := RunToReturn(id, Position(x, l), fates);
            end.order.status == x.status && end.order.saga == x.saga && end.ledger == l
  {
    var start := Position(x, l);
    var checked := StepOnce(id, start, fates);
    assert RunToReturn(id, start, fates) == RunToReturn(id, checked, fates);
    if checked.order.pc.Some? {
      assert RunToReturn(id, checked, fates) == RunToReturn(id, StepOnce(id, checked, fates), fates);
    }
  }

  /** How the Execute of a fresh order ends on a valid ledger, for every combination of fates. It completes,
      with its goods sold, exactly if every call and the two checked statements are answered with a
      success and the items fit; in every other case its rows are as its compensation left them. */
  lemma ExecuteOutcome(id: string, items: seq<Item>, l: Ledger, fates: Fates)
    requires Valid(l) && items != [] && RowsOf(l.rows, id) == []
    ensures var end := RunToReturn(id, Position(Placed(items), l), fates);
            && (!Starts(fates) ==> end.order.status == Pending && end.order.saga == None && end.ledger == l)
            && (Starts(fates) && !IsReserved(l, items, fates) ==>
                  Ends(id, end, Failed, SagaFailed, Unreserved(l, id, items, fates)))
            && (Starts(fates) && IsReserved(l, items, fates) && !Confirms(fates) ==>
                  Ends(id, end, Failed, SagaFailed, OrderRows(id, items, Unconfirmed(fates))))
            && (Starts(fates) && IsReserved(l, items, fates) && Confirms(fates) ==>
                  Ends(id, end, Completed, SagaCompleted, OrderRows(id, items, Decremented)))
  {
    if Starts(fates) {
      var at := FromStart(id, items, l, fates);
      if IsReserved(l, items, fates) {
        ReserveWorks(id, items, at, fates);
      } else {
        ReserveFails(id, items, at, fates);
      }
    } else {
      NeverStarts(id, Placed(items), l, fates);
    }
  }

  ghost predicate Succeeds(l: Ledger, items: seq<Item>, fates: Fates) {
    Fits(l, items)
    && forall pc :: pc in {CheckSaga, CreateSaga, CallReserve, CallPayment, CallDecrement} ==> fates(pc) == Delivered
  }

  /** So it completes if and only if all five are answered with a success and the items fit. */
  lemma CompletesExactly(id: string, items: seq<Item>, l: Ledger, fates: Fates)
    requires Valid(l) && items != [] && RowsOf(l.rows, id) == []
    ensures var end := RunToReturn(id, Position(Placed(items), l), fates);
            end.order.status == Completed <==> Succeeds(l, items, fates)
  {
    ExecuteOutcome(id, items, l, fates);
  }

  /******* Over runs *******/

  datatype Event = Paid | Unpaid | Sold | Unsold

  ghost predicate Happens(w: World, a: Action, id: string, e: Event) {
    && a.Step? && a.order == id && id in w.orders
    && var x := w.orders[id];
       match e
       case Paid => x.pc == Some(CallPayment) && a.fate == Delivered
       case Unpaid => x.pc == Some(CallPayment) && a.fate != Delivered
       case Sold => x.pc == Some(CallDecrement) && Issue(w.ledger, Request(id, x), a.fate).answered
       case Unsold => x.pc == Some(CallDecrement) && !Issue(w.ledger, Request(id, x), a.fate).answered
  }

  /** It has happened at some action of the run. */
  ghost predicate Ever(actions: seq<Action>, id: string, e: Event) {
    actions != []
    && (Ever(actions[..|actions| - 1], id, e)
        || match Exec(actions[..|actions| - 1])
           case None => false
           case Some(w) => Happens(w, actions[|actions| - 1], id, e))
  }

  /** What has happened to an order so far. */
  datatype Past = Past(paid: bool, unpaid: bool, sold: bool, unsold: bool)

  ghost function PastOf(actions: seq<Action>, id: string): Past {
    Past(Ever(actions, id, Paid), Ever(actions, id, Unpaid), Ever(actions, id, Sold), Ever(actions, id, Unsold))
  }

  const NOTHING := Past(false, false, false, false)
  const PAID := NOTHING.(paid := true)
  const PAID_AND_SOLD := PAID.(sold := true)

  predicate Refused(past: Past) {
    (past.unpaid || past.unsold) && !past.sold
  }

  predicate KnowsReservation(x: Order) {
    x.saga.Some? && x.saga.value.reservation.Some?
  }

  predicate Fitting(x: Order, past: Past) {
    match x.pc
    case Some(CheckSaga) | Some(CreateSaga) | Some(StepReserve) | Some(MarkReserving) | Some(CallReserve)
       | Some(StoreReservation) | Some(StepPayment) | Some(MarkPaying) | Some(CallPayment) => past == NOTHING
    case Some(StepConfirm) | Some(MarkConfirming) | Some(CallDecrement) => past == PAID
    case Some(MarkCompleted) | Some(CompleteSaga) => past == PAID_AND_SOLD
    case Some(CallRelease) => Refused(past)
    case Some(FailSaga) | Some(FailOrder) => KnowsReservation(x) ==> Refused(past)
    case None =>
      && (x.status == Completed ==> past == PAID_AND_SOLD)
      && (x.status == Failed && x.history.crashedAt.None? && KnowsReservation(x) ==> Refused(past))
  }

  /** What a step of the order itself adds to its past. */
  function PastAfter(l: Ledger, id: string, x: Order, fate: Fate, past: Past): Past {
    var ok := Issue(l, Request(id, x), fate).answered;
    if x.pc == Some(CallPayment) then if ok then past.(paid := true) else past.(unpaid := true)
    else if x.pc == Some(CallDecrement) then if ok then past.(sold := true) else past.(unsold := true)
    else past
  }

  ghost function Now(w: World, a: Action, id: string): Past {
    Past(Happens(w, a, id, Paid), Happens(w, a, id, Unpaid), Happens(w, a, id, Sold), Happens(w, a, id, Unsold))
  }

  function Together(p: Past, q: Past): Past {
    Past(p.paid || q.paid, p.unpaid || q.unpaid, p.sold || q.sold, p.unsold || q.unsold)
  }

  lemma PastGrows(actions: seq<Action>, id: string, w: World)
    requires actions != [] && Exec(actions[..|actions| - 1]) == Some(w)
    ensures PastOf(actions, id)
            == Together(PastOf(actions[..|actions| - 1], id), Now(w, actions[|actions| - 1], id))
  {
  }

  /** What an action adds to an order's past. */
  function Onwards(w: World, a: Action, id: string, past: Past): Past {
    if a.Step? && a.order == id && id in w.orders then PastAfter(w.ledger, id, w.orders[id], a.fate, past) else past
  }

  lemma NowIs(w: World, a: Action, id: string, past: Past)
    ensures Together(past, Now(w, a, id)) == Onwards(w, a, id, past)
  {
  }

  lemma PastOfStep(actions: seq<Action>, id: string, w: World)
    requires actions != [] && Exec(actions[..|actions| - 1]) == Some(w)
    ensures PastOf(actions, id) == Onwards(w, actions[|actions| - 1], id, PastOf(actions[..|actions| - 1], id))
  {
    PastGrows(actions, id, w);
    NowIs(w, actions[|actions| - 1], id, PastOf(actions[..|actions| - 1], id));
  }

  lemma FitsToRelease(id: string, x: Order, call: Call, past: Past, rows: seq<Row>)
    requires x.pc == Some(CallRelease) && InExecute(id, x, CallRelease, rows) && Fitting(x, past)
    ensures Fitting(Advance(id, x, call), past)
  {
  }

  lemma FitsAtReserve(id: string, x: Order, call: Call, past: Past, rows: seq<Row>)
    requires x.pc == Some(CallReserve) && InExecute(id, x, CallReserve, rows) && Fitting(x, past)
    ensures Fitting(Advance(id, x, call), past)
  {
  }

  lemma FitsAtEnd(id: string, x: Order, call: Call, past: Past, rows: seq<Row>)
    requires x.pc.Some? && InExecute(id, x, x.pc.value, rows) && Fitting(x, past)
    requires x.pc.value in {CheckSaga, CreateSaga, FailSaga, FailOrder, MarkCompleted, CompleteSaga}
    ensures Fitting(Advance(id, x, call), past)
  {
  }

  lemma FitsBetween(id: string, x: Order, call: Call, past: Past)
    requires x.pc.Some? && Fitting(x, past)
    requires x.pc.value in {StepReserve, MarkReserving, StoreReservation, StepPayment, MarkPaying, StepConfirm,
                            MarkConfirming}
    ensures Fitting(Advance(id, x, call), past)
  {
  }

  lemma FitsAtCall(id: string, l: Ledger, x: Order, fate: Fate, past: Past)
    requires (x.pc == Some(CallPayment) || x.pc == Some(CallDecrement)) && Fitting(x, past)
    ensures Fitting(Advance(id, x, Issue(l, Request(id, x), fate)), PastAfter(l, id, x, fate, past))
  {
  }

  lemma OwnStepFits(id: string, l: Ledger, x: Order, fate: Fate, past: Past, rows: seq<Row>)
    requires x.pc.Some? && InExecute(id, x, x.pc.value, rows) && Fitting(x, past)
    ensures Fitting(Advance(id, x, Issue(l, Request(id, x), fate)), PastAfter(l, id, x, fate, past))
  {
    var call := Issue(l, Request(id, x), fate);
    match x.pc.value
    case CallRelease => FitsToRelease(id, x, call, past, rows);
    case CallReserve => FitsAtReserve(id, x, call, past, rows);
    case CallPayment => FitsAtCall(id, l, x, fate, past);
    case CallDecrement => FitsAtCall(id, l, x, fate, past);
    case CheckSaga | CreateSaga | FailSaga | FailOrder | MarkCompleted | CompleteSaga =>
      FitsAtEnd(id, x, call, past, rows);
    case _ => FitsBetween(id, x, call, past);
  }

  /** A crash leaves an order completed only at its last statement. */
  lemma CrashFits(id: string, x: Order, mode: Mode, past: Past, rows: seq<Row>, spot: Spot)
    requires OrderOk(id, x, rows, spot) && Fitting(x, past)
    ensures Fitting(CrashOrder(id, x, mode), past)
  {
  }

  lemma HeadHasCrashed(id: string, x: Order, rows: seq<Row>, at: ResumePc)
    requires OrderOk(id, x, rows, Recovering(at))
    ensures x.pc.None? && x.history.crashedAt.Some?
  {
  }

  lemma ResumeFits(x: Order, at: ResumePc, call: Call, past: Past)
    requires x.pc.None? && x.history.crashedAt.Some? && Fitting(x, past)
    ensures Fitting(ResumeStep(x, at, call), past)
  {
  }

  lemma RecoverFits(w: World, fate: Fate, past: Past)
    requires Inv(w) && AtSaga(w) && Fitting(w.orders[w.mode.todo[0]], past)
    ensures var id := w.mode.todo[0]; Fitting(RecoverHead(w, fate).orders[id], past)
  {
    var id := w.mode.todo[0];
    HeadHasCrashed(id, w.orders[id], RowsOf(w.ledger.rows, id), w.mode.at);
    ResumeFits(w.orders[id], w.mode.at, Issue(w.ledger, ResumeRequest(w.orders[id], w.mode.at), fate), past);
  }

  lemma OwnNextFits(w: World, id: string, fate: Fate, past: Past)
    requires Inv(w) && id in w.orders && w.orders[id].pc.Some? && Fitting(w.orders[id], past)
    ensures Fitting(Next(w, Step(id, fate)).value.orders[id], PastAfter(w.ledger, id, w.orders[id], fate, past))
  {
    assert OrderOk(id, w.orders[id], RowsOf(w.ledger.rows, id), SpotOf(w.mode, id));
    OwnStepFits(id, w.ledger, w.orders[id], fate, past, RowsOf(w.ledger.rows, id));
  }

  lemma CrashNextFits(w: World, id: string, past: Past)
    requires Inv(w) && id in w.orders && Fitting(w.orders[id], past)
    ensures Fitting(Next(w, Crash).value.orders[id], past)
  {
    assert OrderOk(id, w.orders[id], RowsOf(w.ledger.rows, id), SpotOf(w.mode, id));
    CrashFits(id, w.orders[id], w.mode, past, RowsOf(w.ledger.rows, id), SpotOf(w.mode, id));
  }

  lemma NextFits(w: World, a: Action, id: string, past: Past)
    requires Inv(w) && Next(w, a).Some? && id in w.orders && Fitting(w.orders[id], past)
    ensures id in Next(w, a).value.orders
    ensures Fitting(Next(w, a).value.orders[id], Onwards(w, a, id, past))
  {
    match a
    case Step(u, fate) => if u == id { OwnNextFits(w, id, fate, past); }
    case Crash => CrashNextFits(w, id, past);
    case Recover(fate) => if w.mode.todo[0] == id { RecoverFits(w, fate, past); }
    case _ =>
  }

  lemma NewOrderFits(w: World, a: Action, id: string)
    requires Next(w, a).Some? && id !in w.orders && id in Next(w, a).value.orders
    ensures Fitting(Next(w, a).value.orders[id], NOTHING)
  {
  }

  lemma OrdersStay(w: World, a: Action, id: string)
    requires Next(w, a).Some? && id in w.orders
    ensures id in Next(w, a).value.orders
  {
  }

  lemma {:induction false} NothingBefore(actions: seq<Action>, id: string)
    requires Exec(actions).Some? && id !in Exec(actions).value.orders
    ensures PastOf(actions, id) == NOTHING
  {
    if actions == [] {
    } else {
      var n := |actions| - 1;
      if id in Exec(actions[..n]).value.orders { OrdersStay(Exec(actions[..n]).value, actions[n], id); }
      NothingBefore(actions[..n], id);
      PastOfStep(actions, id, Exec(actions[..n]).value);
    }
  }

  lemma {:induction false} RunFits(actions: seq<Action>, id: string)
    requires Exec(actions).Some? && id in Exec(actions).value.orders
    ensures Fitting(Exec(actions).value.orders[id], PastOf(actions, id))
  {
    if actions == [] {
    } else {
      var n := |actions| - 1;
      var w := Exec(actions[..n]).value;
      PastOfStep(actions, id, w);
      if id in w.orders {
        Reachable(actions[..n]);
        RunFits(actions[..n], id);
        NextFits(w, actions[n], id, PastOf(actions[..n], id));
      } else {
        NothingBefore(actions[..n], id);
        NewOrderFits(w, actions[n], id);
      }
    }
  }

  /** In every run, whatever crashes, is retried or runs beside it: an order that is COMPLETED has been
      paid and its goods sold, and neither was ever refused. An order that its own Execute has failed
      or is compensating, with its reservation known, was refused payment or its goods were not sold. */
  lemma OnlyPaidIsCompleted(actions: seq<Action>, id: string)
    requires Exec(actions).Some? && id in Exec(actions).value.orders
    ensures var x := Exec(actions).value.orders[id];
            && (x.status == Completed ==>
                  && Ever(actions, id, Paid) && Ever(actions, id, Sold)
                  && !Ever(actions, id, Unpaid) && !Ever(actions, id, Unsold))
            && (x.pc == Some(CallRelease)
                || (x.status == Failed && x.history.crashedAt.None? && KnowsReservation(x)) ==>
                  (Ever(actions, id, Unpaid) || Ever(actions, id, Unsold)) && !Ever(actions, id, Sold))
  {
    RunFits(actions, id);
    Reachable(actions);
    var w := Exec(actions).value;
    assert OrderOk(id, w.orders[id], RowsOf(w.ledger.rows, id), SpotOf(w.mode, id));
  }
}
