/**
What the saga guarantees: the invariant of every reachable world, and from it atomicity, exact
accounts of what faults and crashes leave behind, and the cross-service step invariant.
*/
module SagaTheorems {
  import opened Common
  import opened StockLedger
  import opened LedgerTheorems
  import opened SagaProtocol

  /******* A call changes the rows of its own order only *******/

  lemma {:induction false} RowsOfMark(rows: seq<Row>, o: string, kind: Status, u: string)
    requires u != o
    ensures RowsOf(Mark(rows, {o}, kind), u) == RowsOf(rows, u)
  {
    if rows == [] {
    } else {
      var n := |rows| - 1;
      assert Mark(rows, {o}, kind)[..n] == Mark(rows[..n], {o}, kind);
      RowsOfMark(rows[..n], o, kind, u);
    }
  }

  lemma {:induction false} RowsOfMarked(rows: seq<Row>, o: string, kind: Status)
    ensures RowsOf(Mark(rows, {o}, kind), o) == Mark(RowsOf(rows, o), {o}, kind)
  {
    if rows == [] {
    } else {
      var n := |rows| - 1;
      assert Mark(rows, {o}, kind)[..n] == Mark(rows[..n], {o}, kind);
      RowsOfMarked(rows[..n], o, kind);
      var rest := RowsOf(rows[..n], o);
      if rows[n].order == o { assert (rest + [rows[n]])[..|rest|] == rest; }
    }
  }

  lemma {:induction false} MatchingRowsOf(rows: seq<Row>, o: string)
    ensures Matching(RowsOf(rows, o), {o}) == Matching(rows, {o})
  {
    if rows == [] {
    } else {
      var n := |rows| - 1;
      MatchingRowsOf(rows[..n], o);
      var rest := RowsOf(rows[..n], o);
      if rows[n].order == o { assert (rest + [rows[n]])[..|rest|] == rest; }
    }
  }

  lemma {:induction false} RowsOfAll(rows: seq<Row>, o: string)
    requires forall i :: 0 <= i < |rows| ==> rows[i].order == o
    ensures RowsOf(rows, o) == rows
  {
    if rows == [] {
    } else {
      RowsOfAll(rows[..|rows| - 1], o);
      assert rows == rows[..|rows| - 1] + [rows[|rows| - 1]];
    }
  }

  lemma {:induction false} RowsOfNone(rows: seq<Row>, o: string)
    requires forall i :: 0 <= i < |rows| ==> rows[i].order != o
    ensures RowsOf(rows, o) == []
  {
    if rows == [] {
    } else {
      RowsOfNone(rows[..|rows| - 1], o);
    }
  }

  /** The ledger side of a call: it stays valid, and only rows of the called order change or appear. */
  lemma SendFrame(l: Ledger, op: Op, fate: Fate, o: string, u: string)
    requires Valid(l) && WellFormed(op) && On(op, o) && u != o
    ensures RowsOf(Send(l, op, fate).ledger.rows, u) == RowsOf(l.rows, u)
  {
    if op.ReserveOp? {
      ReserveExact(l, o, op.items);
      RowsOfConcat(l.rows, OrderRows(o, op.items, Reserved), u);
      RowsOfNone(OrderRows(o, op.items, Reserved), u);
    } else {
      RowsOfMark(l.rows, o, op.kind, u);
    }
  }

  lemma SendKnown(l: Ledger, op: Op, fate: Fate, o: string, orders: map<string, Order>)
    requires Valid(l) && WellFormed(op) && On(op, o) && o in orders && RowsKnown(l, orders)
    ensures Valid(Send(l, op, fate).ledger) && RowsKnown(Send(l, op, fate).ledger, orders)
  {
    ApplyValid(l, op);
    if op.ReserveOp? { ReserveExact(l, o, op.items); }
  }

  /** One more committed attempt of a reserve adds the order's rows once more. */
  lemma ReserveRows(l: Ledger, o: string, items: seq<Item>, n: nat)
    requires Valid(l) && RowsOf(l.rows, o) == OrderRows(o, Repeat(items, n), Reserved) && ReserveAll(l, o, items).Ok?
    ensures RowsOf(ReserveAll(l, o, items).ledger.rows, o) == OrderRows(o, Repeat(items, n + 1), Reserved)
  {
    ReserveExact(l, o, items);
    RowsOfConcat(l.rows, OrderRows(o, items, Reserved), o);
    RowsOfAll(OrderRows(o, items, Reserved), o);
    OrderRowsConcat(Repeat(items, n), items, o, Reserved);
  }

  lemma RepeatLength(items: seq<Item>, n: nat)
    ensures |Repeat(items, n)| == n * |items|
  {
    if n == 0 {
    } else {
      RepeatLength(items, n - 1);
    }
  }

  lemma HeldSome(x: Order)
    requires x.items != [] && x.history.commits > 0
    ensures Held(x) != []
  {
  }

  lemma MarkOrderRows(o: string, items: seq<Item>, st: Status, kind: Status)
    ensures Mark(OrderRows(o, items, st), {o}, kind) == OrderRows(o, items, if st == Reserved then kind else st)
  {
  }

  lemma SettleRows(l: Ledger, o: string, items: seq<Item>, st: Status, kind: Status)
    requires items != [] && RowsOf(l.rows, o) == OrderRows(o, items, st)
    ensures Apply(l, SettleOp(o, kind)).Ok? <==> st == Reserved
    ensures Apply(l, SettleOp(o, kind)).Ok? ==>
              RowsOf(Apply(l, SettleOp(o, kind)).ledger.rows, o) == OrderRows(o, items, kind)
  {
    MatchingRowsOf(l.rows, o);
    var rows := OrderRows(o, items, st);
    if st == Reserved { MatchingAll(rows, {o}); } else { MatchingNone(rows, {o}); }
    RowsOfMarked(l.rows, o, kind);
    MarkOrderRows(o, items, st, kind);
  }

  /******* Every step of one order keeps that order's predicate *******/

  lemma StartOk(id: string, x: Order, rows: seq<Row>, call: Call)
    requires x.pc == Some(CheckSaga) || x.pc == Some(CreateSaga)
    requires OrderOk(id, x, rows, Up)
    ensures OrderOk(id, Advance(id, x, call), rows, Up)
  {
  }

  lemma ReservePartOk(id: string, x: Order, rows: seq<Row>, call: Call)
    requires x.pc.Some? && x.pc.value in {StepReserve, MarkReserving, StoreReservation, StepPayment, MarkPaying}
    requires OrderOk(id, x, rows, Up)
    ensures OrderOk(id, Advance(id, x, call), rows, Up)
  {
  }

  lemma ConfirmPartOk(id: string, x: Order, rows: seq<Row>, call: Call)
    requires x.pc == Some(StepConfirm) || x.pc == Some(MarkConfirming)
    requires OrderOk(id, x, rows, Up)
    ensures OrderOk(id, Advance(id, x, call), rows, Up)
  {
  }

  lemma CompletePartOk(id: string, x: Order, rows: seq<Row>, call: Call)
    requires x.pc == Some(MarkCompleted) || x.pc == Some(CompleteSaga)
    requires OrderOk(id, x, rows, Up)
    ensures OrderOk(id, Advance(id, x, call), rows, Up)
  {
  }

  lemma PayOk(id: string, x: Order, rows: seq<Row>, call: Call)
    requires x.pc == Some(CallPayment) && OrderOk(id, x, rows, Up)
    ensures OrderOk(id, Advance(id, x, call), rows, Up)
  {
  }

  lemma FailOk(id: string, x: Order, rows: seq<Row>, call: Call)
    requires x.pc == Some(FailSaga) || x.pc == Some(FailOrder)
    requires OrderOk(id, x, rows, Up)
    ensures OrderOk(id, Advance(id, x, call), rows, Up)
  {
  }

  lemma WriteOk(id: string, x: Order, rows: seq<Row>, call: Call)
    requires OrderOk(id, x, rows, Up) && x.pc.Some? && Request(id, x).None?
    ensures OrderOk(id, Advance(id, x, call), rows, Up)
  {
    match x.pc.value
    case CheckSaga | CreateSaga => StartOk(id, x, rows, call);
    case FailSaga | FailOrder => FailOk(id, x, rows, call);
    case CallPayment => PayOk(id, x, rows, call);
    case StepConfirm | MarkConfirming => ConfirmPartOk(id, x, rows, call);
    case MarkCompleted | CompleteSaga => CompletePartOk(id, x, rows, call);
    case _ => ReservePartOk(id, x, rows, call);
  }

  lemma ReserveAnswerOk(id: string, x: Order, call: Call)
    requires x.pc == Some(CallReserve) && OrderOk(id, x, OrderRows(id, Held(x), Reserved), Up)
    requires call.answered ==> call.effect
    ensures OrderOk(id, Advance(id, x, call), OrderRows(id, Held(Counted(x, call)), Reserved), Up)
    ensures OrderOk(id, Retried(x, call), OrderRows(id, Held(Counted(x, call)), Reserved), Up)
  {
  }

  lemma ReserveSent(id: string, x: Order, l: Ledger, fate: Fate)
    requires Valid(l) && RowsOf(l.rows, id) == OrderRows(id, Held(x), Reserved)
    ensures var call := Send(l, ReserveOp(id, x.items), fate);
            && (call.answered ==> call.effect)
            && RowsOf(call.ledger.rows, id) == OrderRows(id, Held(Counted(x, call)), Reserved)
  {
    if ReserveAll(l, id, x.items).Ok? { ReserveRows(l, id, x.items, x.history.commits); }
  }

  lemma CallReserveOk(id: string, x: Order, l: Ledger, fate: Fate)
    requires Valid(l) && x.pc == Some(CallReserve) && OrderOk(id, x, RowsOf(l.rows, id), Up)
    ensures var call := Issue(l, Request(id, x), fate);
            && OrderOk(id, Advance(id, x, call), RowsOf(call.ledger.rows, id), Up)
            && OrderOk(id, Retried(x, call), RowsOf(call.ledger.rows, id), Up)
  {
    ReserveSent(id, x, l, fate);
    ReserveAnswerOk(id, x, Send(l, ReserveOp(id, x.items), fate));
  }

  lemma CallDecrementOk(id: string, x: Order, l: Ledger, fate: Fate)
    requires x.pc == Some(CallDecrement) && OrderOk(id, x, RowsOf(l.rows, id), Up)
    ensures var call := Issue(l, Request(id, x), fate);
            OrderOk(id, Advance(id, x, call), RowsOf(call.ledger.rows, id), Up)
  {
    HeldSome(x);
    SettleRows(l, id, Held(x), Reserved, Decremented);
  }

  lemma CallReleaseOk(id: string, x: Order, l: Ledger, fate: Fate)
    requires x.pc == Some(CallRelease) && OrderOk(id, x, RowsOf(l.rows, id), Up)
    ensures var call := Issue(l, Request(id, x), fate);
            OrderOk(id, Advance(id, x, call), RowsOf(call.ledger.rows, id), Up)
  {
    HeldSome(x);
    SettleRows(l, id, Held(x), if x.history.decrementReplyLost then Decremented else Reserved, Released);
  }

  lemma CrashProceedingOk(id: string, x: Order, rows: seq<Row>, mode: Mode)
    requires x.pc.Some? && x.pc.value !in {CheckSaga, CreateSaga, CallRelease, FailSaga, FailOrder}
    requires x.items != [] && Proceeding(id, x, x.pc.value, rows)
    ensures NotRunning(id, CrashOrder(id, x, mode), rows, Offline)
  {
  }

  lemma CrashReleasingOk(id: string, x: Order, rows: seq<Row>, mode: Mode)
    requires x.pc == Some(CallRelease) && OrderOk(id, x, rows, Up)
    ensures NotRunning(id, CrashOrder(id, x, mode), rows, Offline)
  {
  }

  lemma CrashFailingOk(id: string, x: Order, rows: seq<Row>, mode: Mode)
    requires x.pc == Some(FailSaga) && Failing(id, x, rows, InProgress)
    ensures NotRunning(id, CrashOrder(id, x, mode), rows, Offline)
  {
  }

  lemma CrashTearingOk(id: string, x: Order, rows: seq<Row>, mode: Mode)
    requires x.pc == Some(FailOrder) && OrderOk(id, x, rows, Up)
    ensures NotRunning(id, CrashOrder(id, x, mode), rows, Offline)
  {
  }

  lemma CrashRunningOk(id: string, x: Order, rows: seq<Row>, mode: Mode)
    requires x.pc.Some? && OrderOk(id, x, rows, SpotOf(mode, id))
    ensures OrderOk(id, CrashOrder(id, x, mode), rows, Offline)
  {
    match x.pc.value
    case CheckSaga | CreateSaga =>
    case CallRelease => CrashReleasingOk(id, x, rows, mode);
    case FailSaga => CrashFailingOk(id, x, rows, mode);
    case FailOrder => CrashTearingOk(id, x, rows, mode);
    case _ => CrashProceedingOk(id, x, rows, mode);
  }

  lemma CrashRestOk(id: string, x: Order, rows: seq<Row>, mode: Mode)
    requires x.pc.None? && OrderOk(id, x, rows, SpotOf(mode, id))
    ensures OrderOk(id, CrashOrder(id, x, mode), rows, Offline)
  {
  }

  /** What the rows are after a release request of Resume, and whether it was missed. */
  predicate ReleaseResult(id: string, x: Order, rows: seq<Row>, missed: bool) {
    if Sold(x.history) then rows == OrderRows(id, Held(x), Decremented) && !missed
    else rows == OrderRows(id, Held(x), if missed then Reserved else Released)
  }

  lemma ReleasedOk(id: string, x: Order, before: seq<Row>, after: seq<Row>, missed: bool)
    requires OrderOk(id, x, before, Recovering(Release)) && x.saga.value.reservation.Some?
    requires ReleaseResult(id, x, after, missed)
    ensures OrderOk(id, x.(history := x.history.(releaseLost := missed)), after, Recovering(CloseSaga))
  {
  }

  lemma ReleaseDeliveredOk(id: string, x: Order, l: Ledger, st: Status, fate: Fate)
    requires x.items != [] && x.history.commits > 0 && RowsOf(l.rows, id) == OrderRows(id, Held(x), st)
    requires st == Decremented <==> Sold(x.history)
    ensures var call := Send(l, SettleOp(id, Released), fate);
            ReleaseResult(id, x, RowsOf(call.ledger.rows, id), call.missed)
  {
    HeldSome(x);
    SettleRows(l, id, Held(x), st, Released);
  }

  lemma ReleaseOk(id: string, x: Order, l: Ledger, fate: Fate)
    requires OrderOk(id, x, RowsOf(l.rows, id), Recovering(Release))
    ensures var call := Issue(l, ResumeRequest(x, Release), fate);
            OrderOk(id, ResumeStep(x, Release, call), RowsOf(call.ledger.rows, id), Recovering(CloseSaga))
  {
    if x.saga.value.reservation.Some? {
      var rows := RowsOf(l.rows, id);
      var st := if Sold(x.history) then Decremented
                else if rows == OrderRows(id, Held(x), Reserved) then Reserved else Released;
      ReleaseDeliveredOk(id, x, l, st, fate);
      var call := Send(l, SettleOp(id, Released), fate);
      ReleasedOk(id, x, rows, RowsOf(call.ledger.rows, id), call.missed);
    }
  }

  lemma CloseSagaOk(id: string, x: Order, rows: seq<Row>, call: Call)
    requires OrderOk(id, x, rows, Recovering(CloseSaga))
    ensures OrderOk(id, ResumeStep(x, CloseSaga, call), rows, Recovering(CloseOrder))
  {
  }

  lemma CloseOrderOk(id: string, x: Order, rows: seq<Row>, call: Call, spot: Spot)
    requires OrderOk(id, x, rows, Recovering(CloseOrder)) && AtRest(spot)
    ensures OrderOk(id, ResumeStep(x, CloseOrder, call), rows, spot)
  {
  }

  /** How recovering one order moves the others. */
  predicate SameSpot(before: Spot, after: Spot) {
    before == after || (before == Passed && after == Up) || (before == Queued && after == Recovering(Release))
  }

  lemma SpotOk(id: string, x: Order, rows: seq<Row>, before: Spot, after: Spot)
    requires OrderOk(id, x, rows, before) && SameSpot(before, after)
    ensures OrderOk(id, x, rows, after)
  {
  }

  /******* Every action keeps the invariant *******/

  ghost predicate TodoOk(mode: Mode, orders: map<string, Order>) {
    mode.Resuming? ==> mode.todo != [] && Distinct(mode.todo) && forall id :: id in mode.todo ==> id in orders
  }

  /** One order's step, with at most one call about that order. */
  lemma LocalStepInv(w: World, id: string, x: Order, request: Option<Op>, fate: Fate, mode: Mode)
    requires Inv(w) && id in w.orders && TodoOk(mode, w.orders)
    requires request.Some? ==> WellFormed(request.value) && On(request.value, id)
    requires OrderOk(id, x, RowsOf(Issue(w.ledger, request, fate).ledger.rows, id), SpotOf(mode, id))
    requires forall u :: u in w.orders && u != id ==> SameSpot(SpotOf(w.mode, u), SpotOf(mode, u))
    ensures Inv(World(Issue(w.ledger, request, fate).ledger, w.orders[id := x], mode))
  {
    var l, orders := Issue(w.ledger, request, fate).ledger, w.orders[id := x];
    if request.Some? { SendKnown(w.ledger, request.value, fate, id, w.orders); }
    forall u | u in orders ensures OrderOk(u, orders[u], RowsOf(l.rows, u), SpotOf(mode, u)) {
      if u != id {
        if request.Some? { SendFrame(w.ledger, request.value, fate, id, u); }
        SpotOk(u, w.orders[u], RowsOf(w.ledger.rows, u), SpotOf(w.mode, u), SpotOf(mode, u));
      }
    }
  }

  lemma AdvanceOk(id: string, x: Order, l: Ledger, fate: Fate)
    requires Valid(l) && x.pc.Some? && OrderOk(id, x, RowsOf(l.rows, id), Up)
    ensures var call := Issue(l, Request(id, x), fate);
            OrderOk(id, Advance(id, x, call), RowsOf(call.ledger.rows, id), Up)
  {
    if x.pc == Some(CallReserve) {
      CallReserveOk(id, x, l, fate);
    } else if x.pc == Some(CallDecrement) {
      CallDecrementOk(id, x, l, fate);
    } else if x.pc == Some(CallRelease) {
      CallReleaseOk(id, x, l, fate);
    } else {
      WriteOk(id, x, RowsOf(l.rows, id), Issue(l, None, fate));
    }
  }

  lemma StepInv(w: World, id: string, fate: Fate)
    requires Inv(w) && Next(w, Step(id, fate)).Some?
    ensures Inv(Next(w, Step(id, fate)).value)
  {
    var x := w.orders[id];
    assert OrderOk(id, x, RowsOf(w.ledger.rows, id), SpotOf(w.mode, id));
    AdvanceOk(id, x, w.ledger, fate);
    LocalStepInv(w, id, Advance(id, x, Issue(w.ledger, Request(id, x), fate)), Request(id, x), fate, w.mode);
  }

  lemma TryAgainInv(w: World, id: string, fate: Fate)
    requires Inv(w) && Next(w, TryAgain(id, fate)).Some?
    ensures Inv(Next(w, TryAgain(id, fate)).value)
  {
    var x := w.orders[id];
    assert OrderOk(id, x, RowsOf(w.ledger.rows, id), SpotOf(w.mode, id));
    CallReserveOk(id, x, w.ledger, fate);
    LocalStepInv(w, id, Retried(x, Issue(w.ledger, Request(id, x), fate)), Request(id, x), fate, w.mode);
  }

  lemma ResumeFrame(w: World)
    requires Inv(w) && w.mode.Resuming?
    ensures TodoOk(ResumeMode(w.mode), w.orders)
    ensures forall u :: u in w.orders && u != w.mode.todo[0] ==>
              SameSpot(SpotOf(w.mode, u), SpotOf(ResumeMode(w.mode), u))
  {
  }

  lemma HeadReservation(id: string, x: Order, rows: seq<Row>, at: ResumePc)
    requires OrderOk(id, x, rows, Recovering(at))
    ensures var request := ResumeRequest(x, at);
            request.Some? ==> WellFormed(request.value) && On(request.value, id)
  {
  }

  /** The head of the list takes a step that keeps its order's predicate. */
  lemma HeadStepInv(w: World, x: Order, request: Option<Op>, fate: Fate)
    requires Inv(w) && AtSaga(w)
    requires request.Some? ==> WellFormed(request.value) && On(request.value, w.mode.todo[0])
    requires var id := w.mode.todo[0];
             OrderOk(id, x, RowsOf(Issue(w.ledger, request, fate).ledger.rows, id), SpotOf(ResumeMode(w.mode), id))
    ensures Inv(World(Issue(w.ledger, request, fate).ledger, w.orders[w.mode.todo[0] := x], ResumeMode(w.mode)))
  {
    ResumeFrame(w);
    LocalStepInv(w, w.mode.todo[0], x, request, fate, ResumeMode(w.mode));
  }

  lemma RecoverReleaseInv(w: World, fate: Fate)
    requires Inv(w) && AtSaga(w) && w.mode.at == Release
    ensures Inv(RecoverHead(w, fate))
  {
    var id := w.mode.todo[0];
    var x := w.orders[id];
    var request := ResumeRequest(x, Release);
    assert OrderOk(id, x, RowsOf(w.ledger.rows, id), Recovering(Release));
    HeadReservation(id, x, RowsOf(w.ledger.rows, id), Release);
    ReleaseOk(id, x, w.ledger, fate);
    HeadStepInv(w, ResumeStep(x, Release, Issue(w.ledger, request, fate)), request, fate);
  }

  lemma RecoverSagaInv(w: World, fate: Fate)
    requires Inv(w) && AtSaga(w) && w.mode.at == CloseSaga
    ensures Inv(RecoverHead(w, fate))
  {
    var id := w.mode.todo[0];
    var x, call := w.orders[id], Issue(w.ledger, None, fate);
    assert OrderOk(id, x, RowsOf(w.ledger.rows, id), Recovering(CloseSaga));
    CloseSagaOk(id, x, RowsOf(w.ledger.rows, id), call);
    HeadStepInv(w, ResumeStep(x, CloseSaga, call), None, fate);
  }

  lemma RecoverOrderInv(w: World, fate: Fate)
    requires Inv(w) && AtSaga(w) && w.mode.at == CloseOrder
    ensures Inv(RecoverHead(w, fate))
  {
    var id := w.mode.todo[0];
    var x, call := w.orders[id], Issue(w.ledger, None, fate);
    assert OrderOk(id, x, RowsOf(w.ledger.rows, id), Recovering(CloseOrder));
    assert id !in w.mode.todo[1..];
    CloseOrderOk(id, x, RowsOf(w.ledger.rows, id), call, SpotOf(ResumeMode(w.mode), id));
    HeadStepInv(w, ResumeStep(x, CloseOrder, call), None, fate);
  }

  lemma RecoverInv(w: World, fate: Fate)
    requires Inv(w) && AtSaga(w)
    ensures Inv(RecoverHead(w, fate))
  {
    match w.mode.at
    case Release => RecoverReleaseInv(w, fate);
    case CloseSaga => RecoverSagaInv(w, fate);
    case CloseOrder => RecoverOrderInv(w, fate);
  }

  lemma CrashInv(w: World)
    requires Inv(w)
    ensures Inv(Next(w, Crash).value)
  {
    var w' := Next(w, Crash).value;
    forall id | id in w'.orders ensures OrderOk(id, w'.orders[id], RowsOf(w'.ledger.rows, id), Offline) {
      var x, rows := w.orders[id], RowsOf(w.ledger.rows, id);
      assert OrderOk(id, x, rows, SpotOf(w.mode, id));
      if x.pc.Some? { CrashRunningOk(id, x, rows, w.mode); } else { CrashRestOk(id, x, rows, w.mode); }
    }
  }

  lemma RestartInv(w: World, todo: seq<string>)
    requires Inv(w) && Next(w, Restart(todo)).Some?
    ensures Inv(Next(w, Restart(todo)).value)
  {
    var w' := Next(w, Restart(todo)).value;
    forall id | id in w'.orders ensures OrderOk(id, w'.orders[id], RowsOf(w'.ledger.rows, id), SpotOf(w'.mode, id)) {
      assert OrderOk(id, w.orders[id], RowsOf(w.ledger.rows, id), Offline);
      assert id in todo <==> SagaInProgress(w.orders[id]);
    }
  }

  lemma PlaceInv(w: World, id: string, items: seq<Item>)
    requires Inv(w) && Next(w, Place(id, items)).Some?
    ensures Inv(Next(w, Place(id, items)).value)
  {
    RowsOfNone(w.ledger.rows, id);
    var w' := Next(w, Place(id, items)).value;
    forall u | u in w'.orders ensures OrderOk(u, w'.orders[u], RowsOf(w'.ledger.rows, u), Up) {
      if u != id { assert OrderOk(u, w.orders[u], RowsOf(w.ledger.rows, u), Up); }
    }
  }

  lemma NextInv(w: World, a: Action)
    requires Inv(w) && Next(w, a).Some?
    ensures Inv(Next(w, a).value)
  {
    match a
    case Stock(id, stock) => ApplyValid(w.ledger, CreateProduct(id, stock));
    case Place(id, items) => PlaceInv(w, id, items);
    case Step(id, fate) => StepInv(w, id, fate);
    case TryAgain(id, fate) => TryAgainInv(w, id, fate);
    case Crash => CrashInv(w);
    case Restart(todo) => RestartInv(w, todo);
    case Recover(fate) => RecoverInv(w, fate);
  }

  lemma {:induction false} Reachable(actions: seq<Action>)
    requires Exec(actions).Some?
    ensures Inv(Exec(actions).value)
  {
    if actions == [] {
    } else {
      var init := actions[..|actions| - 1];
      Reachable(init);
      NextInv(Exec(init).value, actions[|actions| - 1]);
    }
  }

  /******* What follows in every reachable world *******/

  predicate Holds(rows: seq<Row>, st: Status) {
    exists r :: r in rows && r.status == st
  }

  /** An attempt of the order's reserve reaches the server and finds room in its stock. */
  ghost predicate Reserves(w: World, a: Action, id: string) {
    && (a.Step? || a.TryAgain?) && a.order == id
    && id in w.orders && w.orders[id].pc == Some(CallReserve) && Lands(w.ledger, w.orders[id].items, a.fate)
  }

  ghost predicate ReservesAt(actions: seq<Action>, id: string, i: nat) {
    i < |actions| && Exec(actions[..i]).Some? && Reserves(Exec(actions[..i]).value, actions[i], id)
  }

  ghost predicate ReservesOnce(actions: seq<Action>, id: string) {
    exists i :: 0 <= i < |actions| && ReservesAt(actions, id, i)
  }

  ghost predicate ReservesTwice(actions: seq<Action>, id: string) {
    exists i, j :: 0 <= i < j < |actions| && ReservesAt(actions, id, i) && ReservesAt(actions, id, j)
  }

  function CommitsOf(w: World, id: string): nat {
    if id in w.orders then w.orders[id].history.commits else 0
  }

  lemma AnswerCommits(id: string, x: Order, call: Call)
    requires x.pc == Some(CallReserve)
    ensures Advance(id, x, call).history.commits == x.history.commits + if call.effect then 1 else 0
  {
  }

  lemma OthersCommitNothing(id: string, x: Order, call: Call)
    requires x.pc.Some? && x.pc != Some(CallReserve)
    ensures Advance(id, x, call).history.commits == x.history.commits
  {
  }

  lemma StepCommits(w: World, id: string, fate: Fate)
    requires Inv(w) && Next(w, Step(id, fate)).Some?
    ensures CommitsOf(Next(w, Step(id, fate)).value, id)
            == CommitsOf(w, id) + if Reserves(w, Step(id, fate), id) then 1 else 0
  {
    var x := w.orders[id];
    var call := Issue(w.ledger, Request(id, x), fate);
    if x.pc == Some(CallReserve) {
      LandsIsEffect(w.ledger, id, x.items, fate);
      AnswerCommits(id, x, call);
    } else {
      OthersCommitNothing(id, x, call);
    }
  }

  lemma RetryCommits(w: World, id: string, fate: Fate)
    requires Inv(w) && Next(w, TryAgain(id, fate)).Some?
    ensures CommitsOf(Next(w, TryAgain(id, fate)).value, id)
            == CommitsOf(w, id) + if Reserves(w, TryAgain(id, fate), id) then 1 else 0
  {
    LandsIsEffect(w.ledger, id, w.orders[id].items, fate);
  }

  lemma NextCommits(w: World, a: Action, id: string)
    requires Inv(w) && Next(w, a).Some?
    ensures CommitsOf(Next(w, a).value, id) == CommitsOf(w, id) + if Reserves(w, a, id) then 1 else 0
  {
    match a
    case Step(u, fate) => if u == id { StepCommits(w, id, fate); }
    case TryAgain(u, fate) => if u == id { RetryCommits(w, id, fate); }
    case _ =>
  }

  lemma SameReserves(actions: seq<Action>, id: string)
    requires actions != [] && Exec(actions[..|actions| - 1]).Some?
    ensures var n := |actions| - 1;
            && (forall i :: 0 <= i < n ==> (ReservesAt(actions[..n], id, i) <==> ReservesAt(actions, id, i)))
            && (ReservesAt(actions, id, n) <==> Reserves(Exec(actions[..n]).value, actions[n], id))
  {
    var n := |actions| - 1;
    forall i | 0 <= i < n ensures ReservesAt(actions[..n], id, i) <==> ReservesAt(actions, id, i) {
      assert actions[..n][..i] == actions[..i];
    }
  }

  lemma OnceSnoc(actions: seq<Action>, id: string)
    requires actions != [] && Exec(actions[..|actions| - 1]).Some?
    ensures var n := |actions| - 1;
            ReservesOnce(actions, id)
            <==> ReservesOnce(actions[..n], id) || Reserves(Exec(actions[..n]).value, actions[n], id)
  {
    SameReserves(actions, id);
  }

  lemma TwiceSnoc(actions: seq<Action>, id: string)
    requires actions != [] && Exec(actions[..|actions| - 1]).Some?
    ensures var n := |actions| - 1;
            ReservesTwice(actions, id)
            <==> ReservesTwice(actions[..n], id)
                 || (ReservesOnce(actions[..n], id) && Reserves(Exec(actions[..n]).value, actions[n], id))
  {
    SameReserves(actions, id);
  }

  /** The commits of an order's reserve are the attempts that landed. */
  lemma {:induction false} CommitsAreLandings(actions: seq<Action>, id: string)
    requires Exec(actions).Some?
    ensures CommitsOf(Exec(actions).value, id) >= 1 <==> ReservesOnce(actions, id)
    ensures CommitsOf(Exec(actions).value, id) >= 2 <==> ReservesTwice(actions, id)
  {
    if actions == [] {
    } else {
      var n := |actions| - 1;
      CommitsAreLandings(actions[..n], id);
      Reachable(actions[..n]);
      NextCommits(Exec(actions[..n]).value, actions[n], id);
      OnceSnoc(actions, id);
      TwiceSnoc(actions, id);
    }
  }

  /** No fault of the inventory service that an Execute could not see through: no reply of a reserve or
      decrement that took effect and no needed release was lost for good, and the order was not
      completed although two attempts of its reserve had reached the server and found room. */
  ghost predicate NoMishap(actions: seq<Action>, id: string, x: Order) {
    var h := x.history;
    && !h.reserveReplyLost && !h.decrementReplyLost && !h.releaseLost
    && !(x.status == Completed && ReservesTwice(actions, id))
  }

  predicate Atomic(id: string, x: Order, rows: seq<Row>) {
    || (x.saga == None && x.status == Pending && rows == [])
    || (x.saga.Some? && x.saga.value.status == SagaCompleted && x.status == Completed
        && rows == OrderRows(id, x.items, Decremented))
    || (x.saga.Some? && x.saga.value.status == SagaFailed && x.status == Failed
        && !Holds(rows, Reserved) && !Holds(rows, Decremented))
  }

  lemma OneStatus(id: string, items: seq<Item>, rows: Rows, st: Status)
    requires items != [] || rows == NoRows
    ensures Holds(RowsAt(id, items, rows), st) <==> rows == All(st)
  {
    if rows == All(st) {
      var r := RowsAt(id, items, rows)[0];
      assert r in RowsAt(id, items, rows);
    }
  }

  lemma LeftStatus(id: string, x: Order, rows: seq<Row>, spot: Spot, st: Status)
    requires OrderOk(id, x, rows, spot) && x.saga.Some? && x.saga.value.status == SagaFailed
    ensures Holds(rows, st) <==> Left(x.history, x.saga.value.reservation) == All(st)
  {
    if x.history.commits > 0 { HeldSome(x); }
    OneStatus(id, Held(x), Left(x.history, x.saga.value.reservation), st);
  }

  lemma ManyTimes(a: nat, b: nat)
    requires a >= 2 && b > 0
    ensures a * b != b
  {
  }

  /** The rows of several reserves are not those of one. */
  lemma SoldOnce(id: string, x: Order)
    requires x.items != [] && x.history.commits > 0
    ensures OrderRows(id, Held(x), Decremented) == OrderRows(id, x.items, Decremented) <==> x.history.commits <= 1
  {
    if x.history.commits == 1 {
      assert Repeat(x.items, 1) == Repeat(x.items, 0) + x.items == x.items;
    } else {
      RepeatLength(x.items, x.history.commits);
      ManyTimes(x.history.commits, |x.items|);
    }
  }

  /** When Execute has returned, order, saga and reservation rows agree on one outcome, whatever
      failed and was retried and whatever else ran in between, exactly if no mishap occurred. */
  lemma SagaAtomicity(actions: seq<Action>, id: string)
    requires Exec(actions).Some? && id in Exec(actions).value.orders
    requires var x := Exec(actions).value.orders[id]; x.pc.None? && x.history.crashedAt.None?
    ensures var w := Exec(actions).value;
            Atomic(id, w.orders[id], RowsOf(w.ledger.rows, id)) <==> NoMishap(actions, id, w.orders[id])
  {
    Reachable(actions);
    CommitsAreLandings(actions, id);
    var w := Exec(actions).value;
    var x, rows := w.orders[id], RowsOf(w.ledger.rows, id);
    assert OrderOk(id, x, rows, SpotOf(w.mode, id));
    if x.saga.Some? {
      if x.saga.value.status == SagaFailed {
        LeftStatus(id, x, rows, SpotOf(w.mode, id), Reserved);
        LeftStatus(id, x, rows, SpotOf(w.mode, id), Decremented);
      } else {
        SoldOnce(id, x);
      }
    }
  }

  /** Once serving, no saga of a returned or crashed Execute is in progress and the ledger is valid;
      and a failed saga's order is FAILED unless a crash tore its two last writes apart. */
  lemma AfterRecovery(actions: seq<Action>, id: string)
    requires Exec(actions).Some? && id in Exec(actions).value.orders
    requires var w := Exec(actions).value; w.mode == Serving && w.orders[id].pc.None?
    ensures var w := Exec(actions).value;
            && Valid(w.ledger)
            && !SagaInProgress(w.orders[id])
            && (w.orders[id].saga.Some? && w.orders[id].saga.value.status == SagaFailed ==>
                  (w.orders[id].status == Failed <==> !w.orders[id].history.torn))
  {
    Reachable(actions);
    var w := Exec(actions).value;
    assert OrderOk(id, w.orders[id], RowsOf(w.ledger.rows, id), Up);
  }

  /** A failed saga still holds stock exactly if its reserve took effect but its reservation id was
      never stored (crash before the write, or the replies lost), or its last release was lost; it
      has sold stock exactly if the crash fell between decrement and completion, or the
      decrement's reply was lost. */
  lemma WhatFailureLeaves(actions: seq<Action>, id: string)
    requires Exec(actions).Some? && id in Exec(actions).value.orders
    requires var x := Exec(actions).value.orders[id]; x.saga.Some? && x.saga.value.status == SagaFailed
    ensures var w := Exec(actions).value;
            var rows, h := RowsOf(w.ledger.rows, id), w.orders[id].history;
            && (Holds(rows, Reserved) <==>
                  || h.crashedAt == Some(StoreReservation)
                  || (h.crashedAt == Some(CallReserve) && ReservesOnce(actions, id))
                  || h.reserveReplyLost || h.releaseLost)
            && (Holds(rows, Decremented) <==>
                  h.crashedAt == Some(MarkCompleted) || h.crashedAt == Some(CompleteSaga) || h.decrementReplyLost)
  {
    CommitsAreLandings(actions, id);
    Reachable(actions);
    var w := Exec(actions).value;
    var x, rows := w.orders[id], RowsOf(w.ledger.rows, id);
    assert OrderOk(id, x, rows, SpotOf(w.mode, id));
    LeftStatus(id, x, rows, SpotOf(w.mode, id), Reserved);
    LeftStatus(id, x, rows, SpotOf(w.mode, id), Decremented);
  }

  /******* Such an input *******/

  /** A run goes on through the given worlds. */
  lemma {:induction false} ExecIs(before: seq<Action>, actions: seq<Action>, worlds: seq<World>)
    requires |worlds| == |actions| + 1 && Exec(before) == Some(worlds[0])
    requires forall i :: 0 <= i < |actions| ==> Next(worlds[i], actions[i]) == Some(worlds[i + 1])
    ensures Exec(before + actions) == Some(worlds[|actions|])
  {
    if actions == [] {
      assert before + actions == before;
    } else {
      var n := |actions| - 1;
      ExecIs(before, actions[..n], worlds[..n + 1]);
      assert (before + actions)[..|before + actions| - 1] == before + actions[..n];
    }
  }

  const STOCKED := Ledger(map["A" := Product(10, 0)], [])
  const ITEMS := [Item("A", 1)]

  /** Order "o", alone. */
  function Alone(l: Ledger, x: Order): World {
    World(l, map["o" := x], Serving)
  }

  lemma OneStep(l: Ledger, x: Order, fate: Fate, call: Call, y: Order)
    requires x.pc.Some? && call == Issue(l, Request("o", x), fate) && y == Advance("o", x, call)
    ensures Next(Alone(l, x), Step("o", fate)) == Some(Alone(call.ledger, y))
  {
    assert (map["o" := x])["o" := y] == map["o" := y];
  }

  /** An order that has been placed over the stock, up to its first call. */
  function ToReserve(pc: Pc, status: OrderStatus): Order {
    Order(ITEMS, status, Some(Saga(ReserveInventory, InProgress, None)), Some(pc), CLEAN)
  }

  lemma PlacedOrder() returns (actions: seq<Action>)
    ensures Exec(actions) == Some(Alone(STOCKED, Order(ITEMS, Pending, None, Some(CheckSaga), CLEAN)))
  {
    var w := INIT.(ledger := STOCKED);
    assert EMPTY.products["A" := Product(10, 0)] == STOCKED.products;
    actions := [Stock("A", 10), Place("o", ITEMS)];
    assert Exec([]) == Some(INIT);
    ExecIs([], actions, [INIT, w, Alone(STOCKED, Order(ITEMS, Pending, None, Some(CheckSaga), CLEAN))]);
    assert [] + actions == actions;
  }

  lemma ReachesReserve() returns (actions: seq<Action>)
    ensures Exec(actions) == Some(Alone(STOCKED, ToReserve(CallReserve, Reserving)))
  {
    var placed := PlacedOrder();
    var x0 := Order(ITEMS, Pending, None, Some(CheckSaga), CLEAN);
    var done := Call(STOCKED, true, false, false);
    OneStep(STOCKED, x0, Delivered, done, x0.(pc := Some(CreateSaga)));
    OneStep(STOCKED, x0.(pc := Some(CreateSaga)), Delivered, done, ToReserve(StepReserve, Pending));
    OneStep(STOCKED, ToReserve(StepReserve, Pending), Delivered, done, ToReserve(MarkReserving, Pending));
    OneStep(STOCKED, ToReserve(MarkReserving, Pending), Delivered, done, ToReserve(CallReserve, Reserving));
    var step := Step("o", Delivered);
    var rest := [step, step, step, step];
    ExecIs(placed, rest, [Alone(STOCKED, x0), Alone(STOCKED, x0.(pc := Some(CreateSaga))),
                          Alone(STOCKED, ToReserve(StepReserve, Pending)),
                          Alone(STOCKED, ToReserve(MarkReserving, Pending)),
                          Alone(STOCKED, ToReserve(CallReserve, Reserving))]);
    actions := placed + rest;
  }

  lemma ReserveWorks()
    ensures Apply(STOCKED, ReserveOp("o", ITEMS)).Ok?
  {
    assert ReserveAll(STOCKED, "o", []) == Ok(STOCKED) && ITEMS[..0] == [];
  }

  /** The order after a lost reply of its reserve. */
  function GivingUp(pc: Option<Pc>, status: OrderStatus, saga: SagaStatus): Order {
    Order(ITEMS, status, Some(Saga(ReserveInventory, saga, None)), pc, CLEAN.(reserveReplyLost := true, commits := 1))
  }

  lemma LosesReply(l: Ledger)
    requires Apply(STOCKED, ReserveOp("o", ITEMS)) == Ok(l)
    ensures Next(Alone(STOCKED, ToReserve(CallReserve, Reserving)), Step("o", ReplyLost))
            == Some(Alone(l, GivingUp(Some(FailSaga), Reserving, InProgress)))
  {
    OneStep(STOCKED, ToReserve(CallReserve, Reserving), ReplyLost, Send(STOCKED, ReserveOp("o", ITEMS), ReplyLost),
        GivingUp(Some(FailSaga), Reserving, InProgress));
  }

  lemma Fails(l: Ledger)
    ensures Next(Alone(l, GivingUp(Some(FailSaga), Reserving, InProgress)), Step("o", Delivered))
            == Some(Alone(l, GivingUp(Some(FailOrder), Reserving, SagaFailed)))
    ensures Next(Alone(l, GivingUp(Some(FailOrder), Reserving, SagaFailed)), Step("o", Delivered))
            == Some(Alone(l, GivingUp(None, Failed, SagaFailed)))
  {
    var done := Call(l, true, false, false);
    OneStep(l, GivingUp(Some(FailSaga), Reserving, InProgress), Delivered, done,
        GivingUp(Some(FailOrder), Reserving, SagaFailed));
    OneStep(l, GivingUp(Some(FailOrder), Reserving, SagaFailed), Delivered, done, GivingUp(None, Failed, SagaFailed));
  }

  lemma ReplyIsLost() returns (actions: seq<Action>, l: Ledger)
    ensures Exec(actions) == Some(Alone(l, GivingUp(None, Failed, SagaFailed)))
  {
    var before := ReachesReserve();
    ReserveWorks();
    l := Apply(STOCKED, ReserveOp("o", ITEMS)).ledger;
    LosesReply(l);
    Fails(l);
    var rest := [Step("o", ReplyLost), Step("o", Delivered), Step("o", Delivered)];
    ExecIs(before, rest, [Alone(STOCKED, ToReserve(CallReserve, Reserving)),
                          Alone(l, GivingUp(Some(FailSaga), Reserving, InProgress)),
                          Alone(l, GivingUp(Some(FailOrder), Reserving, SagaFailed)),
                          Alone(l, GivingUp(None, Failed, SagaFailed))]);
    actions := before + rest;
  }

  /** The reply of a reserve that took effect is lost: the order fails and keeps its stock. */
  lemma LostReplyBreaksAtomicity() returns (actions: seq<Action>, l: Ledger)
    ensures Exec(actions) == Some(Alone(l, GivingUp(None, Failed, SagaFailed)))
    ensures var rows := RowsOf(l.rows, "o");
            Holds(rows, Reserved) && !Atomic("o", GivingUp(None, Failed, SagaFailed), rows)
  {
    actions, l := ReplyIsLost();
    SagaAtomicity(actions, "o");
    WhatFailureLeaves(actions, "o");
  }

  function StatusOfStep(step: SagaStep): OrderStatus {
    match step case ReserveInventory => Reserving case ProcessPayment => Paying case ConfirmOrder => Confirming
  }

  function StatusBefore(step: SagaStep): OrderStatus {
    match step case ReserveInventory => Pending case ProcessPayment => Reserving case ConfirmOrder => Paying
  }

  lemma NoneSold(id: string, x: Order)
    ensures !Holds([], Decremented)
    ensures !Holds(OrderRows(id, Held(x), Reserved), Decremented)
    ensures !Holds(OrderRows(id, Held(x), Released), Decremented)
  {
  }

  predicate StepKnows(id: string, x: Order, rows: seq<Row>)
    requires x.saga.Some?
  {
    && (x.saga.value.step != ReserveInventory ==> x.saga.value.reservation == Some(id))
    && (Holds(rows, Decremented) ==> x.saga.value.step == ConfirmOrder)
  }

  lemma SoldInExecute(id: string, x: Order, rows: seq<Row>)
    requires x.pc.Some? && InExecute(id, x, x.pc.value, rows) && x.saga.Some?
    ensures StepKnows(id, x, rows)
  {
    NoneSold(id, x);
  }

  lemma SoldAtRest(id: string, x: Order, rows: seq<Row>, spot: Spot)
    requires NotRunning(id, x, rows, spot) && x.saga.Some?
    ensures StepKnows(id, x, rows)
  {
    NoneSold(id, x);
  }

  lemma SoldWhenConfirming(id: string, x: Order, rows: seq<Row>, spot: Spot)
    requires OrderOk(id, x, rows, spot) && x.saga.Some?
    ensures StepKnows(id, x, rows)
  {
    if x.pc.Some? { SoldInExecute(id, x, rows); } else { SoldAtRest(id, x, rows, spot); }
  }

  lemma StatusLags(id: string, x: Order, rows: seq<Row>, spot: Spot)
    requires OrderOk(id, x, rows, spot) && x.saga.Some? && x.pc.Some?
    ensures var step := x.saga.value.step;
            x.status == StatusOfStep(step) || x.status == StatusBefore(step)
            || (x.status == Completed && step == ConfirmOrder)
  {
  }

  /** In every reachable world a saga past its first step knows its reservation, rows are sold only
      once it is confirming, and while Execute runs the order's status is at most one write behind
      the saga's step. */
  lemma CrossServiceStep(actions: seq<Action>, id: string)
    requires Exec(actions).Some? && id in Exec(actions).value.orders
    requires Exec(actions).value.orders[id].saga.Some?
    ensures var w := Exec(actions).value;
            var x := w.orders[id];
            var step := x.saga.value.step;
            && (step != ReserveInventory ==> x.saga.value.reservation == Some(id))
            && (Holds(RowsOf(w.ledger.rows, id), Decremented) ==> step == ConfirmOrder)
            && (x.pc.Some? ==> x.status == StatusOfStep(step) || x.status == StatusBefore(step)
                               || (x.status == Completed && step == ConfirmOrder))
  {
    Reachable(actions);
    var w := Exec(actions).value;
    var x, rows := w.orders[id], RowsOf(w.ledger.rows, id);
    SoldWhenConfirming(id, x, rows, SpotOf(w.mode, id));
    if x.pc.Some? { StatusLags(id, x, rows, SpotOf(w.mode, id)); }
  }

  /******* Execute returns *******/

  lemma AdvanceDescends(id: string, x: Order, call: Call)
    requires x.pc.Some?
    ensures Rank(Advance(id, x, call).pc) < Rank(x.pc) <= 16
  {
  }

  /** A running Execute can always take its next step, and each step brings it closer to its return; a
      retry leaves it where it is, and only so many are left. */
  lemma ExecuteProgresses(w: World, id: string, fate: Fate)
    requires id in w.orders && w.orders[id].pc.Some?
    ensures Next(w, Step(id, fate)).Some?
    ensures Rank(Next(w, Step(id, fate)).value.orders[id].pc) < Rank(w.orders[id].pc) <= 16
    ensures Next(w, TryAgain(id, fate)).Some?
            <==> w.orders[id].pc == Some(CallReserve) && fate != Delivered && w.orders[id].history.tries < 3
    ensures Next(w, TryAgain(id, fate)).Some? ==>
              var x, x' := w.orders[id], Next(w, TryAgain(id, fate)).value.orders[id];
              x'.pc == x.pc && x.history.tries < x'.history.tries <= MAX_RETRIES
  {
    AdvanceDescends(id, w.orders[id], Issue(w.ledger, Request(id, w.orders[id]), fate));
  }
}
