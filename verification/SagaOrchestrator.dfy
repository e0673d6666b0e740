/**
services/order/saga.go as it is written: Execute and Resume issue their writes and calls one after
the other. Each is proved against the step machine: Execute alone is the machine run to its
return, and Resume is the machine's Resume run to its end.
*/
module SagaOrchestration {
  import opened Common
  import opened StockLedger
  import opened LedgerTheorems
  import opened SagaProtocol
  import opened SagaTheorems
  import Recovery = SagaRecovery
  import Analytics

  datatype SagaInput = SagaInput(order: string, customer: string, totalCents: int, itemCount: int, items: seq<Item>)

  /** The analytics event of a completed saga. */
  function EventOf(input: SagaInput): Analytics.OrderEvent {
    Analytics.OrderEvent(input.order, input.customer, "COMPLETED", input.totalCents, input.itemCount)
  }

  predicate IsCompleted(saga: Option<Saga>) {
    saga.Some? && saga.value.status == SagaCompleted
  }

  datatype Position = Position(order: Order, ledger: Ledger)

  /** How each statement fares. */
  type Fates = Pc -> Fate

  function StepOnce(id: string, at: Position, fates: Fates): Position
    requires at.order.pc.Some?
  {
    var call := Issue(at.ledger, Request(id, at.order), fates(at.order.pc.value));
    Position(Advance(id, at.order, call), call.ledger)
  }

  /** The step machine run until Execute returns. */
  function RunToReturn(id: string, at: Position, fates: Fates): Position
    decreases Rank(at.order.pc)
  {
    if at.order.pc.None? then at
    else
      AdvanceDescends(id, at.order, Issue(at.ledger, Request(id, at.order), fates(at.order.pc.value)));
      RunToReturn(id, StepOnce(id, at, fates), fates)
  }

  /** The machine's steps in that run. */
  function StepsOf(id: string, at: Position, fates: Fates): seq<Action>
    decreases Rank(at.order.pc)
  {
    if at.order.pc.None? then []
    else
      AdvanceDescends(id, at.order, Issue(at.ledger, Request(id, at.order), fates(at.order.pc.value)));
      [Step(id, fates(at.order.pc.value))] + StepsOf(id, StepOnce(id, at, fates), fates)
  }

  /** The world in which one Execute has run to its return, alone. */
  function Returned(w: World, id: string, fates: Fates): World
    requires id in w.orders
  {
    var end := RunToReturn(id, Position(w.orders[id], w.ledger), fates);
    World(end.ledger, w.orders[id := end.order], w.mode)
  }

  lemma ReturnedLater(w: World, id: string, fates: Fates)
    requires id in w.orders && w.orders[id].pc.Some?
    ensures var next := Next(w, Step(id, fates(w.orders[id].pc.value)));
            && next.Some? && id in next.value.orders && Returned(next.value, id, fates) == Returned(w, id, fates)
            && Position(next.value.orders[id], next.value.ledger)
               == StepOnce(id, Position(w.orders[id], w.ledger), fates)
  {
    var next := Next(w, Step(id, fates(w.orders[id].pc.value))).value;
    assert next.orders[id := Returned(w, id, fates).orders[id]] == Returned(w, id, fates).orders;
  }

  /** A run to the return is a run of the machine. */
  lemma {:induction false} ReturnedReached(actions: seq<Action>, id: string, fates: Fates)
    requires Exec(actions).Some? && id in Exec(actions).value.orders
    ensures var w := Exec(actions).value;
            Exec(actions + StepsOf(id, Position(w.orders[id], w.ledger), fates)) == Some(Returned(w, id, fates))
    decreases Rank(Exec(actions).value.orders[id].pc)
  {
    var w := Exec(actions).value;
    var at := Position(w.orders[id], w.ledger);
    if at.order.pc.None? {
      assert actions + StepsOf(id, at, fates) == actions && w.orders[id := w.orders[id]] == w.orders;
    } else {
      var first := [Step(id, fates(at.order.pc.value))];
      var rest := StepsOf(id, StepOnce(id, at, fates), fates);
      ReturnedLater(w, id, fates);
      AdvanceDescends(id, at.order, Issue(at.ledger, Request(id, at.order), fates(at.order.pc.value)));
      Recovery.ExecSnoc(actions, first[0]);
      ReturnedReached(actions + first, id, fates);
      Recovery.Regroup(actions, first, rest);
    }
  }

  lemma {:induction false} ReturnsUncrashed(id: string, at: Position, fates: Fates)
    ensures RunToReturn(id, at, fates).order.pc.None?
    ensures RunToReturn(id, at, fates).order.history.crashedAt == at.order.history.crashedAt
    decreases Rank(at.order.pc)
  {
    if at.order.pc.None? {
    } else {
      AdvanceDescends(id, at.order, Issue(at.ledger, Request(id, at.order), fates(at.order.pc.value)));
      ReturnsUncrashed(id, StepOnce(id, at, fates), fates);
    }
  }

  /** What one Execute leaves behind in a reachable world is atomic exactly if no mishap occurred. */
  lemma ReturnedAtomicity(actions: seq<Action>, id: string, fates: Fates)
    requires Exec(actions).Some? && id in Exec(actions).value.orders
    requires Exec(actions).value.orders[id].history.crashedAt.None?
    ensures var w := Exec(actions).value;
            var end := Returned(w, id, fates);
            Atomic(id, end.orders[id], RowsOf(end.ledger.rows, id))
            <==> NoMishap(actions + StepsOf(id, Position(w.orders[id], w.ledger), fates), id, end.orders[id])
  {
    var w := Exec(actions).value;
    var at := Position(w.orders[id], w.ledger);
    ReturnedReached(actions, id, fates);
    ReturnsUncrashed(id, at, fates);
    SagaAtomicity(actions + StepsOf(id, at, fates), id);
  }

  lemma ToCallReserve(id: string, at: Position, fates: Fates)
    requires at.order.pc == Some(StepReserve) && at.order.saga.Some?
    ensures var x := at.order;
            var x' := Goto(SetStep(x, ReserveInventory).(status := Reserving), CallReserve);
            RunToReturn(id, at, fates) == RunToReturn(id, at.(order := x'), fates)
  {
  }

  lemma ToCallPayment(id: string, at: Position, fates: Fates)
    requires at.order.pc == Some(StoreReservation) && at.order.saga.Some?
    ensures var x := at.order;
            var x' := Goto(SetStep(SetReservation(x, id), ProcessPayment).(status := Paying), CallPayment);
            RunToReturn(id, at, fates) == RunToReturn(id, at.(order := x'), fates)
  {
    var a := StepOnce(id, at, fates);
    var b := StepOnce(id, a, fates);
    assert RunToReturn(id, a, fates) == RunToReturn(id, b, fates);
    assert RunToReturn(id, b, fates) == RunToReturn(id, StepOnce(id, b, fates), fates);
  }

  lemma PastPayment(id: string, at: Position, fates: Fates) returns (next: Position)
    requires at.order.pc == Some(StoreReservation) && at.order.saga.Some?
    ensures RunToReturn(id, at, fates) == RunToReturn(id, next, fates)
    ensures next.ledger == at.ledger && next.order.status == Paying
    ensures next.order.pc == Some(if fates(CallPayment) == Delivered then StepConfirm else CallRelease)
    ensures next.order.saga == Some(at.order.saga.value.(step := ProcessPayment, reservation := Some(id)))
  {
    ToCallPayment(id, at, fates);
    var paying := SetStep(SetReservation(at.order, id), ProcessPayment).(status := Paying);
    var before := at.(order := Goto(paying, CallPayment));
    next := StepOnce(id, before, fates);
    assert RunToReturn(id, before, fates) == RunToReturn(id, next, fates);
  }

  lemma ToCallDecrement(id: string, at: Position, fates: Fates)
    requires at.order.pc == Some(StepConfirm) && at.order.saga.Some?
    ensures var x := at.order;
            var x' := Goto(SetStep(x, ConfirmOrder).(status := Confirming), CallDecrement);
            RunToReturn(id, at, fates) == RunToReturn(id, at.(order := x'), fates)
  {
  }

  lemma ToCompleted(id: string, at: Position, fates: Fates)
    requires at.order.pc == Some(MarkCompleted) && at.order.saga.Some?
    ensures var x' := Goto(at.order.(status := Completed), CompleteSaga);
            RunToReturn(id, at, fates) == at.(order := Return(SetSagaStatus(x', SagaCompleted)))
  {
    var a := StepOnce(id, at, fates);
    assert RunToReturn(id, a, fates) == RunToReturn(id, StepOnce(id, a, fates), fates);
  }

  lemma ToFailed(id: string, at: Position, fates: Fates)
    requires at.order.pc == Some(FailSaga) && at.order.saga.Some?
    ensures var x' := Goto(SetSagaStatus(at.order, SagaFailed), FailOrder);
            RunToReturn(id, at, fates) == at.(order := Return(x'.(status := Failed)))
  {
    var a := StepOnce(id, at, fates);
    assert RunToReturn(id, a, fates) == RunToReturn(id, StepOnce(id, a, fates), fates);
  }

  class SagaOrchestrator {
    var ledger: Ledger                     // behind the inventory service's API
    var orders: map<string, OrderStatus>   // orders.status by order id
    var sagas: map<string, Saga>           // saga_state by order id
    var published: seq<Analytics.OrderEvent>   // handed to the analytics client, if there is one
    const analytics: bool

    constructor (ledger: Ledger, orders: map<string, OrderStatus>, sagas: map<string, Saga>, analytics: bool)
      ensures this.ledger == ledger && this.orders == orders && this.sagas == sagas
      ensures published == [] && this.analytics == analytics
    {
      this.ledger, this.orders, this.sagas, this.analytics, published := ledger, orders, sagas, analytics, [];
    }

    /** What an Execute publishes that leaves this saga behind. */
    function News(input: SagaInput, saga: Option<Saga>): seq<Analytics.OrderEvent> {
      if analytics && IsCompleted(saga) then [EventOf(input)] else []
    }

    function SagaOf(id: string): Option<Saga>
      reads this
    {
      if id in sagas then Some(sagas[id]) else None
    }

    /** The tables agree with a position of the step machine, for that order. */
    ghost predicate Shows(id: string, at: Position)
      reads this
    {
      id in orders && orders[id] == at.order.status && SagaOf(id) == at.order.saga && ledger == at.ledger
    }

    /** No other order's row or saga differs from before. */
    twostate predicate OnlyChanged(id: string)
      reads this
    {
      && orders.Keys == old(orders).Keys
      && (forall u :: u in orders && u != id ==> orders[u] == old(orders)[u])
      && (forall u :: u != id ==> SagaOf(u) == old(SagaOf(u)))
    }

    method UpdateStep(id: string, step: SagaStep)
      modifies this`sagas
      ensures sagas == if id in old(sagas) then old(sagas)[id := old(sagas)[id].(step := step)] else old(sagas)
    {
      if id in sagas { sagas := sagas[id := sagas[id].(step := step)]; }
    }

    method SetReservationID(id: string, reservation: string)
      modifies this`sagas
      ensures sagas ==
                if id in old(sagas) then old(sagas)[id := old(sagas)[id].(reservation := Some(reservation))]
                else old(sagas)
    {
      if id in sagas { sagas := sagas[id := sagas[id].(reservation := Some(reservation))]; }
    }

    method UpdateSagaStatus(id: string, status: SagaStatus)
      modifies this`sagas
      ensures sagas == if id in old(sagas) then old(sagas)[id := old(sagas)[id].(status := status)] else old(sagas)
    {
      if id in sagas { sagas := sagas[id := sagas[id].(status := status)]; }
    }

    method UpdateOrderStatus(id: string, status: OrderStatus)
      modifies this`orders
      ensures orders == if id in old(orders) then old(orders)[id := status] else old(orders)
    {
      if id in orders { orders := orders[id := status]; }
    }

    /** An RPC to the inventory service. */
    method Invoke(op: Op, fate: Fate) returns (ok: bool)
      modifies this`ledger
      ensures ledger == Send(old(ledger), op, fate).ledger && ok == Send(old(ledger), op, fate).answered
    {
      var call := Send(ledger, op, fate);
      ledger := call.ledger;
      return call.answered;
    }

    method Fail(id: string)
      modifies this`orders, this`sagas
      ensures sagas == if id in old(sagas) then old(sagas)[id := old(sagas)[id].(status := SagaFailed)] else old(sagas)
      ensures orders == if id in old(orders) then old(orders)[id := Failed] else old(orders)
    {
      UpdateSagaStatus(id, SagaFailed);
      UpdateOrderStatus(id, Failed);
    }

    method CompensateReserve(reservation: string, fate: Fate)
      modifies this`ledger
      ensures reservation != "" ==> ledger == Send(old(ledger), SettleOp(reservation, Released), fate).ledger
      ensures reservation == "" ==> ledger == old(ledger)
    {
      if reservation == "" { return; }
      var _ := Invoke(SettleOp(reservation, Released), fate);
    }

    /** Compensation and fail, from the release on. */
    method Abandon(id: string, fates: Fates, ghost at: Position)
      requires id != "" && at.order.pc == Some(CallRelease) && at.order.saga.Some? && Shows(id, at)
      modifies this`ledger, this`orders, this`sagas
      ensures Shows(id, RunToReturn(id, at, fates)) && OnlyChanged(id)
      ensures !IsCompleted(RunToReturn(id, at, fates).order.saga)
    {
      CompensateReserve(id, fates(CallRelease));
      ghost var next := StepOnce(id, at, fates);
      assert RunToReturn(id, at, fates) == RunToReturn(id, next, fates);
      ToFailed(id, next, fates);
      Fail(id);
    }

    /** The tables hold the orders and sagas of the world, under non-empty ids, and no other saga. */
    static predicate Tables(w: World, ledger: Ledger, orders: map<string, OrderStatus>, sagas: map<string, Saga>) {
      && ledger == w.ledger && "" !in w.orders
      && (forall id :: id in w.orders ==> id in orders && orders[id] == w.orders[id].status)
      && (forall id :: id in w.orders ==> (id in sagas <==> w.orders[id].saga.Some?))
      && (forall id :: id in sagas ==> id in w.orders && w.orders[id].saga == Some(sagas[id]))
    }

    /** The tables of a world, after one order's Execute in it. */
    static lemma ReturnedShown(w: World, ledger: Ledger, orders: map<string, OrderStatus>, sagas: map<string, Saga>,
        id: string, fates: Fates, orders': map<string, OrderStatus>, sagas': map<string, Saga>)
      requires Tables(w, ledger, orders, sagas) && id in w.orders && orders'.Keys == orders.Keys
      requires forall u :: u in orders && u != id ==> orders'[u] == orders[u]
      requires forall u :: u != id ==> (u in sagas <==> u in sagas') && (u in sagas ==> sagas'[u] == sagas[u])
      requires var end := RunToReturn(id, Position(w.orders[id], ledger), fates).order;
               && orders'[id] == end.status && (id in sagas' <==> end.saga.Some?)
               && (id in sagas' ==> end.saga == Some(sagas'[id]))
      ensures Tables(Returned(w, id, fates), RunToReturn(id, Position(w.orders[id], ledger), fates).ledger,
                     orders', sagas')
    {
    }

    /** Reserve, pay, confirm. The order row exists; its id is not empty. The event of an order that this
        call completes carries the total that the call was given. The tables of a world end as those of
        the world that the machine reaches by the order's steps. */
    method Execute(input: SagaInput, fates: Fates)
      requires input.order != "" && input.order in orders
      modifies this
      ensures var id := input.order;
              var start := Order(input.items, old(orders)[id], old(SagaOf(id)), Some(CheckSaga), CLEAN);
              var end := RunToReturn(id, Position(start, old(ledger)), fates);
              && Shows(id, end)
              && published == old(published) + (if start.saga.None? then News(input, end.order.saga) else [])
              && forall w: World :: Tables(w, old(ledger), old(orders), old(sagas)) && id in w.orders
                                    && w.orders[id] == start ==>
                   Tables(Returned(w, id, fates), ledger, orders, sagas)
      ensures OnlyChanged(input.order)
    {
      var id := input.order;
      ghost var ledger0, orders0, sagas0 := ledger, orders, sagas;
      ghost var start := Position(Order(input.items, orders[id], SagaOf(id), Some(CheckSaga), CLEAN), ledger);
      // getExistingSaga
      ghost var checked := StepOnce(id, start, fates);
      assert RunToReturn(id, start, fates) == RunToReturn(id, checked, fates);
      if fates(CheckSaga) != Delivered || id in sagas {
        assert RunToReturn(id, checked, fates) == checked;
      } else {
        // createSagaState
        ghost var created := StepOnce(id, checked, fates);
        assert RunToReturn(id, checked, fates) == RunToReturn(id, created, fates);
        if fates(CreateSaga) != Delivered {
          assert RunToReturn(id, created, fates) == created;
        } else {
          sagas := sagas[id := Saga(ReserveInventory, InProgress, None)];
          Drive(input, fates, created);
        }
      }
      forall u | u != id ensures (u in sagas0 <==> u in sagas) && (u in sagas0 ==> sagas[u] == sagas0[u]) {
        assert SagaOf(u) == old(SagaOf(u));
      }
      forall w: World | Tables(w, ledger0, orders0, sagas0) && id in w.orders && w.orders[id] == start.order
        ensures Tables(Returned(w, id, fates), ledger, orders, sagas)
      {
        ReturnedShown(w, ledger0, orders0, sagas0, id, fates, orders, sagas);
      }
    }

    method Reserve(input: SagaInput, fates: Fates, ghost at: Position)
      requires input.order != "" && at.order.pc == Some(CallReserve) && at.order.items == input.items
      requires at.order.saga.Some? && at.order.saga.value.status == InProgress && Shows(input.order, at)
      modifies this
      ensures Shows(input.order, RunToReturn(input.order, at, fates)) && OnlyChanged(input.order)
      ensures published == old(published) + News(input, RunToReturn(input.order, at, fates).order.saga)
    {
      var id := input.order;
      ghost var next := StepOnce(id, at, fates);
      assert RunToReturn(id, at, fates) == RunToReturn(id, next, fates);
      var ok := Invoke(ReserveOp(id, input.items), fates(CallReserve));
      if !ok {
        ToFailed(id, next, fates);
        Fail(id);
      } else {
        Pay(input, fates, next);
      }
    }

    method Drive(input: SagaInput, fates: Fates, ghost at: Position)
      requires input.order != "" && at.order.pc == Some(StepReserve) && at.order.items == input.items
      requires at.order.saga.Some? && at.order.saga.value.status == InProgress && Shows(input.order, at)
      modifies this
      ensures Shows(input.order, RunToReturn(input.order, at, fates)) && OnlyChanged(input.order)
      ensures published == old(published) + News(input, RunToReturn(input.order, at, fates).order.saga)
    {
      var id := input.order;
      UpdateStep(id, ReserveInventory);
      UpdateOrderStatus(id, Reserving);
      ToCallReserve(id, at, fates);
      ghost var reserving := SetStep(at.order, ReserveInventory).(status := Reserving);
      Reserve(input, fates, at.(order := Goto(reserving, CallReserve)));
    }

    method Pay(input: SagaInput, fates: Fates, ghost at: Position)
      requires input.order != "" && at.order.pc == Some(StoreReservation)
      requires at.order.saga.Some? && at.order.saga.value.status == InProgress && Shows(input.order, at)
      modifies this
      ensures Shows(input.order, RunToReturn(input.order, at, fates)) && OnlyChanged(input.order)
      ensures published == old(published) + News(input, RunToReturn(input.order, at, fates).order.saga)
    {
      var id := input.order;
      SetReservationID(id, id);
      UpdateStep(id, ProcessPayment);
      UpdateOrderStatus(id, Paying);
      ghost var next := PastPayment(id, at, fates);
      if fates(CallPayment) != Delivered {
        Abandon(id, fates, next);
      } else {
        Confirm(input, fates, next);
      }
    }

    method Complete(input: SagaInput, fates: Fates, ghost at: Position)
      requires at.order.pc == Some(MarkCompleted)
      requires at.order.saga.Some? && at.order.saga.value.status == InProgress && Shows(input.order, at)
      modifies this
      ensures Shows(input.order, RunToReturn(input.order, at, fates)) && OnlyChanged(input.order)
      ensures published == old(published) + News(input, RunToReturn(input.order, at, fates).order.saga)
    {
      ToCompleted(input.order, at, fates);
      UpdateOrderStatus(input.order, Completed);
      UpdateSagaStatus(input.order, SagaCompleted);
      if analytics { published := published + [EventOf(input)]; }
    }

    method Confirm(input: SagaInput, fates: Fates, ghost at: Position)
      requires input.order != "" && at.order.pc == Some(StepConfirm)
      requires at.order.saga.Some? && at.order.saga.value.status == InProgress && Shows(input.order, at)
      modifies this
      ensures Shows(input.order, RunToReturn(input.order, at, fates)) && OnlyChanged(input.order)
      ensures published == old(published) + News(input, RunToReturn(input.order, at, fates).order.saga)
    {
      var id := input.order;
      UpdateStep(id, ConfirmOrder);
      UpdateOrderStatus(id, Confirming);
      ToCallDecrement(id, at, fates);
      ghost var before := at.(order := Goto(SetStep(at.order, ConfirmOrder).(status := Confirming), CallDecrement));
      ghost var next := StepOnce(id, before, fates);
      var ok := Invoke(SettleOp(id, Decremented), fates(CallDecrement));
      assert RunToReturn(id, before, fates) == RunToReturn(id, next, fates);
      if !ok {
        Abandon(id, fates, next);
      } else {
        Complete(input, fates, next);
      }
    }

    /** SELECT * FROM saga_state WHERE status = 'IN_PROGRESS' */
    method SelectInProgress() returns (found: seq<string>)
      ensures forall id :: id in found <==> id in sagas && sagas[id].status == InProgress
      ensures Distinct(found)
    {
      found := [];
      var rest := sagas.Keys;
      while rest != {}
        invariant rest <= sagas.Keys && Distinct(found)
        invariant forall id :: id in found <==> id in sagas && id !in rest && sagas[id].status == InProgress
        decreases |rest|
      {
        var id :| id in rest;
        rest := rest - {id};
        if sagas[id].status == InProgress { found := found + [id]; }
      }
    }

    static function OpenIn(from: map<string, Saga>): set<string> {
      set id | id in from && from[id].status == InProgress
    }

    static function FailSagas(from: map<string, Saga>, ids: set<string>): map<string, Saga> {
      map id | id in from :: if id in ids then from[id].(status := SagaFailed) else from[id]
    }

    static function FailOrders(from: map<string, OrderStatus>, ids: set<string>): map<string, OrderStatus> {
      map id | id in from :: if id in ids then Failed else from[id]
    }

    static predicate ReleaseArrives(saga: Saga, fate: Fate) {
      saga.reservation.Some? && saga.reservation.value != "" && fate != RequestLost
    }

    /** The reservations that Resume's releases reach, out of the given sagas. */
    static ghost function Reached(from: map<string, Saga>, ids: set<string>, fates: string -> Fate): set<string> {
      set id | id in ids && id in from && ReleaseArrives(from[id], fates(id)) :: from[id].reservation.value
    }

    static lemma OpenShown(w: World, ledger: Ledger, orders: map<string, OrderStatus>, sagas: map<string, Saga>,
        fates: string -> Fate)
      requires Tables(w, ledger, orders, sagas) && Recovery.Interruptible(w)
      ensures OpenIn(sagas) == Recovery.InFlight(w.orders)
      ensures Reached(sagas, OpenIn(sagas), fates) == Recovery.Arriving(w.orders, OpenIn(sagas), fates)
    {
      forall id | id in OpenIn(sagas) ensures Recovery.Open(id, w.orders[id]) && sagas[id] == w.orders[id].saga.value {
      }
      forall id | id in Recovery.Arriving(w.orders, OpenIn(sagas), fates)
        ensures id in Reached(sagas, OpenIn(sagas), fates)
      {
        assert ReleaseArrives(sagas[id], fates(id)) && sagas[id].reservation.value == id;
      }
    }

    static lemma ResumedShown(w: World, ledger: Ledger, orders: map<string, OrderStatus>, sagas: map<string, Saga>,
        fates: string -> Fate)
      requires Tables(w, ledger, orders, sagas) && Recovery.Interruptible(w)
      ensures Tables(Recovery.Resumed(w, fates), Settled(ledger, Reached(sagas, OpenIn(sagas), fates), Released),
                     FailOrders(orders, OpenIn(sagas)), FailSagas(sagas, OpenIn(sagas)))
    {
      OpenShown(w, ledger, orders, sagas, fates);
    }

    /** Every saga that was in progress is failed with its order, whatever became of its release;
        the stock of those whose release arrived is given back; nothing else changes. So the tables of
        a world end as those of the world that the machine's Resume leaves. */
    method Resume(fates: string -> Fate, ghost w: World)
      modifies this
      ensures old(Tables(w, ledger, orders, sagas)) && Recovery.Interruptible(w) ==>
                forall todo: seq<string> :: Selected(w, todo) ==>
                  var end := Recovery.FullRun(w, todo, fates);
                  end.Some? && Tables(end.value, ledger, orders, sagas)
      ensures sagas == FailSagas(old(sagas), OpenIn(old(sagas)))
      ensures orders == FailOrders(old(orders), OpenIn(old(sagas)))
      ensures ledger == Settled(old(ledger), Reached(old(sagas), OpenIn(old(sagas)), fates), Released)
    {
      ghost var sagas0, orders0, ledger0 := sagas, orders, ledger;
      var found := SelectInProgress();
      var rows := sagas;
      SettledNone(ledger0, Released);
      assert Reached(sagas0, Elements(found[..0]), fates) == {};
      for i := 0 to |found|
        invariant sagas == FailSagas(sagas0, Elements(found[..i]))
        invariant orders == FailOrders(orders0, Elements(found[..i]))
        invariant ledger == Settled(ledger0, Reached(sagas0, Elements(found[..i]), fates), Released)
      {
        assert Elements(found[..i + 1]) == Elements(found[..i]) + {found[i]};
        ResumeOne(found[i], rows[found[i]], fates, sagas0, orders0, ledger0, Elements(found[..i]));
      }
      assert Elements(found[..|found|]) == OpenIn(sagas0);
      if Tables(w, ledger0, orders0, sagas0) && Recovery.Interruptible(w) {
        ResumedShown(w, ledger0, orders0, sagas0, fates);
        forall todo: seq<string> | Selected(w, todo)
          ensures Recovery.FullRun(w, todo, fates) == Some(Recovery.Resumed(w, fates))
        {
          Recovery.FullRunIs(w, todo, fates);
        }
      }
    }

    /** The body of Resume's loop. */
    method ResumeOne(id: string, row: Saga, fates: string -> Fate, ghost sagas0: map<string, Saga>,
                     ghost orders0: map<string, OrderStatus>, ghost ledger0: Ledger, ghost done: set<string>)
      requires id in sagas0 && row == sagas0[id]
      requires sagas == FailSagas(sagas0, done) && orders == FailOrders(orders0, done)
      requires ledger == Settled(ledger0, Reached(sagas0, done, fates), Released)
      modifies this
      ensures sagas == FailSagas(sagas0, done + {id}) && orders == FailOrders(orders0, done + {id})
      ensures ledger == Settled(ledger0, Reached(sagas0, done + {id}, fates), Released)
    {
      if row.reservation.Some? { CompensateReserve(row.reservation.value, fates(id)); }
      ReleaseNext(ledger0, sagas0, done, id, fates);
      Fail(id);
      FailNext(sagas0, orders0, done, id);
    }

    static lemma FailNext(sagas: map<string, Saga>, orders: map<string, OrderStatus>, done: set<string>, id: string)
      requires id in sagas
      ensures FailSagas(sagas, done + {id}) ==
                FailSagas(sagas, done)[id := FailSagas(sagas, done)[id].(status := SagaFailed)]
      ensures FailOrders(orders, done + {id}) ==
                if id in orders then FailOrders(orders, done)[id := Failed] else FailOrders(orders, done)
    {
    }

    static lemma ReleaseNext(l: Ledger, from: map<string, Saga>, done: set<string>, id: string, fates: string -> Fate)
      requires id in from
      ensures var before := Settled(l, Reached(from, done, fates), Released);
              var r := from[id].reservation;
              Settled(l, Reached(from, done + {id}, fates), Released) ==
                if r.Some? && r.value != "" then Send(before, SettleOp(r.value, Released), fates(id)).ledger else before
    {
      ReachedNext(from, done, id, fates);
      if from[id].reservation.Some? {
        ReleaseIsSettled(l, Reached(from, done, fates), from[id].reservation.value, fates(id));
      }
      assert Reached(from, done, fates) + {} == Reached(from, done, fates);
    }

    static lemma ReachedNext(from: map<string, Saga>, ids: set<string>, id: string, fates: string -> Fate)
      requires id in from
      ensures Reached(from, ids + {id}, fates) == Reached(from, ids, fates) +
                (if ReleaseArrives(from[id], fates(id)) then {from[id].reservation.value} else {})
    {
    }

    static lemma ReleaseIsSettled(l: Ledger, done: set<string>, r: string, fate: Fate)
      ensures Send(Settled(l, done, Released), SettleOp(r, Released), fate).ledger
              == if fate == RequestLost then Settled(l, done, Released) else Settled(l, done + {r}, Released)
    {
      SettledIsAfter(Settled(l, done, Released), r, Released);
      SettledUnion(l, done, {r}, Released);
    }
  }
}
