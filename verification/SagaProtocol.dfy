/**
services/order/saga.go as a step machine: one step is one write to the order database or one call.

Any number of Execute calls interleave; a crash may fall between any two steps, also inside a
Resume; every call to the inventory or payment service may lose its request (an error without an
effect) or its reply (an error after the effect). A lost attempt of a reserve may be retried, and
every attempt may take effect; a retried release or decrement is one attempt, as RetriedCalls
proves. Writes to the order database succeed, except that the two whose errors Execute looks at may
fail without an effect.

A saga row is found by its order's id: OrderCreation proves that an order has at most one.
*/
module SagaProtocol {
  import opened Common
  import opened StockLedger
  import opened LedgerTheorems

  datatype OrderStatus = Pending | Reserving | Paying | Confirming | Completed | Failed

  datatype SagaStep = ReserveInventory | ProcessPayment | ConfirmOrder

  datatype SagaStatus = InProgress | SagaCompleted | SagaFailed

  datatype Saga = Saga(step: SagaStep, status: SagaStatus, reservation: Option<string>)

  /** The next statement of Execute. */
  datatype Pc =
    | CheckSaga | CreateSaga
    | StepReserve | MarkReserving | CallReserve | StoreReservation
    | StepPayment | MarkPaying | CallPayment
    | StepConfirm | MarkConfirming | CallDecrement
    | MarkCompleted | CompleteSaga
    | CallRelease | FailSaga | FailOrder

  /** The next statement of Resume for the saga at the head of its list. */
  datatype ResumePc = Release | CloseSaga | CloseOrder

  datatype Mode = Serving | Down | Resuming(todo: seq<string>, at: ResumePc)

  datatype Fate = Delivered | RequestLost | ReplyLost

  /** What went wrong for an order so far (a history variable; the code stores none of it).
      `commits` counts the attempts of its reserve that took effect, `tries` the lost ones of the call
      under way that were retried. A lost release counts only if it would have released something,
      until a later one arrives. `torn`: a crash fell between the two writes of fail. */
  datatype History = History(
    crashedAt: Option<Pc>, reserveReplyLost: bool, decrementReplyLost: bool, releaseLost: bool, torn: bool,
    commits: nat, tries: nat)

  const CLEAN := History(None, false, false, false, false, 0, 0)

  predicate Clean(h: History) {
    h.(commits := 0, tries := 0) == CLEAN
  }

  /** The retries of the order service's client for the inventory service. */
  const MAX_RETRIES: nat := 3

  /** One order: its row, its saga row if it has one, and where its Execute call stands, if it runs. */
  datatype Order = Order(items: seq<Item>, status: OrderStatus, saga: Option<Saga>, pc: Option<Pc>, history: History)

  datatype World = World(ledger: Ledger, orders: map<string, Order>, mode: Mode)

  const INIT := World(EMPTY, map[], Serving)

  datatype Action =
    | Stock(id: string, stock: int)
    | Place(order: string, items: seq<Item>)
    | Step(order: string, fate: Fate)
    | TryAgain(order: string, fate: Fate)   // an attempt of a reserve that is lost, and retried
    | Crash
    | Restart(todo: seq<string>)
    | Recover(fate: Fate)

  /******* Calls *******/

  /** How a call went: the ledger after it, whether the caller got a success back, whether it took
      effect, and whether a lost request would have taken effect. */
  datatype Call = Call(ledger: Ledger, answered: bool, effect: bool, missed: bool)

  function Send(l: Ledger, op: Op, fate: Fate): Call {
    match Apply(l, op)
    case Err(_) => Call(l, false, false, false)
    case Ok(l') => if fate == RequestLost then Call(l, false, false, true) else Call(l', fate == Delivered, true, false)
  }

  /** The request of a reserve reaches the server and finds room in its stock. */
  ghost predicate Lands(l: Ledger, items: seq<Item>, fate: Fate) {
    fate != RequestLost && Fits(l, items)
  }

  lemma LandsIsEffect(l: Ledger, o: string, items: seq<Item>, fate: Fate)
    requires Valid(l)
    ensures Send(l, ReserveOp(o, items), fate).effect <==> Lands(l, items, fate)
  {
    ReserveExact(l, o, items);
  }

  /** A statement without an inventory call succeeds or fails without touching the ledger. */
  function Issue(l: Ledger, request: Option<Op>, fate: Fate): Call {
    match request
    case None => Call(l, fate == Delivered, false, false)
    case Some(op) => Send(l, op, fate)
  }

  /******* Execute *******/

  /** The inventory call of the next statement. */
  function Request(id: string, x: Order): Option<Op> {
    match x.pc
    case Some(CallReserve) => Some(ReserveOp(id, x.items))
    case Some(CallDecrement) => Some(SettleOp(id, Decremented))
    case Some(CallRelease) => Some(SettleOp(id, Released))
    case _ => None
  }

  function Goto(x: Order, pc: Pc): Order {
    x.(pc := Some(pc), history := x.history.(tries := 0))
  }

  function Return(x: Order): Order {
    x.(pc := None)
  }

  /** An UPDATE saga_state; it matches no row if there is none. */
  function SetStep(x: Order, step: SagaStep): Order {
    if x.saga.Some? then x.(saga := Some(x.saga.value.(step := step))) else x
  }

  function SetSagaStatus(x: Order, status: SagaStatus): Order {
    if x.saga.Some? then x.(saga := Some(x.saga.value.(status := status))) else x
  }

  function SetReservation(x: Order, id: string): Order {
    if x.saga.Some? then x.(saga := Some(x.saga.value.(reservation := Some(id)))) else x
  }

  /** After an attempt of the reserve. */
  function Counted(x: Order, call: Call): Order {
    x.(history := x.history.(commits := x.history.commits + if call.effect then 1 else 0))
  }

  /** A lost attempt of the reserve that the client retries: Execute stays where it is. */
  function Retried(x: Order, call: Call): Order {
    var y := Counted(x, call);
    y.(history := y.history.(tries := x.history.tries + 1))
  }

  predicate MayRetry(x: Order, fate: Fate) {
    x.pc == Some(CallReserve) && fate != Delivered && x.history.tries < MAX_RETRIES
  }

  /** Execute gives up its reserve; an attempt may have taken effect. */
  function GiveUp(x: Order): Order {
    x.(history := x.history.(reserveReplyLost := x.history.commits > 0))
  }

  function Advance(id: string, x: Order, call: Call): Order
    requires x.pc.Some?
  {
    match x.pc.value
    case CheckSaga => if !call.answered || x.saga.Some? then Return(x) else Goto(x, CreateSaga)
    case CreateSaga =>
      if !call.answered then Return(x)
      else Goto(x.(saga := Some(Saga(ReserveInventory, InProgress, None))), StepReserve)
    case StepReserve => Goto(SetStep(x, ReserveInventory), MarkReserving)
    case MarkReserving => Goto(x.(status := Reserving), CallReserve)
    case CallReserve =>
      if call.answered then Goto(Counted(x, call), StoreReservation) else Goto(GiveUp(Counted(x, call)), FailSaga)
    case StoreReservation => Goto(SetReservation(x, id), StepPayment)
    case StepPayment => Goto(SetStep(x, ProcessPayment), MarkPaying)
    case MarkPaying => Goto(x.(status := Paying), CallPayment)
    case CallPayment => Goto(x, if call.answered then StepConfirm else CallRelease)
    case StepConfirm => Goto(SetStep(x, ConfirmOrder), MarkConfirming)
    case MarkConfirming => Goto(x.(status := Confirming), CallDecrement)
    case CallDecrement =>
      if call.answered then Goto(x, MarkCompleted)
      else Goto(x.(history := x.history.(decrementReplyLost := call.effect)), CallRelease)
    case MarkCompleted => Goto(x.(status := Completed), CompleteSaga)
    case CompleteSaga => Return(SetSagaStatus(x, SagaCompleted))
    case CallRelease => Goto(x.(history := x.history.(releaseLost := call.missed)), FailSaga)
    case FailSaga => Goto(SetSagaStatus(x, SagaFailed), FailOrder)
    case FailOrder => Return(x.(status := Failed))
  }

  /** Statements still to come, at most. */
  function Rank(pc: Option<Pc>): nat {
    match pc
    case None => 0
    case Some(CheckSaga) => 16
    case Some(CreateSaga) => 15
    case Some(StepReserve) => 14
    case Some(MarkReserving) => 13
    case Some(CallReserve) => 12
    case Some(StoreReservation) => 11
    case Some(StepPayment) => 10
    case Some(MarkPaying) => 9
    case Some(CallPayment) => 8
    case Some(StepConfirm) => 7
    case Some(MarkConfirming) => 6
    case Some(CallDecrement) => 5
    case Some(CallRelease) => 3
    case Some(FailSaga) | Some(MarkCompleted) => 2
    case Some(FailOrder) | Some(CompleteSaga) => 1
  }

  /******* Crash and Resume *******/

  predicate AtHead(mode: Mode, id: string, at: ResumePc) {
    mode.Resuming? && mode.at == at && mode.todo != [] && mode.todo[0] == id
  }

  function CrashOrder(id: string, x: Order, mode: Mode): Order {
    if x.pc.Some? then
      x.(pc := None, history := x.history.(crashedAt := x.pc, torn := x.pc == Some(FailOrder)))
    else if AtHead(mode, id, CloseOrder) then x.(history := x.history.(torn := true))
    else x
  }

  function NextMode(todo: seq<string>): Mode {
    if todo == [] then Serving else Resuming(todo, Release)
  }

  predicate SagaInProgress(x: Order) {
    x.saga.Some? && x.saga.value.status == InProgress
  }

  /** SELECT * FROM saga_state WHERE status = 'IN_PROGRESS', in whatever order it returns. */
  ghost predicate Selected(w: World, todo: seq<string>) {
    && Distinct(todo)
    && (forall id :: id in todo <==> id in w.orders && SagaInProgress(w.orders[id]))
  }

  function ResumeRequest(x: Order, at: ResumePc): Option<Op> {
    if at == Release && x.saga.Some? && x.saga.value.reservation.Some?
    then Some(SettleOp(x.saga.value.reservation.value, Released))
    else None
  }

  function ResumeStep(x: Order, at: ResumePc, call: Call): Order {
    match at
    case Release =>
      if ResumeRequest(x, at).Some? then x.(history := x.history.(releaseLost := call.missed)) else x
    case CloseSaga => SetSagaStatus(x, SagaFailed)
    case CloseOrder => x.(status := Failed)
  }

  function ResumeMode(mode: Mode): Mode
    requires mode.Resuming? && mode.todo != []
  {
    match mode.at
    case Release => Resuming(mode.todo, CloseSaga)
    case CloseSaga => Resuming(mode.todo, CloseOrder)
    case CloseOrder => NextMode(mode.todo[1..])
  }

  predicate AtSaga(w: World) {
    w.mode.Resuming? && w.mode.todo != [] && w.mode.todo[0] in w.orders
  }

  /** The next statement of Resume, for the saga at the head of its list. */
  function RecoverHead(w: World, fate: Fate): World
    requires AtSaga(w)
  {
    var id := w.mode.todo[0];
    var x := w.orders[id];
    var call := Issue(w.ledger, ResumeRequest(x, w.mode.at), fate);
    World(call.ledger, w.orders[id := ResumeStep(x, w.mode.at, call)], ResumeMode(w.mode))
  }

  ghost function Next(w: World, a: Action): Option<World> {
    match a
    case Stock(id, stock) => Some(w.(ledger := After(w.ledger, CreateProduct(id, stock))))
    case Place(id, items) =>
      if w.mode != Serving || id in w.orders || items == [] then None
      else Some(w.(orders := w.orders[id := Order(items, Pending, None, Some(CheckSaga), CLEAN)]))
    case Step(id, fate) =>
      if id !in w.orders || w.orders[id].pc.None? then None
      else
        var x := w.orders[id];
        var call := Issue(w.ledger, Request(id, x), fate);
        Some(w.(ledger := call.ledger, orders := w.orders[id := Advance(id, x, call)]))
    case TryAgain(id, fate) =>
      if id !in w.orders || !MayRetry(w.orders[id], fate) then None
      else
        var x := w.orders[id];
        var call := Issue(w.ledger, Request(id, x), fate);
        Some(w.(ledger := call.ledger, orders := w.orders[id := Retried(x, call)]))
    case Crash =>
      Some(w.(mode := Down, orders := map id | id in w.orders :: CrashOrder(id, w.orders[id], w.mode)))
    case Restart(todo) => if w.mode == Down && Selected(w, todo) then Some(w.(mode := NextMode(todo))) else None
    case Recover(fate) => if AtSaga(w) then Some(RecoverHead(w, fate)) else None
  }

  ghost function Exec(actions: seq<Action>): Option<World> {
    if actions == [] then Some(INIT)
    else match Exec(actions[..|actions| - 1])
      case None => None
      case Some(w) => Next(w, actions[|actions| - 1])
  }

  /******* What an order looks like, wherever its saga stands *******/

  function Repeat(items: seq<Item>, n: nat): seq<Item> {
    if n == 0 then [] else Repeat(items, n - 1) + items
  }

  /** What the committed attempts of its reserve have reserved for an order. */
  function Held(x: Order): seq<Item> {
    Repeat(x.items, x.history.commits)
  }

  datatype Rows = NoRows | All(status: Status)

  function RowsAt(o: string, items: seq<Item>, rows: Rows): seq<Row> {
    match rows case NoRows => [] case All(st) => OrderRows(o, items, st)
  }

  function StatusAt(pc: Pc): OrderStatus {
    match pc
    case CheckSaga | CreateSaga | StepReserve | MarkReserving => Pending
    case CallReserve | StoreReservation | StepPayment | MarkPaying => Reserving
    case CallPayment | StepConfirm | MarkConfirming => Paying
    case CompleteSaga => Completed
    case _ => Confirming
  }

  function StepAt(pc: Pc): SagaStep {
    match pc
    case StepReserve | MarkReserving | CallReserve | StoreReservation | StepPayment => ReserveInventory
    case MarkPaying | CallPayment | StepConfirm => ProcessPayment
    case _ => ConfirmOrder
  }

  function ReservationAt(pc: Pc, o: string): Option<string> {
    match pc
    case StepReserve | MarkReserving | CallReserve | StoreReservation => None
    case _ => Some(o)
  }

  function RowsWhen(pc: Pc): Rows {
    match pc
    case StepReserve | MarkReserving => NoRows
    case MarkCompleted | CompleteSaga => All(Decremented)
    case _ => All(Reserved)
  }

  /** The reserve took effect and the saga row does not know its reservation. */
  predicate Leaked(h: History) {
    h.reserveReplyLost || h.crashedAt == Some(StoreReservation) || (h.crashedAt == Some(CallReserve) && h.commits > 0)
  }

  /** Where Execute is when no attempt of its reserve can have taken effect yet. */
  predicate BeforeReserve(pc: Pc) {
    pc == StepReserve || pc == MarkReserving
  }

  /** The decrement took effect and the saga did not complete. */
  predicate Sold(h: History) {
    h.decrementReplyLost || h.crashedAt == Some(MarkCompleted) || h.crashedAt == Some(CompleteSaga)
  }

  /** What a failed order leaves in the reservation table. */
  function Left(h: History, reservation: Option<string>): Rows {
    if reservation == None then (if Leaked(h) then All(Reserved) else NoRows)
    else if Sold(h) then All(Decremented)
    else if h.releaseLost then All(Reserved)
    else All(Released)
  }

  datatype Spot = Up | Offline | Queued | Recovering(at: ResumePc) | Passed

  function SpotOf(mode: Mode, o: string): Spot {
    match mode
    case Serving => Up
    case Down => Offline
    case Resuming(todo, at) =>
      if todo != [] && todo[0] == o then Recovering(at) else if o in todo then Queued else Passed
  }

  predicate SagaConsistent(id: string, saga: Saga, h: History) {
    && (saga.reservation == None || saga.reservation == Some(id))
    && (saga.step != ReserveInventory ==> saga.reservation == Some(id))
    && (Leaked(h) ==> saga.reservation == None)
    && (Sold(h) ==> saga.step == ConfirmOrder && !h.releaseLost)
    && (h.releaseLost ==> saga.reservation == Some(id))
    && (saga.reservation.Some? || Leaked(h) <==> h.commits > 0)
  }

  predicate Releasing(id: string, x: Order, rows: seq<Row>) {
    && x.saga.Some?
    && x.saga.value.status == InProgress && x.saga.value.reservation == Some(id)
    && ((x.saga.value.step == ProcessPayment && x.status == Paying)
        || (x.saga.value.step == ConfirmOrder && x.status == Confirming))
    && Clean(x.history.(decrementReplyLost := false)) && x.history.commits > 0
    && (x.history.decrementReplyLost ==> x.saga.value.step == ConfirmOrder)
    && rows == OrderRows(id, Held(x), if x.history.decrementReplyLost then Decremented else Reserved)
  }

  predicate Failing(id: string, x: Order, rows: seq<Row>, status: SagaStatus) {
    && x.saga.Some?
    && x.saga.value.status == status
    && ((x.saga.value.step == ReserveInventory && x.status == Reserving)
        || (x.saga.value.step == ProcessPayment && x.status == Paying)
        || (x.saga.value.step == ConfirmOrder && x.status == Confirming))
    && x.history.crashedAt == None && !x.history.torn
    && SagaConsistent(id, x.saga.value, x.history)
    && rows == RowsAt(id, Held(x), Left(x.history, x.saga.value.reservation))
  }

  predicate Proceeding(id: string, x: Order, pc: Pc, rows: seq<Row>) {
    && x.saga == Some(Saga(StepAt(pc), InProgress, ReservationAt(pc, id)))
    && x.status == StatusAt(pc)
    && Clean(x.history)
    && (if BeforeReserve(pc) then x.history.commits == 0 else pc == CallReserve || x.history.commits > 0)
    && rows == RowsAt(id, Held(x), RowsWhen(pc))
  }

  predicate Starting(x: Order, rows: seq<Row>) {
    x.saga == None && x.status == Pending && rows == [] && Clean(x.history) && x.history.commits == 0
  }

  predicate InExecute(id: string, x: Order, pc: Pc, rows: seq<Row>) {
    match pc
    case CheckSaga | CreateSaga => Starting(x, rows)
    case CallRelease => Releasing(id, x, rows)
    case FailSaga => Failing(id, x, rows, InProgress)
    case FailOrder => Failing(id, x, rows, SagaFailed)
    case _ => Proceeding(id, x, pc, rows)
  }

  /** Crashed with its saga in progress. An interrupted Resume may already have released it. */
  predicate Interrupted(id: string, x: Order, rows: seq<Row>)
    requires x.saga.Some?
  {
    var saga, h := x.saga.value, x.history;
    && h.crashedAt.Some? && !h.torn
    && x.status != Failed
    && SagaConsistent(id, saga, h)
    && (rows == RowsAt(id, Held(x), Left(h, saga.reservation))
        || (saga.reservation.Some? && !Sold(h)
            && (rows == OrderRows(id, Held(x), Reserved) || rows == OrderRows(id, Held(x), Released))))
  }

  predicate AtRest(spot: Spot) {
    spot == Up || spot == Offline || spot == Passed
  }

  predicate Unstarted(x: Order, rows: seq<Row>) {
    x.saga == None && x.status == Pending && rows == []
    && Clean(x.history.(crashedAt := None)) && x.history.commits == 0
  }

  predicate ClosedSaga(id: string, x: Order, rows: seq<Row>, spot: Spot)
    requires x.saga.Some?
  {
    var saga, h := x.saga.value, x.history;
    && SagaConsistent(id, saga, h)
    && rows == RowsAt(id, Held(x), Left(h, saga.reservation))
    && (h.torn || spot == Recovering(CloseOrder) ==> h.crashedAt.Some?)
    && (spot == Recovering(CloseOrder) ==> !h.torn)
    && (x.status == Failed <==> !h.torn && AtRest(spot))
  }

  predicate DoneSaga(id: string, x: Order, rows: seq<Row>) {
    && x.saga == Some(Saga(ConfirmOrder, SagaCompleted, Some(id)))
    && x.status == Completed && Clean(x.history) && x.history.commits > 0
    && rows == OrderRows(id, Held(x), Decremented)
  }

  predicate NotRunning(id: string, x: Order, rows: seq<Row>, spot: Spot) {
    match x.saga
    case None => AtRest(spot) && Unstarted(x, rows)
    case Some(saga) =>
      match saga.status
      case InProgress =>
        && (spot == Offline || spot == Queued || spot == Recovering(Release) || spot == Recovering(CloseSaga))
        && Interrupted(id, x, rows)
        && (spot == Recovering(CloseSaga) ==> rows == RowsAt(id, Held(x), Left(x.history, saga.reservation)))
      case SagaFailed => (AtRest(spot) || spot == Recovering(CloseOrder)) && ClosedSaga(id, x, rows, spot)
      case SagaCompleted => AtRest(spot) && DoneSaga(id, x, rows)
  }

  predicate OrderOk(id: string, x: Order, rows: seq<Row>, spot: Spot) {
    && x.items != []
    && match x.pc
       case Some(pc) => spot == Up && InExecute(id, x, pc, rows)
       case None => NotRunning(id, x, rows, spot)
  }

  ghost predicate ModeOk(w: World) {
    w.mode.Resuming? ==>
      w.mode.todo != [] && Distinct(w.mode.todo) && forall id :: id in w.mode.todo ==> id in w.orders
  }

  ghost predicate RowsKnown(l: Ledger, orders: map<string, Order>) {
    forall i :: 0 <= i < |l.rows| ==> l.rows[i].order in orders
  }

  ghost predicate OrdersOk(w: World) {
    forall id :: id in w.orders ==> OrderOk(id, w.orders[id], RowsOf(w.ledger.rows, id), SpotOf(w.mode, id))
  }

  ghost predicate Inv(w: World) {
    Valid(w.ledger) && RowsKnown(w.ledger, w.orders) && ModeOk(w) && OrdersOk(w)
  }
}
