/**
Idempotent order creation: services/order/order_server.go CreateOrder over
services/order/order_repository.go CreateOrder, one step per statement, for any number of
concurrent requests (of any number of service instances), while products are added and updated, with
cache expiry, failing statements and requests that die at any point.

An order row is its id and its idempotency key; the empty key stands for NULL, which UNIQUE ignores.
A row inserted by an open transaction is seen by nobody else, but blocks an insert of the same key.
*/
module OrderCreation {
  import opened Common
  import opened ProductLookup
  import opened StockLedger

  datatype Pc =
    | CacheGet                // redis fast path
    | LookUp(n: nat)          // GetProduct for the n-th item
    | TxSelect                // BEGIN, SELECT by key
    | TxInsert                // INSERT INTO orders
    | TxCommit(id: nat)       // items inserted; COMMIT
    | SagaCheck(id: nat)      // Execute: getExistingSaga
    | SagaInsert(id: nat)     // Execute: createSagaState
    | SagaRun(id: nat)        // Execute: the rest
    | Refetch(id: nat)
    | CachePut(id: nat)
    | Answered(id: nat)
    | Errored(code: Code)

  datatype Request = Request(key: string, items: seq<Item>, pc: Pc)

  datatype World = World(listed: map<string, Listing>, orders: map<nat, string>, sagas: seq<nat>,
      cache: map<string, nat>, requests: map<nat, Request>)

  const INIT := World(map[], map[], [], map[], map[])

  /** A step either works (ok) or meets a failure of its statement; `newId` is the id an INSERT
      generates. SetProduct is the inventory service's CreateProduct or UpdateProduct. */
  datatype Action =
    | Arrive(r: nat, customer: string, key: string, items: seq<Item>)
    | Step(r: nat, ok: bool, newId: nat)
    | Die(r: nat)
    | Expire(key: string)
    | SetProduct(product: string, listing: Listing)

  ghost predicate Committed(w: World, key: string) {
    exists id :: id in w.orders && w.orders[id] == key
  }

  /** Some other open transaction has inserted the key. */
  ghost predicate KeyLocked(w: World, r: nat, key: string) {
    exists u :: u in w.requests && u != r && w.requests[u].pc.TxCommit? && w.requests[u].key == key
  }

  ghost predicate Fresh(w: World, id: nat) {
    id !in w.orders && forall u :: u in w.requests && w.requests[u].pc.TxCommit? ==> w.requests[u].pc.id != id
  }

  ghost function OrderWithKey(w: World, key: string): nat
    requires Committed(w, key)
  {
    var id :| id in w.orders && w.orders[id] == key;
    id
  }

  function Goto(w: World, r: nat, pc: Pc): World
    requires r in w.requests
  {
    w.(requests := w.requests[r := w.requests[r].(pc := pc)])
  }

  predicate Finished(pc: Pc) {
    pc.Answered? || pc.Errored?
  }

  /** The request's validation, before its first statement. */
  predicate Malformed(customer: string, items: seq<Item>) {
    customer == "" || items == []
  }

  function Entry(customer: string, items: seq<Item>): Pc {
    if Malformed(customer, items) then Errored(InvalidArgument) else CacheGet
  }

  /** After the lookups of n items. */
  function AfterLookUps(items: seq<Item>, n: nat): Pc {
    if n < |items| then LookUp(n) else TxSelect
  }

  /** Where a request's next statement takes it; None if it cannot run, or there is none. */
  ghost function GoesTo(w: World, r: nat, ok: bool, newId: nat): Option<Pc>
    requires r in w.requests
  {
    var key, items := w.requests[r].key, w.requests[r].items;
    match w.requests[r].pc
    case CacheGet =>
      if key != "" && ok && key in w.cache then Some(Answered(w.cache[key])) else Some(AfterLookUps(items, 0))
    case LookUp(n) =>
      if n >= |items| then None
      else
        var refusal := Check(items[n], GetProduct(w.listed, ok));
        Some(if refusal.Some? then Errored(refusal.value) else AfterLookUps(items, n + 1))
    case TxSelect =>
      if !ok then Some(Errored(Internal))
      else if key != "" && Committed(w, key) then Some(Answered(OrderWithKey(w, key)))
      else Some(TxInsert)
    case TxInsert =>
      if !ok || (key != "" && Committed(w, key)) then Some(Errored(Internal))
      else if (key != "" && KeyLocked(w, r, key)) || !Fresh(w, newId) then None
      else Some(TxCommit(newId))
    case TxCommit(id) => if ok then Some(SagaCheck(id)) else Some(Errored(Internal))
    case SagaCheck(id) => if !ok || id in w.sagas then Some(Refetch(id)) else Some(SagaInsert(id))
    case SagaInsert(id) => if ok then Some(SagaRun(id)) else Some(Refetch(id))
    case SagaRun(id) => Some(Refetch(id))
    case Refetch(id) => if ok then Some(CachePut(id)) else Some(Errored(Internal))
    case CachePut(id) => Some(Answered(id))
    case Answered(_) => None
    case Errored(_) => None
  }

  /** What the statement writes. */
  function Written(w: World, r: nat, ok: bool): (w': World)
    requires r in w.requests
    ensures w'.requests == w.requests
  {
    if !ok then w
    else match w.requests[r].pc
      case TxCommit(id) => w.(orders := w.orders[id := w.requests[r].key])
      case SagaInsert(id) => w.(sagas := w.sagas + [id])
      case CachePut(id) => if w.requests[r].key != "" then w.(cache := w.cache[w.requests[r].key := id]) else w
      case _ => w
  }

  ghost function StepOf(w: World, r: nat, ok: bool, newId: nat): Option<World>
    requires r in w.requests
  {
    match GoesTo(w, r, ok, newId)
    case None => None
    case Some(pc) => Some(Goto(Written(w, r, ok), r, pc))
  }

  /** The world in which a request has just arrived. */
  function Arrived(w: World, r: nat, customer: string, key: string, items: seq<Item>): World {
    w.(requests := w.requests[r := Request(key, items, Entry(customer, items))])
  }

  ghost function Next(w: World, a: Action): Option<World> {
    match a
    case Arrive(r, customer, key, items) =>
      if r in w.requests then None else Some(Arrived(w, r, customer, key, items))
    case Step(r, ok, newId) => if r in w.requests then StepOf(w, r, ok, newId) else None
    case Die(r) =>
      if r in w.requests && !Finished(w.requests[r].pc) then Some(Goto(w, r, Errored(Internal))) else None
    case Expire(key) => Some(w.(cache := map k | k in w.cache && k != key :: w.cache[k]))
    case SetProduct(product, listing) => Some(w.(listed := w.listed[product := listing]))
  }

  ghost function Exec(w: World, actions: seq<Action>): Option<World> {
    if actions == [] then Some(w)
    else match Exec(w, actions[..|actions| - 1])
      case None => None
      case Some(mid) => Next(mid, actions[|actions| - 1])
  }

  /******* The invariant *******/

  /** The order a request has inserted, from its INSERT to its answer. */
  function Owned(pc: Pc): Option<nat> {
    match pc
    case TxCommit(id) => Some(id)
    case SagaCheck(id) => Some(id)
    case SagaInsert(id) => Some(id)
    case SagaRun(id) => Some(id)
    case Refetch(id) => Some(id)
    case CachePut(id) => Some(id)
    case _ => None
  }

  ghost predicate KeysUnique(orders: map<nat, string>) {
    forall a, b :: a in orders && b in orders && a != b && orders[a] == orders[b] ==> orders[a] == ""
  }

  ghost predicate RequestOk(w: World, q: Request) {
    match q.pc
    case CacheGet => q.items != []
    case LookUp(n) => n < |q.items|
    case TxCommit(id) => id !in w.orders && (q.key != "" ==> !Committed(w, q.key))
    case SagaCheck(id) => id in w.orders && w.orders[id] == q.key && id !in w.sagas
    case SagaInsert(id) => id in w.orders && w.orders[id] == q.key && id !in w.sagas
    case SagaRun(id) => id in w.orders && w.orders[id] == q.key && id in w.sagas
    case Refetch(id) => id in w.orders && w.orders[id] == q.key
    case CachePut(id) => id in w.orders && w.orders[id] == q.key
    case Answered(id) => id in w.orders && w.orders[id] == q.key
    case _ => true
  }

  /** Two requests own different orders, and no two open transactions hold the same key. */
  ghost predicate Apart(p: Request, q: Request) {
    && (Owned(p.pc).Some? ==> Owned(p.pc) != Owned(q.pc))
    && (p.pc.TxCommit? && q.pc.TxCommit? && p.key == q.key ==> p.key == "")
  }

  ghost predicate AllApart(requests: map<nat, Request>) {
    forall r, u :: r in requests && u in requests && r != u ==> Apart(requests[r], requests[u])
  }

  ghost predicate Inv(w: World) {
    && KeysUnique(w.orders)
    && Distinct(w.sagas)
    && (forall id :: id in w.sagas ==> id in w.orders)
    && (forall k :: k in w.cache ==> w.cache[k] in w.orders && w.orders[w.cache[k]] == k)
    && (forall r :: r in w.requests ==> RequestOk(w, w.requests[r]))
    && AllApart(w.requests)
  }

  /** A request that moves without touching a table, owning no order it did not own. */
  lemma MoveInv(w: World, r: nat, pc: Pc)
    requires Inv(w) && r in w.requests
    requires Owned(pc).None? || (Owned(pc) == Owned(w.requests[r].pc) && !pc.TxCommit?)
    requires RequestOk(w, w.requests[r].(pc := pc))
    ensures Inv(Goto(w, r, pc))
  {
  }

  lemma InsertInv(w: World, r: nat, id: nat)
    requires Inv(w) && r in w.requests && w.requests[r].pc.TxInsert? && Fresh(w, id)
    requires w.requests[r].key != "" ==> !Committed(w, w.requests[r].key) && !KeyLocked(w, r, w.requests[r].key)
    ensures Inv(Goto(w, r, TxCommit(id)))
  {
  }

  lemma CommitInv(w: World, r: nat, id: nat)
    requires Inv(w) && r in w.requests && w.requests[r].pc == TxCommit(id)
    ensures Inv(Goto(w.(orders := w.orders[id := w.requests[r].key]), r, SagaCheck(id)))
  {
    var key := w.requests[r].key;
    var w1 := w.(orders := w.orders[id := key]);
    var w' := Goto(w1, r, SagaCheck(id));
    assert RequestOk(w, w.requests[r]);
    forall u | u in w'.requests ensures RequestOk(w', w'.requests[u]) {
      if u != r {
        assert RequestOk(w, w.requests[u]) && Apart(w.requests[r], w.requests[u])
            && Apart(w.requests[u], w.requests[r]);
      }
    }
    forall u | u in w'.requests && u != r
      ensures Apart(w'.requests[r], w'.requests[u]) && Apart(w'.requests[u], w'.requests[r])
    {
      assert Apart(w.requests[r], w.requests[u]) && Apart(w.requests[u], w.requests[r]);
    }
  }

  lemma SagaInsertInv(w: World, r: nat, id: nat)
    requires Inv(w) && r in w.requests && w.requests[r].pc == SagaInsert(id)
    ensures Inv(Goto(w.(sagas := w.sagas + [id]), r, SagaRun(id)))
  {
  }

  lemma CachePutInv(w: World, r: nat, id: nat)
    requires Inv(w) && r in w.requests && w.requests[r].pc == CachePut(id)
    ensures Inv(Goto(w.(cache := w.cache[w.requests[r].key := id]), r, Answered(id)))
  {
  }

  lemma StepInv(w: World, r: nat, ok: bool, newId: nat)
    requires Inv(w) && r in w.requests && StepOf(w, r, ok, newId).Some?
    ensures Inv(StepOf(w, r, ok, newId).value)
  {
    assert RequestOk(w, w.requests[r]);
    var key, w' := w.requests[r].key, StepOf(w, r, ok, newId).value;
    match w.requests[r].pc
    case TxInsert =>
      if w'.requests[r].pc.TxCommit? { InsertInv(w, r, newId); } else { MoveInv(w, r, Errored(Internal)); }
    case TxCommit(id) => if ok { CommitInv(w, r, id); } else { MoveInv(w, r, Errored(Internal)); }
    case SagaInsert(id) => if ok { SagaInsertInv(w, r, id); } else { MoveInv(w, r, Refetch(id)); }
    case CachePut(id) => if key != "" && ok { CachePutInv(w, r, id); } else { MoveInv(w, r, Answered(id)); }
    case Answered(_) =>
    case Errored(_) =>
    case _ => MoveInv(w, r, w'.requests[r].pc);
  }

  lemma ArriveInv(w: World, r: nat, customer: string, key: string, items: seq<Item>)
    requires Inv(w) && r !in w.requests
    ensures Inv(Arrived(w, r, customer, key, items))
  {
  }

  lemma NextInv(w: World, a: Action)
    requires Inv(w) && Next(w, a).Some?
    ensures Inv(Next(w, a).value)
  {
    match a
    case Arrive(r, customer, key, items) => ArriveInv(w, r, customer, key, items);
    case Step(r, ok, newId) => StepInv(w, r, ok, newId);
    case Die(r) => MoveInv(w, r, Errored(Internal));
    case Expire(_) =>
    case SetProduct(_, _) =>
  }

  lemma {:induction false} Reachable(actions: seq<Action>)
    requires Exec(INIT, actions).Some?
    ensures Inv(Exec(INIT, actions).value)
  {
    if actions == [] {
    } else {
      var init := actions[..|actions| - 1];
      Reachable(init);
      NextInv(Exec(INIT, init).value, actions[|actions| - 1]);
    }
  }

  /******* What it guarantees *******/

  predicate SameKeyAnswered(w: World, r: nat, u: nat) {
    && r in w.requests && u in w.requests
    && w.requests[r].pc.Answered? && w.requests[u].pc.Answered?
    && w.requests[r].key == w.requests[u].key != ""
  }

  /** In every reachable world a non-empty key has at most one order row, an order at most one saga
      row, and whatever two requests with the same key are answered, it is the same order. */
  lemma OneOrderPerKey(actions: seq<Action>)
    requires Exec(INIT, actions).Some?
    ensures var w := Exec(INIT, actions).value;
            && (forall a, b :: a in w.orders && b in w.orders && w.orders[a] == w.orders[b] != "" ==> a == b)
            && (forall i, j :: 0 <= i < j < |w.sagas| ==> w.sagas[i] != w.sagas[j])
            && (forall r, id :: r in w.requests && w.requests[r].pc == SagaRun(id) ==> id in w.sagas)
            && (forall r, u :: SameKeyAnswered(w, r, u) ==> w.requests[r].pc.id == w.requests[u].pc.id)
  {
    Reachable(actions);
    var w := Exec(INIT, actions).value;
    forall r, id | r in w.requests && w.requests[r].pc == SagaRun(id) ensures id in w.sagas {
      assert RequestOk(w, w.requests[r]);
    }
    forall r, u | SameKeyAnswered(w, r, u) ensures w.requests[r].pc.id == w.requests[u].pc.id
    {
      assert RequestOk(w, w.requests[r]) && RequestOk(w, w.requests[u]);
    }
  }

  /******* What happens to a request in a run *******/

  predicate StepBy(a: Action, r: nat) {
    a.Step? && a.r == r
  }

  datatype Event =
    | HitsCache                    // the cache read works and finds the key
    | Accepts(k: nat)              // the lookup of the k-th item accepts it
    | Refuses(code: Code)          // the lookup of an item refuses it, or fails
    | Misses                       // the SELECT works and finds no order with the key
    | Meets                        // the INSERT meets a committed order with the key
    | Fails                        // SELECT, INSERT, COMMIT or the final read fails
    | Dies
    | ChecksSaga                   // the look for an existing saga works
    | StartsSaga                   // the INSERT of the saga works

  /** What the lookup of a request's n-th item says. */
  function Verdict(w: World, q: Request, n: nat, ok: bool): Option<Code>
    requires n < |q.items|
  {
    Check(q.items[n], GetProduct(w.listed, ok))
  }

  ghost predicate Happens(w: World, a: Action, r: nat, e: Event) {
    r in w.requests && var q := w.requests[r];
    match e
    case HitsCache => StepBy(a, r) && a.ok && q.pc == CacheGet && q.key != "" && q.key in w.cache
    case Accepts(k) => StepBy(a, r) && q.pc == LookUp(k) && k < |q.items| && Verdict(w, q, k, a.ok) == None
    case Refuses(code) =>
      StepBy(a, r) && q.pc.LookUp? && q.pc.n < |q.items| && Verdict(w, q, q.pc.n, a.ok) == Some(code)
    case Misses => StepBy(a, r) && a.ok && q.pc == TxSelect && q.key != "" && !Committed(w, q.key)
    case Meets => StepBy(a, r) && q.pc == TxInsert && q.key != "" && Committed(w, q.key)
    case Fails => StepBy(a, r) && !a.ok && (q.pc == TxSelect || q.pc == TxInsert || q.pc.TxCommit? || q.pc.Refetch?)
    case Dies => a == Die(r) && !Finished(q.pc)
    case ChecksSaga => StepBy(a, r) && a.ok && q.pc.SagaCheck?
    case StartsSaga => StepBy(a, r) && a.ok && q.pc.SagaInsert?
  }

  /** It happens at the i-th action of a run from w. */
  ghost predicate HappensAt(w: World, actions: seq<Action>, r: nat, i: nat, e: Event) {
    i < |actions| && Exec(w, actions[..i]).Some? && Happens(Exec(w, actions[..i]).value, actions[i], r, e)
  }

  ghost predicate Ever(w: World, actions: seq<Action>, r: nat, e: Event) {
    exists i :: 0 <= i < |actions| && HappensAt(w, actions, r, i, e)
  }

  lemma PrefixOfPrefix(actions: seq<Action>, n: nat, i: nat)
    requires i <= n <= |actions|
    ensures actions[..n][..i] == actions[..i]
  {
  }

  lemma SameBefore(w: World, actions: seq<Action>, n: nat, r: nat, i: nat, e: Event)
    requires i < n <= |actions|
    ensures HappensAt(w, actions[..n], r, i, e) <==> HappensAt(w, actions, r, i, e)
  {
    PrefixOfPrefix(actions, n, i);
  }

  lemma EverSoFar(w: World, actions: seq<Action>, n: nat, r: nat, e: Event)
    requires n < |actions|
    ensures Ever(w, actions[..n], r, e) ==> Ever(w, actions, r, e)
  {
    if i :| 0 <= i < n && HappensAt(w, actions[..n], r, i, e) { SameBefore(w, actions, n, r, i, e); }
  }

  lemma EverAt(w: World, actions: seq<Action>, n: nat, r: nat, i: nat, e: Event)
    requires i < n <= |actions| && HappensAt(w, actions, r, i, e)
    ensures Ever(w, actions[..n], r, e)
  {
    SameBefore(w, actions, n, r, i, e);
  }

  lemma EverThenOrNow(w: World, actions: seq<Action>, r: nat, e: Event)
    requires actions != [] && Ever(w, actions, r, e)
    ensures Ever(w, actions[..|actions| - 1], r, e) || HappensAt(w, actions, r, |actions| - 1, e)
  {
    var i :| 0 <= i < |actions| && HappensAt(w, actions, r, i, e);
    if i < |actions| - 1 { EverAt(w, actions, |actions| - 1, r, i, e); }
  }

  lemma EverSnoc(w: World, actions: seq<Action>, r: nat, e: Event)
    requires actions != [] && Exec(w, actions[..|actions| - 1]).Some?
    ensures var n := |actions| - 1;
            Ever(w, actions, r, e)
            <==> Ever(w, actions[..n], r, e) || Happens(Exec(w, actions[..n]).value, actions[n], r, e)
  {
    var n := |actions| - 1;
    EverSoFar(w, actions, n, r, e);
    if Ever(w, actions, r, e) { EverThenOrNow(w, actions, r, e); }
    assert HappensAt(w, actions, r, n, e) <==> Happens(Exec(w, actions[..n]).value, actions[n], r, e);
  }

  lemma OthersLeaveAlone(w: World, a: Action, r: nat)
    requires Next(w, a).Some? && r in w.requests && !StepBy(a, r) && a != Die(r)
    ensures r in Next(w, a).value.requests && Next(w, a).value.requests[r] == w.requests[r]
  {
  }

  lemma StepKeepsKey(w: World, r: nat, ok: bool, newId: nat, w': World)
    requires r in w.requests && StepOf(w, r, ok, newId) == Some(w')
    ensures r in w'.requests && w'.requests[r].key == w.requests[r].key && w'.requests[r].items == w.requests[r].items
  {
  }

  lemma RequestStays(w: World, a: Action, r: nat)
    requires Next(w, a).Some? && r in w.requests
    ensures r in Next(w, a).value.requests && Next(w, a).value.requests[r].key == w.requests[r].key
  {
    if StepBy(a, r) {
      StepKeepsKey(w, r, a.ok, a.newId, Next(w, a).value);
    } else if a != Die(r) {
      OthersLeaveAlone(w, a, r);
    }
  }

  lemma {:induction false} RequestsStay(w: World, actions: seq<Action>, r: nat)
    requires Exec(w, actions).Some? && r in w.requests
    ensures r in Exec(w, actions).value.requests && Exec(w, actions).value.requests[r].key == w.requests[r].key
  {
    if actions == [] {
    } else {
      var init := actions[..|actions| - 1];
      RequestsStay(w, init, r);
      RequestStays(Exec(w, init).value, actions[|actions| - 1], r);
    }
  }

  /******* When a request errs *******/

  ghost predicate HasErred(w: World, r: nat, code: Code) {
    r in w.requests && w.requests[r].pc == Errored(code)
  }

  lemma OwnStepErrs(w: World, r: nat, ok: bool, newId: nat, code: Code)
    requires r in w.requests && StepOf(w, r, ok, newId).Some?
    ensures var a := Step(r, ok, newId);
            HasErred(StepOf(w, r, ok, newId).value, r, code)
            <==> || Happens(w, a, r, Refuses(code))
                 || (code == Internal && (Happens(w, a, r, Fails) || Happens(w, a, r, Meets)))
  {
  }

  /** How a request comes to err. */
  lemma StepErrs(w: World, a: Action, r: nat, code: Code)
    requires Next(w, a).Some? && r in w.requests
    ensures HasErred(Next(w, a).value, r, code)
            <==> || HasErred(w, r, code) || Happens(w, a, r, Refuses(code))
                 || (code == Internal
                     && (Happens(w, a, r, Fails) || Happens(w, a, r, Meets) || Happens(w, a, r, Dies)))
  {
    if StepBy(a, r) {
      OwnStepErrs(w, r, a.ok, a.newId, code);
    } else if a != Die(r) {
      OthersLeaveAlone(w, a, r);
    }
  }

  /** An error is there from the start, or comes from a lookup, a failing statement or the INSERT. */
  lemma {:induction false} ErrsAtStep(w: World, actions: seq<Action>, r: nat, code: Code)
    requires Exec(w, actions).Some? && r in w.requests
    ensures HasErred(Exec(w, actions).value, r, code)
            <==> || HasErred(w, r, code) || Ever(w, actions, r, Refuses(code))
                 || (code == Internal
                     && (Ever(w, actions, r, Fails) || Ever(w, actions, r, Meets) || Ever(w, actions, r, Dies)))
  {
    if actions == [] {
    } else {
      var n := |actions| - 1;
      ErrsAtStep(w, actions[..n], r, code);
      RequestsStay(w, actions[..n], r);
      StepErrs(Exec(w, actions[..n]).value, actions[n], r, code);
      EverSnoc(w, actions, r, Refuses(code));
      EverSnoc(w, actions, r, Fails);
      EverSnoc(w, actions, r, Meets);
      EverSnoc(w, actions, r, Dies);
    }
  }

  lemma OwnStepToInsert(w: World, r: nat, ok: bool, newId: nat, w': World)
    requires r in w.requests && StepOf(w, r, ok, newId) == Some(w')
    requires w'.requests[r].pc == TxInsert && w.requests[r].key != ""
    ensures Happens(w, Step(r, ok, newId), r, Misses)
  {
  }

  /** A step that brings a request to its INSERT, or leaves it there. */
  lemma StepToInsert(w: World, a: Action, r: nat, w': World)
    requires Next(w, a) == Some(w') && r in w.requests && r in w'.requests
    requires w'.requests[r].pc == TxInsert && w.requests[r].key != ""
    ensures w.requests[r].pc == TxInsert || Happens(w, a, r, Misses)
  {
    if StepBy(a, r) {
      OwnStepToInsert(w, r, a.ok, a.newId, w');
    } else if a != Die(r) {
      OthersLeaveAlone(w, a, r);
    }
  }

  /** A request reaches its INSERT only by a SELECT that found nothing. */
  lemma {:induction false} InsertAfterMiss(w: World, actions: seq<Action>, r: nat)
    requires Exec(w, actions).Some? && r in w.requests && w.requests[r].pc != TxInsert && w.requests[r].key != ""
    requires r in Exec(w, actions).value.requests && Exec(w, actions).value.requests[r].pc == TxInsert
    ensures Ever(w, actions, r, Misses)
  {
    var n := |actions| - 1;
    var init := actions[..n];
    RequestsStay(w, init, r);
    StepToInsert(Exec(w, init).value, actions[n], r, Exec(w, actions).value);
    EverSnoc(w, actions, r, Misses);
    if Exec(w, init).value.requests[r].pc == TxInsert { InsertAfterMiss(w, init, r); }
  }

  /** Between the request's SELECT and its INSERT another request with its key committed. */
  ghost predicate Overlapped(w: World, actions: seq<Action>, r: nat) {
    exists i, j :: 0 <= i < j < |actions| && HappensAt(w, actions, r, i, Misses) && HappensAt(w, actions, r, j, Meets)
  }

  lemma MeetsIsOverlapped(w: World, actions: seq<Action>, r: nat)
    requires Exec(w, actions).Some? && r in w.requests && w.requests[r].pc != TxInsert
    ensures Ever(w, actions, r, Meets) <==> Overlapped(w, actions, r)
  {
    if j :| 0 <= j < |actions| && HappensAt(w, actions, r, j, Meets) {
      RequestsStay(w, actions[..j], r);
      InsertAfterMiss(w, actions[..j], r);
      var i :| 0 <= i < j && HappensAt(w, actions[..j], r, i, Misses);
      PrefixOfPrefix(actions, j, i);
      assert HappensAt(w, actions, r, i, Misses);
    }
  }

  /** In every run, a request ends in an error if and only if it is malformed, or the lookup of one of its
      items refuses it or fails, or one of the statements that matter fails, or the request dies, or
      its key was uncommitted at its SELECT and committed at its INSERT. Failures of the cache and of
      the saga's statements never are the reason. */
  lemma ErrsExactly(w: World, r: nat, customer: string, key: string, items: seq<Item>, actions: seq<Action>, code: Code)
    requires Exec(Arrived(w, r, customer, key, items), actions).Some?
    ensures var w0 := Arrived(w, r, customer, key, items);
            HasErred(Exec(w0, actions).value, r, code)
            <==> || (code == InvalidArgument && (customer == "" || items == []))
                 || Ever(w0, actions, r, Refuses(code))
                 || (code == Internal
                     && (Ever(w0, actions, r, Fails) || Ever(w0, actions, r, Dies) || Overlapped(w0, actions, r)))
  {
    var w0 := Arrived(w, r, customer, key, items);
    ErrsAtStep(w0, actions, r, code);
    MeetsIsOverlapped(w0, actions, r);
  }

  /******* A request ends *******/

  /** Statements still to come, at most. */
  function Left(q: Request): nat {
    match q.pc
    case CacheGet => |q.items| + 9
    case LookUp(n) => if n < |q.items| then |q.items| - n + 8 else 0
    case TxSelect => 8
    case TxInsert => 7
    case TxCommit(_) => 6
    case SagaCheck(_) => 5
    case SagaInsert(_) => 4
    case SagaRun(_) => 3
    case Refetch(_) => 2
    case CachePut(_) => 1
    case Answered(_) => 0
    case Errored(_) => 0
  }

  /** The INSERT has to wait for another request's transaction, or for an id. */
  ghost predicate Waits(w: World, r: nat, newId: nat)
    requires r in w.requests
  {
    var q := w.requests[r];
    && q.pc == TxInsert
    && (!Fresh(w, newId)
        || (q.key != "" && exists u :: u in w.requests && u != r && w.requests[u].pc.TxCommit?
                                       && w.requests[u].key == q.key))
  }

  lemma StepEnabled(w: World, r: nat, ok: bool, newId: nat)
    requires r in w.requests && !Finished(w.requests[r].pc) && RequestOk(w, w.requests[r])
    ensures !Waits(w, r, newId) ==> GoesTo(w, r, ok, newId).Some?
  {
  }

  lemma StepDescends(w: World, r: nat, ok: bool, newId: nat)
    requires r in w.requests && RequestOk(w, w.requests[r]) && GoesTo(w, r, ok, newId).Some?
    ensures Left(w.requests[r].(pc := GoesTo(w, r, ok, newId).value)) < Left(w.requests[r]) <= |w.requests[r].items| + 9
  {
  }

  /** Whatever fails, a request that has not ended can take its next step, unless its INSERT waits, and
      each of its steps brings it closer to its end. */
  lemma RequestProgresses(w: World, r: nat, ok: bool, newId: nat)
    requires Inv(w) && r in w.requests && !Finished(w.requests[r].pc)
    ensures !Waits(w, r, newId) ==> Next(w, Step(r, ok, newId)).Some?
    ensures Next(w, Step(r, ok, newId)).Some? ==>
              Left(Next(w, Step(r, ok, newId)).value.requests[r]) < Left(w.requests[r]) <= |w.requests[r].items| + 9
  {
    assert RequestOk(w, w.requests[r]);
    StepEnabled(w, r, ok, newId);
    if GoesTo(w, r, ok, newId).Some? { StepDescends(w, r, ok, newId); }
  }

  /** A request that has not ended may die at every point, which changes nothing else. */
  lemma MayDie(w: World, r: nat)
    requires r in w.requests && !Finished(w.requests[r].pc)
    ensures Next(w, Die(r)) == Some(w.(requests := w.requests[r := w.requests[r].(pc := Errored(Internal))]))
  {
  }

  /** A statement that fails writes nothing. */
  lemma FailureWritesNothing(w: World, r: nat, newId: nat)
    requires Next(w, Step(r, false, newId)).Some?
    ensures var w' := Next(w, Step(r, false, newId)).value;
            w'.orders == w.orders && w'.sagas == w.sagas && w'.cache == w.cache && w'.listed == w.listed
  {
  }

  lemma StepToSaga(w: World, a: Action, r: nat)
    requires Next(w, a).Some? && r in w.requests && r in Next(w, a).value.requests
    requires Next(w, a).value.requests[r].pc.SagaInsert?
    ensures w.requests[r].pc.SagaInsert? || Happens(w, a, r, ChecksSaga)
  {
    if !StepBy(a, r) && a != Die(r) { OthersLeaveAlone(w, a, r); }
  }

  /** A request starts a saga only if it has found that there is none. */
  lemma {:induction false} SagaAfterCheck(w: World, actions: seq<Action>, r: nat)
    requires Exec(w, actions).Some? && r in w.requests && !w.requests[r].pc.SagaInsert?
    requires r in Exec(w, actions).value.requests
    requires Exec(w, actions).value.requests[r].pc.SagaInsert? || Ever(w, actions, r, StartsSaga)
    ensures Ever(w, actions, r, ChecksSaga)
  {
    if actions == [] {
    } else {
      var n := |actions| - 1;
      RequestsStay(w, actions[..n], r);
      RequestsStay(w, actions, r);
      EverSnoc(w, actions, r, ChecksSaga);
      EverSnoc(w, actions, r, StartsSaga);
      var mid := Exec(w, actions[..n]).value;
      if Exec(w, actions).value.requests[r].pc.SagaInsert? { StepToSaga(mid, actions[n], r); }
      if mid.requests[r].pc.SagaInsert? || Ever(w, actions[..n], r, StartsSaga) { SagaAfterCheck(w, actions[..n], r); }
    }
  }

  /******* The cache *******/

  lemma OrdersGrow(w: World, a: Action)
    requires Inv(w) && Next(w, a).Some?
    ensures var w' := Next(w, a).value; forall id :: id in w.orders ==> id in w'.orders && w'.orders[id] == w.orders[id]
  {
    if a.Step? { assert RequestOk(w, w.requests[a.r]); }
  }

  lemma KeyIsUnique(w: World, key: string, id: nat)
    requires Inv(w) && key != "" && id in w.orders && w.orders[id] == key
    ensures Committed(w, key) && OrderWithKey(w, key) == id
    ensures key in w.cache ==> w.cache[key] == id
  {
    assert Committed(w, key);
  }

  ghost predicate Cached(w: World, key: string, id: nat) {
    key in w.cache && w.cache[key] == id
  }

  lemma StaysInCache(w: World, a: Action, key: string)
    requires Next(w, a).Some? && key in w.cache && a != Expire(key)
    ensures key in Next(w, a).value.cache
  {
  }

  lemma CacheStep(w: World, a: Action, key: string, id: nat)
    requires Inv(w) && Next(w, a).Some? && key != "" && Cached(w, key, id) && a != Expire(key)
    ensures Cached(Next(w, a).value, key, id)
  {
    StaysInCache(w, a, key);
    OrdersGrow(w, a);
    NextInv(w, a);
    KeyIsUnique(Next(w, a).value, key, id);
  }

  /** What the cache knows it keeps until the entry expires. */
  lemma {:induction false} CacheKeeps(w: World, actions: seq<Action>, key: string, id: nat)
    requires Inv(w) && Exec(w, actions).Some? && key != "" && Cached(w, key, id)
    requires forall i :: 0 <= i < |actions| ==> actions[i] != Expire(key)
    ensures Inv(Exec(w, actions).value) && Cached(Exec(w, actions).value, key, id)
  {
    if actions == [] {
    } else {
      var init, a := actions[..|actions| - 1], actions[|actions| - 1];
      CacheKeeps(w, init, key, id);
      NextInv(Exec(w, init).value, a);
      CacheStep(Exec(w, init).value, a, key, id);
    }
  }

  /** A request with a key writes its answer into the cache, and until the entry expires every request
      with that key whose cache read works is answered from there at its first step, with the same
      order and whatever has become of its items' products. */
  lemma CachedIsAnswered(before: seq<Action>, r: nat, id: nat, any: nat, between: seq<Action>, u: nat, customer: string,
      items: seq<Item>, newId: nat)
    requires Exec(INIT, before).Some? && r in Exec(INIT, before).value.requests
    requires var q := Exec(INIT, before).value.requests[r]; q.pc == CachePut(id) && q.key != ""
    requires Next(Exec(INIT, before).value, Step(r, true, any)).Some? ==>
               Exec(Next(Exec(INIT, before).value, Step(r, true, any)).value, between).Some?
    requires forall i :: 0 <= i < |between| ==> between[i] != Expire(Exec(INIT, before).value.requests[r].key)
    requires !Malformed(customer, items)
    ensures var w, key := Exec(INIT, before).value, Exec(INIT, before).value.requests[r].key;
            var put := Next(w, Step(r, true, any));
            && put.Some? && put.value.requests[r].pc == Answered(id)
            && var end := Exec(put.value, between).value;
               && Cached(end, key, id)
               && (u !in end.requests ==>
                     var arrived := Next(end, Arrive(u, customer, key, items));
                     && arrived.Some?
                     && var answered := Next(arrived.value, Step(u, true, newId));
                        answered.Some? && answered.value.requests[u].pc == Answered(id))
  {
    Reachable(before);
    var w := Exec(INIT, before).value;
    var put := Next(w, Step(r, true, any)).value;
    NextInv(w, Step(r, true, any));
    CacheKeeps(put, between, w.requests[r].key, id);
  }

  /******* A request that arrives with its key committed *******/

  /** Exactly the first k items have been accepted. */
  ghost predicate AcceptedBelow(w: World, actions: seq<Action>, r: nat, k: nat) {
    forall j: nat :: Ever(w, actions, r, Accepts(j)) <==> j < k
  }

  ghost predicate SomeNotAccepted(w: World, actions: seq<Action>, r: nat, n: nat) {
    exists k: nat :: k < n && AcceptedBelow(w, actions, r, k)
  }

  function OwnSteps(actions: seq<Action>, r: nat): nat {
    if actions == [] then 0
    else OwnSteps(actions[..|actions| - 1], r) + if StepBy(actions[|actions| - 1], r) then 1 else 0
  }

  /** A request for the key of order `id`, after a run from w in which its statements work. */
  ghost predicate OnTrack(w: World, actions: seq<Action>, r: nat, key: string, items: seq<Item>, id: nat)
    requires Exec(w, actions).Some?
  {
    var end, hit := Exec(w, actions).value, Ever(w, actions, r, HitsCache);
    && r in end.requests && end.requests[r].key == key && end.requests[r].items == items
    && id in end.orders && end.orders[id] == key
    && match end.requests[r].pc
       case CacheGet => OwnSteps(actions, r) == 0 && items != [] && !hit && AcceptedBelow(w, actions, r, 0)
       case LookUp(k) =>
         OwnSteps(actions, r) == k + 1 && k < |items| && !hit && AcceptedBelow(w, actions, r, k)
       case TxSelect => OwnSteps(actions, r) == |items| + 1 && !hit && AcceptedBelow(w, actions, r, |items|)
       case Answered(a) => a == id && (hit || AcceptedBelow(w, actions, r, |items|))
       case Errored(_) => !hit && SomeNotAccepted(w, actions, r, |items|)
       case _ => false
  }

  lemma NoAccept(w: World, actions: seq<Action>, r: nat, k: nat)
    requires actions != [] && Exec(w, actions[..|actions| - 1]).Some?
    requires var n := |actions| - 1;
             && AcceptedBelow(w, actions[..n], r, k)
             && forall j: nat :: !Happens(Exec(w, actions[..n]).value, actions[n], r, Accepts(j))
    ensures AcceptedBelow(w, actions, r, k)
  {
    forall j: nat ensures Ever(w, actions, r, Accepts(j)) <==> j < k { EverSnoc(w, actions, r, Accepts(j)); }
  }

  lemma OneAccept(w: World, actions: seq<Action>, r: nat, k: nat)
    requires actions != [] && Exec(w, actions[..|actions| - 1]).Some?
    requires var n := |actions| - 1;
             && AcceptedBelow(w, actions[..n], r, k)
             && forall j: nat :: Happens(Exec(w, actions[..n]).value, actions[n], r, Accepts(j)) <==> j == k
    ensures AcceptedBelow(w, actions, r, k + 1)
  {
    forall j: nat ensures Ever(w, actions, r, Accepts(j)) <==> j < k + 1 { EverSnoc(w, actions, r, Accepts(j)); }
  }

  lemma NoneMoreAccepted(w: World, actions: seq<Action>, r: nat, n: nat)
    requires actions != [] && Exec(w, actions[..|actions| - 1]).Some?
    requires SomeNotAccepted(w, actions[..|actions| - 1], r, n)
    requires forall j: nat :: !Happens(Exec(w, actions[..|actions| - 1]).value, actions[|actions| - 1], r, Accepts(j))
    ensures SomeNotAccepted(w, actions, r, n)
  {
    var k: nat :| k < n && AcceptedBelow(w, actions[..|actions| - 1], r, k);
    NoAccept(w, actions, r, k);
  }

  /** The action of another, or a change outside. */
  lemma TrackOthers(w: World, actions: seq<Action>, r: nat, key: string, items: seq<Item>, id: nat)
    requires actions != [] && Exec(w, actions).Some? && Inv(Exec(w, actions[..|actions| - 1]).value)
    requires OnTrack(w, actions[..|actions| - 1], r, key, items, id)
    requires !StepBy(actions[|actions| - 1], r) && actions[|actions| - 1] != Die(r)
    ensures OnTrack(w, actions, r, key, items, id)
  {
    var n := |actions| - 1;
    var mid := Exec(w, actions[..n]).value;
    OrdersGrow(mid, actions[n]);
    OthersLeaveAlone(mid, actions[n], r);
    EverSnoc(w, actions, r, HitsCache);
    match mid.requests[r].pc
    case CacheGet => NoAccept(w, actions, r, 0);
    case LookUp(k) => NoAccept(w, actions, r, k);
    case TxSelect => NoAccept(w, actions, r, |items|);
    case Answered(_) => if !Ever(w, actions, r, HitsCache) { NoAccept(w, actions, r, |items|); }
    case Errored(_) => NoneMoreAccepted(w, actions, r, |items|);
  }

  lemma TrackCacheGet(w: World, actions: seq<Action>, r: nat, key: string, items: seq<Item>, id: nat)
    requires actions != [] && Exec(w, actions).Some? && Inv(Exec(w, actions[..|actions| - 1]).value) && key != ""
    requires OnTrack(w, actions[..|actions| - 1], r, key, items, id) && StepBy(actions[|actions| - 1], r)
    requires Exec(w, actions[..|actions| - 1]).value.requests[r].pc == CacheGet
    ensures OnTrack(w, actions, r, key, items, id)
  {
    var n := |actions| - 1;
    KeyIsUnique(Exec(w, actions[..n]).value, key, id);
    EverSnoc(w, actions, r, HitsCache);
    NoAccept(w, actions, r, 0);
  }

  lemma TrackLookUp(w: World, actions: seq<Action>, r: nat, key: string, items: seq<Item>, id: nat)
    requires actions != [] && Exec(w, actions).Some?
    requires OnTrack(w, actions[..|actions| - 1], r, key, items, id) && StepBy(actions[|actions| - 1], r)
    requires Exec(w, actions[..|actions| - 1]).value.requests[r].pc.LookUp?
    ensures OnTrack(w, actions, r, key, items, id)
  {
    var n := |actions| - 1;
    var mid := Exec(w, actions[..n]).value;
    var k := mid.requests[r].pc.n;
    EverSnoc(w, actions, r, HitsCache);
    if Verdict(mid, mid.requests[r], k, actions[n].ok) == None {
      OneAccept(w, actions, r, k);
    } else {
      NoAccept(w, actions, r, k);
    }
  }

  lemma TrackSelect(w: World, actions: seq<Action>, r: nat, key: string, items: seq<Item>, id: nat)
    requires actions != [] && Exec(w, actions).Some? && Inv(Exec(w, actions[..|actions| - 1]).value) && key != ""
    requires OnTrack(w, actions[..|actions| - 1], r, key, items, id) && StepBy(actions[|actions| - 1], r)
    requires Exec(w, actions[..|actions| - 1]).value.requests[r].pc == TxSelect && actions[|actions| - 1].ok
    ensures OnTrack(w, actions, r, key, items, id)
  {
    var n := |actions| - 1;
    KeyIsUnique(Exec(w, actions[..n]).value, key, id);
    EverSnoc(w, actions, r, HitsCache);
    NoAccept(w, actions, r, |items|);
  }

  lemma TrackStep(w: World, actions: seq<Action>, r: nat, key: string, items: seq<Item>, id: nat)
    requires actions != [] && Exec(w, actions).Some? && Inv(Exec(w, actions[..|actions| - 1]).value) && key != ""
    requires OnTrack(w, actions[..|actions| - 1], r, key, items, id)
    requires var mid := Exec(w, actions[..|actions| - 1]).value;
             !Happens(mid, actions[|actions| - 1], r, Fails) && !Happens(mid, actions[|actions| - 1], r, Dies)
    ensures OnTrack(w, actions, r, key, items, id)
  {
    var n := |actions| - 1;
    var mid := Exec(w, actions[..n]).value;
    if StepBy(actions[n], r) {
      match mid.requests[r].pc
      case CacheGet => TrackCacheGet(w, actions, r, key, items, id);
      case LookUp(_) => TrackLookUp(w, actions, r, key, items, id);
      case TxSelect => TrackSelect(w, actions, r, key, items, id);
      case Answered(_) =>
      case Errored(_) =>
    } else {
      TrackOthers(w, actions, r, key, items, id);
    }
  }

  lemma {:induction false} TrackRun(w: World, actions: seq<Action>, r: nat, key: string, items: seq<Item>, id: nat)
    requires Inv(w) && Exec(w, actions).Some? && key != "" && OnTrack(w, [], r, key, items, id)
    requires !Ever(w, actions, r, Fails) && !Ever(w, actions, r, Dies)
    ensures Inv(Exec(w, actions).value) && OnTrack(w, actions, r, key, items, id)
  {
    if actions == [] {
    } else {
      var n := |actions| - 1;
      EverSnoc(w, actions, r, Fails);
      EverSnoc(w, actions, r, Dies);
      TrackRun(w, actions[..n], r, key, items, id);
      NextInv(Exec(w, actions[..n]).value, actions[n]);
      TrackStep(w, actions, r, key, items, id);
    }
  }

  ghost predicate AllAccepted(w: World, actions: seq<Action>, r: nat, n: nat) {
    forall k: nat :: k < n ==> Ever(w, actions, r, Accepts(k))
  }

  lemma AcceptedDecides(w: World, actions: seq<Action>, r: nat, n: nat)
    ensures AcceptedBelow(w, actions, r, n) ==> AllAccepted(w, actions, r, n)
    ensures SomeNotAccepted(w, actions, r, n) ==> !AllAccepted(w, actions, r, n)
  {
    if k: nat :| k < n && AcceptedBelow(w, actions, r, k) { assert !Ever(w, actions, r, Accepts(k)); }
  }

  /** The request's own steps touch no table until it has ended. */
  lemma TrackWritesNothing(w: World, r: nat, key: string, id: nat, ok: bool, newId: nat)
    requires Inv(w) && key != "" && r in w.requests && w.requests[r].key == key
    requires id in w.orders && w.orders[id] == key
    requires w.requests[r].pc.CacheGet? || w.requests[r].pc.LookUp? || w.requests[r].pc.TxSelect?
    ensures var next := Next(w, Step(r, ok, newId));
            next.Some? && next.value.orders == w.orders && next.value.sagas == w.sagas
  {
    assert RequestOk(w, w.requests[r]);
  }

  /** A well-formed request that arrives with its key committed, of which neither the SELECT fails nor the
      process dies: whatever the others, the cache and updates of products do, by its own step
      |items| + 2 it is answered with that order if and only if the cache answered it or the lookup of
      every item accepted it, and is refused otherwise. Until then it can always take its next step,
      and its steps add neither an order nor a saga. */
  lemma RetryIsAnswered(before: seq<Action>, r: nat, customer: string, key: string, items: seq<Item>, id: nat,
      after: seq<Action>, ok: bool, newId: nat)
    requires Exec(INIT, before).Some? && r !in Exec(INIT, before).value.requests && !Malformed(customer, items)
    requires key != "" && id in Exec(INIT, before).value.orders && Exec(INIT, before).value.orders[id] == key
    requires var w0 := Arrived(Exec(INIT, before).value, r, customer, key, items);
             Exec(w0, after).Some? && !Ever(w0, after, r, Fails) && !Ever(w0, after, r, Dies)
    ensures var w0 := Arrived(Exec(INIT, before).value, r, customer, key, items);
            var w := Exec(w0, after).value;
            && r in w.requests && w.requests[r].key == key
            && (w.requests[r].pc.Answered? ==> w.requests[r].pc == Answered(id))
            && (OwnSteps(after, r) >= |items| + 2 ==> Finished(w.requests[r].pc))
            && (Finished(w.requests[r].pc) ==>
                  (w.requests[r].pc == Answered(id)
                   <==> Ever(w0, after, r, HitsCache) || AllAccepted(w0, after, r, |items|)))
            && (!Finished(w.requests[r].pc) ==>
                  var next := Next(w, Step(r, ok, newId));
                  next.Some? && next.value.orders == w.orders && next.value.sagas == w.sagas)
  {
    Reachable(before);
    var w0 := Arrived(Exec(INIT, before).value, r, customer, key, items);
    ArriveInv(Exec(INIT, before).value, r, customer, key, items);
    assert AcceptedBelow(w0, [], r, 0);
    TrackRun(w0, after, r, key, items, id);
    AcceptedDecides(w0, after, r, |items|);
    var w := Exec(w0, after).value;
    if !Finished(w.requests[r].pc) { TrackWritesNothing(w, r, key, id, ok, newId); }
  }
  /******* A request that creates an order *******/

  /** A run goes on through the given states. */
  lemma {:induction false} ExecIs(w: World, actions: seq<Action>, states: seq<World>)
    requires |states| == |actions| + 1 && states[0] == w
    requires forall i :: 0 <= i < |actions| ==> Next(states[i], actions[i]) == Some(states[i + 1])
    ensures Exec(w, actions) == Some(states[|actions|])
  {
    if actions == [] {
    } else {
      ExecIs(w, actions[..|actions| - 1], states[..|actions|]);
    }
  }

  lemma {:induction false} ExecConcat(w: World, a: seq<Action>, b: seq<Action>)
    requires Exec(w, a).Some?
    ensures Exec(w, a + b) == Exec(Exec(w, a).value, b)
  {
    if b == [] {
      assert a + b == a;
    } else {
      assert (a + b)[..|a + b| - 1] == a + b[..|b| - 1];
      ExecConcat(w, a, b[..|b| - 1]);
    }
  }

  /** n steps of a request, all of which work. */
  ghost predicate OnlySteps(moves: seq<Action>, r: nat, newId: nat, n: nat) {
    |moves| == n && forall i :: 0 <= i < n ==> moves[i] == Step(r, true, newId)
  }

  lemma GotoTwice(w: World, r: nat, p: Pc, q: Pc)
    requires r in w.requests
    ensures Goto(Goto(w, r, p), r, q) == Goto(w, r, q)
  {
    assert Goto(Goto(w, r, p), r, q).requests == Goto(w, r, q).requests;
  }

  lemma GoOn(w: World, moves: seq<Action>, r: nat, newId: nat, w': World) returns (all: seq<Action>)
    requires Exec(w, moves).Some? && OnlySteps(moves, r, newId, |moves|)
    requires Next(Exec(w, moves).value, Step(r, true, newId)) == Some(w')
    ensures Exec(w, all) == Some(w') && OnlySteps(all, r, newId, |moves| + 1)
  {
    all := moves + [Step(r, true, newId)];
    assert all[..|all| - 1] == moves;
  }

  ghost predicate Orderable(listed: map<string, Listing>, items: seq<Item>) {
    forall k :: 0 <= k < |items| ==> Check(items[k], GetProduct(listed, true)) == None
  }

  /** The lookups of the first k items. */
  lemma {:induction false} LooksUp(w: World, r: nat, newId: nat, k: nat) returns (moves: seq<Action>)
    requires r in w.requests && k <= |w.requests[r].items| && w.requests[r].pc == CacheGet
    requires (w.requests[r].key == "" || w.requests[r].key !in w.cache) && Orderable(w.listed, w.requests[r].items)
    ensures Exec(w, moves) == Some(Goto(w, r, AfterLookUps(w.requests[r].items, k)))
    ensures OnlySteps(moves, r, newId, k + 1)
  {
    var items := w.requests[r].items;
    if k == 0 {
      moves := GoOn(w, [], r, newId, Goto(w, r, AfterLookUps(items, 0)));
    } else {
      var before := LooksUp(w, r, newId, k - 1);
      GotoTwice(w, r, AfterLookUps(items, k - 1), AfterLookUps(items, k));
      moves := GoOn(w, before, r, newId, Goto(w, r, AfterLookUps(items, k)));
    }
  }

  /** Nobody else has the key, and the id is new. */
  ghost predicate Free(w: World, r: nat, key: string, newId: nat) {
    && Fresh(w, newId) && newId !in w.sagas
    && (key != "" ==> key !in w.cache && !Committed(w, key) && !KeyLocked(w, r, key))
  }

  /** The tables with one more order and its saga. */
  function WithOrder(w: World, newId: nat, key: string): World {
    w.(orders := w.orders[newId := key], sagas := w.sagas + [newId],
       cache := if key != "" then w.cache[key := newId] else w.cache)
  }

  lemma Inserts(w: World, r: nat, newId: nat) returns (moves: seq<Action>)
    requires r in w.requests && w.requests[r].pc == TxSelect && Free(w, r, w.requests[r].key, newId)
    ensures Exec(w, moves) == Some(Goto(w, r, TxCommit(newId))) && OnlySteps(moves, r, newId, 2)
  {
    GotoTwice(w, r, TxInsert, TxCommit(newId));
    moves := GoOn(w, [], r, newId, Goto(w, r, TxInsert));
    moves := GoOn(w, moves, r, newId, Goto(w, r, TxCommit(newId)));
  }

  lemma Commits(w: World, r: nat, newId: nat) returns (moves: seq<Action>)
    requires r in w.requests && w.requests[r].pc == TxCommit(newId) && newId !in w.sagas
    ensures Exec(w, moves)
            == Some(Goto(w.(orders := w.orders[newId := w.requests[r].key]), r, SagaInsert(newId)))
    ensures OnlySteps(moves, r, newId, 2)
  {
    var w1 := w.(orders := w.orders[newId := w.requests[r].key]);
    GotoTwice(w1, r, SagaCheck(newId), SagaInsert(newId));
    moves := GoOn(w, [], r, newId, Goto(w1, r, SagaCheck(newId)));
    moves := GoOn(w, moves, r, newId, Goto(w1, r, SagaInsert(newId)));
  }

  lemma RunsSaga(w: World, r: nat, newId: nat) returns (moves: seq<Action>)
    requires r in w.requests && w.requests[r].pc == SagaInsert(newId)
    ensures Exec(w, moves) == Some(Goto(w.(sagas := w.sagas + [newId]), r, CachePut(newId)))
    ensures OnlySteps(moves, r, newId, 3)
  {
    var w1 := w.(sagas := w.sagas + [newId]);
    GotoTwice(w1, r, SagaRun(newId), Refetch(newId));
    GotoTwice(w1, r, Refetch(newId), CachePut(newId));
    moves := GoOn(w, [], r, newId, Goto(w1, r, SagaRun(newId)));
    moves := GoOn(w, moves, r, newId, Goto(w1, r, Refetch(newId)));
    moves := GoOn(w, moves, r, newId, Goto(w1, r, CachePut(newId)));
  }

  lemma Join(w: World, a: seq<Action>, b: seq<Action>, r: nat, newId: nat, m: nat, n: nat)
    requires Exec(w, a).Some? && OnlySteps(a, r, newId, m) && OnlySteps(b, r, newId, n)
    ensures Exec(w, a + b) == Exec(Exec(w, a).value, b) && OnlySteps(a + b, r, newId, m + n)
  {
    ExecConcat(w, a, b);
  }

  lemma InsertsAndCommits(w: World, r: nat, newId: nat) returns (moves: seq<Action>)
    requires r in w.requests && w.requests[r].pc == TxSelect && Free(w, r, w.requests[r].key, newId)
    ensures Exec(w, moves)
            == Some(Goto(w.(orders := w.orders[newId := w.requests[r].key]), r, SagaInsert(newId)))
    ensures OnlySteps(moves, r, newId, 4)
  {
    var a := Inserts(w, r, newId);
    var b := Commits(Goto(w, r, TxCommit(newId)), r, newId);
    Join(w, a, b, r, newId, 2, 2);
    GotoTwice(w.(orders := w.orders[newId := w.requests[r].key]), r, TxCommit(newId), SagaInsert(newId));
    moves := a + b;
  }

  lemma SagaAndAnswer(w: World, r: nat, newId: nat) returns (moves: seq<Action>)
    requires r in w.requests && w.requests[r].pc == SagaInsert(newId)
    ensures var key, w1 := w.requests[r].key, w.(sagas := w.sagas + [newId]);
            Exec(w, moves)
            == Some(Goto(w1.(cache := if key != "" then w.cache[key := newId] else w.cache), r, Answered(newId)))
    ensures OnlySteps(moves, r, newId, 4)
  {
    var key, w1 := w.requests[r].key, w.(sagas := w.sagas + [newId]);
    var w2 := w1.(cache := if key != "" then w.cache[key := newId] else w.cache);
    moves := RunsSaga(w, r, newId);
    GotoTwice(w2, r, CachePut(newId), Answered(newId));
    moves := GoOn(w, moves, r, newId, Goto(w2, r, Answered(newId)));
  }

  lemma FromSelect(w: World, r: nat, newId: nat) returns (moves: seq<Action>)
    requires r in w.requests && w.requests[r].pc == TxSelect && Free(w, r, w.requests[r].key, newId)
    ensures Exec(w, moves) == Some(Goto(WithOrder(w, newId, w.requests[r].key), r, Answered(newId)))
    ensures OnlySteps(moves, r, newId, 8)
  {
    var w1 := w.(orders := w.orders[newId := w.requests[r].key]);
    var a := InsertsAndCommits(w, r, newId);
    var b := SagaAndAnswer(Goto(w1, r, SagaInsert(newId)), r, newId);
    Join(w, a, b, r, newId, 4, 4);
    GotoTwice(WithOrder(w, newId, w.requests[r].key), r, SagaInsert(newId), Answered(newId));
    moves := a + b;
  }

  lemma ArrivesFree(w: World, r: nat, customer: string, key: string, items: seq<Item>, newId: nat, pc: Pc)
    requires r !in w.requests && Free(w, r, key, newId) && !pc.TxCommit?
    ensures Free(Goto(Arrived(w, r, customer, key, items), r, pc), r, key, newId)
  {
    var w' := Goto(Arrived(w, r, customer, key, items), r, pc);
    assert forall u :: u in w'.requests && u != r ==> u in w.requests && w'.requests[u] == w.requests[u];
  }

  /** A well-formed request for orderable items whose key nobody has, alone and with every statement
      working: after |items| + 9 steps there is one more order, with its key, one more saga, the key in
      the cache, and the request is answered with that order. */
  lemma CreatesOrder(w: World, r: nat, customer: string, key: string, items: seq<Item>, newId: nat)
    returns (moves: seq<Action>)
    requires r !in w.requests && !Malformed(customer, items) && Orderable(w.listed, items)
    requires Free(w, r, key, newId)
    ensures var w0 := Arrived(w, r, customer, key, items);
            && Next(w, Arrive(r, customer, key, items)) == Some(w0) && OnlySteps(moves, r, newId, |items| + 9)
            && Exec(w0, moves) == Some(Goto(WithOrder(w0, newId, key), r, Answered(newId)))
  {
    var w0 := Arrived(w, r, customer, key, items);
    var a := LooksUp(w0, r, newId, |items|);
    ArrivesFree(w, r, customer, key, items, newId, TxSelect);
    var b := FromSelect(Goto(w0, r, TxSelect), r, newId);
    Join(w0, a, b, r, newId, |items| + 1, 8);
    GotoTwice(WithOrder(w0, newId, key), r, TxSelect, Answered(newId));
    moves := a + b;
  }

  /******* Two runs *******/

  const ON := Listing(true, 5)
  const OFF := Listing(false, 5)
  const ITEMS := [Item("A", 1)]
  const LISTED := World(map["A" := ON], map[], [], map[], map[])

  /** Two requests with one key have missed the cache, and their item is accepted. */
  function BothSelect(): World {
    LISTED.(requests := map[1 := Request("k", ITEMS, TxSelect), 2 := Request("k", ITEMS, TxSelect)])
  }

  lemma BothArrive() returns (actions: seq<Action>)
    ensures Exec(INIT, actions) == Some(BothSelect())
  {
    var w1 := INIT.(listed := INIT.listed["A" := ON]);
    var w2 := Arrived(w1, 1, "c", "k", ITEMS);
    var w3 := Arrived(w2, 2, "c", "k", ITEMS);
    var w4 := Goto(w3, 1, LookUp(0));
    var w5 := Goto(w4, 2, LookUp(0));
    var w6 := Goto(w5, 1, TxSelect);
    assert Goto(w6, 2, TxSelect) == BothSelect();
    actions := [SetProduct("A", ON), Arrive(1, "c", "k", ITEMS), Arrive(2, "c", "k", ITEMS),
                Step(1, true, 0), Step(2, true, 0), Step(1, true, 0), Step(2, true, 0)];
    ExecIs(INIT, actions, [INIT, w1, w2, w3, w4, w5, w6, BothSelect()]);
  }

  lemma BothInsert() returns (actions: seq<Action>)
    ensures Exec(INIT, actions) == Some(Goto(Goto(BothSelect(), 1, TxInsert), 2, TxInsert))
  {
    var w0 := BothSelect();
    var w1 := Goto(w0, 1, TxInsert);
    var arrive := BothArrive();
    var rest := [Step(1, true, 0), Step(2, true, 0)];
    ExecIs(w0, rest, [w0, w1, Goto(w1, 2, TxInsert)]);
    ExecConcat(INIT, arrive, rest);
    actions := arrive + rest;
  }

  /** Request 1 has committed order 7; request 2 is at its INSERT. */
  function FirstWins(): World {
    LISTED.(orders := map[7 := "k"],
            requests := map[1 := Request("k", ITEMS, SagaCheck(7)), 2 := Request("k", ITEMS, TxInsert)])
  }

  lemma FirstOfBothCommits() returns (actions: seq<Action>)
    ensures Exec(Goto(Goto(BothSelect(), 1, TxInsert), 2, TxInsert), actions) == Some(FirstWins())
  {
    var w0 := Goto(Goto(BothSelect(), 1, TxInsert), 2, TxInsert);
    var w1 := Goto(w0, 1, TxCommit(7));
    var w2 := Goto(w1.(orders := w1.orders[7 := "k"]), 1, SagaCheck(7));
    actions := [Step(1, true, 7), Step(1, true, 0)];
    ExecIs(w0, actions, [w0, w1, w2]);
    assert w2.requests == FirstWins().requests;
  }

  lemma SecondErrs()
    ensures Next(FirstWins(), Step(2, true, 8)) == Some(Goto(FirstWins(), 2, Errored(Internal)))
  {
    assert FirstWins().orders[7] == "k" && Committed(FirstWins(), "k");
  }

  /** Of two overlapping requests with one key, the one that selects before and inserts after the
      other's commit meets the UNIQUE constraint and is answered with an error. */
  lemma OverlappingDuplicateErrs() returns (actions: seq<Action>)
    ensures Exec(INIT, actions).Some?
    ensures var w := Exec(INIT, actions).value;
            && w.orders == map[7 := "k"]
            && w.requests == map[1 := Request("k", ITEMS, SagaCheck(7)), 2 := Request("k", ITEMS, Errored(Internal))]
  {
    var a := BothInsert();
    var b := FirstOfBothCommits();
    ExecConcat(INIT, a, b);
    SecondErrs();
    var last := [Step(2, true, 8)];
    ExecIs(FirstWins(), last, [FirstWins(), Goto(FirstWins(), 2, Errored(Internal))]);
    ExecConcat(INIT, a + b, last);
    actions := a + b + last;
  }

  /** Request 1 has created order 7 and stands at pc. */
  function FirstAt(pc: Pc, sagas: seq<nat>): World {
    LISTED.(orders := map[7 := "k"], sagas := sagas, requests := map[1 := Request("k", ITEMS, pc)])
  }

  lemma FirstInserts() returns (actions: seq<Action>)
    ensures Exec(INIT, actions) == Some(LISTED.(requests := map[1 := Request("k", ITEMS, TxCommit(7))]))
  {
    var w1 := INIT.(listed := INIT.listed["A" := ON]);
    var w2 := Arrived(w1, 1, "c", "k", ITEMS);
    var w3 := Goto(w2, 1, LookUp(0));
    var w4 := Goto(w3, 1, TxSelect);
    var w5 := Goto(w4, 1, TxInsert);
    var w6 := Goto(w5, 1, TxCommit(7));
    actions := [SetProduct("A", ON), Arrive(1, "c", "k", ITEMS), Step(1, true, 0), Step(1, true, 0), Step(1, true, 0),
                Step(1, true, 7)];
    ExecIs(INIT, actions, [INIT, w1, w2, w3, w4, w5, w6]);
    assert w6.requests == map[1 := Request("k", ITEMS, TxCommit(7))];
  }

  lemma FirstCommits() returns (actions: seq<Action>)
    ensures Exec(INIT, actions) == Some(FirstAt(SagaCheck(7), []))
  {
    var begin := FirstInserts();
    var w0 := Exec(INIT, begin).value;
    var w1 := Goto(w0.(orders := w0.orders[7 := "k"]), 1, SagaCheck(7));
    assert w1.requests == FirstAt(SagaCheck(7), []).requests;
    ExecIs(w0, [Step(1, true, 0)], [w0, w1]);
    ExecConcat(INIT, begin, [Step(1, true, 0)]);
    actions := begin + [Step(1, true, 0)];
  }

  lemma FirstGoes(pc: Pc, sagas: seq<nat>, pc': Pc, sagas': seq<nat>)
    requires StepOf(FirstAt(pc, sagas), 1, true, 0) == Some(Goto(FirstAt(pc, sagas'), 1, pc'))
    ensures Next(FirstAt(pc, sagas), Step(1, true, 0)) == Some(FirstAt(pc', sagas'))
  {
    assert Goto(FirstAt(pc, sagas'), 1, pc').requests == FirstAt(pc', sagas').requests;
  }

  lemma FirstRuns() returns (actions: seq<Action>)
    ensures Exec(FirstAt(SagaCheck(7), []), actions) == Some(FirstAt(CachePut(7), [7]))
  {
    FirstGoes(SagaCheck(7), [], SagaInsert(7), []);
    assert [] + [7] == [7];
    FirstGoes(SagaInsert(7), [], SagaRun(7), [7]);
    FirstGoes(SagaRun(7), [7], Refetch(7), [7]);
    FirstGoes(Refetch(7), [7], CachePut(7), [7]);
    var next := Step(1, true, 0);
    actions := [next, next, next, next];
    ExecIs(FirstAt(SagaCheck(7), []), actions,
        [FirstAt(SagaCheck(7), []), FirstAt(SagaInsert(7), []), FirstAt(SagaRun(7), [7]), FirstAt(Refetch(7), [7]),
         FirstAt(CachePut(7), [7])]);
  }

  lemma FirstForgotten() returns (actions: seq<Action>)
    ensures Exec(FirstAt(CachePut(7), [7]), actions) == Some(FirstAt(Answered(7), [7]))
  {
    var w0 := FirstAt(CachePut(7), [7]);
    var w1 := Goto(w0.(cache := w0.cache["k" := 7]), 1, Answered(7));
    assert w1.requests == FirstAt(Answered(7), [7]).requests;
    actions := [Step(1, true, 0), Expire("k")];
    ExecIs(w0, actions, [w0, w1, FirstAt(Answered(7), [7])]);
  }

  lemma FirstAnswered() returns (actions: seq<Action>)
    ensures Exec(INIT, actions) == Some(FirstAt(Answered(7), [7]))
  {
    var a := FirstCommits();
    var b := FirstRuns();
    var c := FirstForgotten();
    ExecConcat(INIT, a, b);
    ExecConcat(INIT, a + b, c);
    actions := a + b + c;
  }

  /** An order is created and its request answered; the cache entry expires and the product is
      deactivated. The same request again, of which every statement works, is refused. */
  lemma DeactivatedDuplicateErrs() returns (before: seq<Action>, after: seq<Action>)
    ensures Exec(INIT, before) == Some(FirstAt(Answered(7), [7]).(listed := map["A" := OFF]))
    ensures forall i :: 0 <= i < |after| ==> StepBy(after[i], 2) && after[i].ok
    ensures var w0 := Arrived(Exec(INIT, before).value, 2, "c", "k", ITEMS);
            Exec(w0, after).Some? && HasErred(Exec(w0, after).value, 2, FailedPrecondition)
  {
    var first := FirstAnswered();
    var done := FirstAt(Answered(7), [7]);
    var off := done.(listed := map["A" := OFF]);
    assert done.listed["A" := OFF] == off.listed;
    ExecIs(done, [SetProduct("A", OFF)], [done, off]);
    ExecConcat(INIT, first, [SetProduct("A", OFF)]);
    before := first + [SetProduct("A", OFF)];
    var w0 := Arrived(off, 2, "c", "k", ITEMS);
    var w1 := Goto(w0, 2, LookUp(0));
    after := [Step(2, true, 0), Step(2, true, 0)];
    ExecIs(w0, after, [w0, w1, Goto(w1, 2, Errored(FailedPrecondition))]);
  }
}
