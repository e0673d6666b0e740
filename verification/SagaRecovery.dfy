/**
Resume as a whole: what it leaves in closed form, whichever of its releases arrive, and what
happens when it is itself cut short by crashes, any number of times, and run again.
*/
module SagaRecovery {
  import opened Common
  import opened StockLedger
  import opened LedgerTheorems
  import opened SagaProtocol
  import opened SagaTheorems

  /******* The world that a Resume leaves *******/

  /** One order closed by Resume; `missed` tells whether its stock is still held for want of a release. */
  function Closed(x: Order, missed: bool): Order {
    if x.saga.None? then x
    else x.(saga := Some(x.saga.value.(status := SagaFailed)), status := Failed,
            history := if x.saga.value.reservation.Some? then x.history.(releaseLost := missed) else x.history)
  }

  function ToRelease(orders: map<string, Order>, ids: set<string>): set<string> {
    set id | id in ids && id in orders && ResumeRequest(orders[id], Release).Some?
  }

  /** The orders whose release reaches the inventory service. */
  function Arriving(orders: map<string, Order>, ids: set<string>, fates: string -> Fate): set<string> {
    set id | id in ToRelease(orders, ids) && fates(id) != RequestLost
  }

  /** There was something to release and no release arrived. */
  predicate Missed(l: Ledger, freed: set<string>, id: string) {
    id !in freed && Matching(l.rows, {id}) != []
  }

  /** The world after closing the sagas of some orders, in any order, where the releases of `freed` arrived. */
  function Finished(w: World, ids: set<string>, freed: set<string>, mode: Mode): World {
    World(Settled(w.ledger, freed, Released),
          map id | id in w.orders ::
            if id in ids then Closed(w.orders[id], Missed(w.ledger, freed, id)) else w.orders[id],
          mode)
  }

  lemma FinishedUnion(w: World, a: set<string>, fa: set<string>, b: set<string>, fb: set<string>, m1: Mode, m2: Mode)
    requires a !! b && fa <= a && fb <= b
    ensures Finished(Finished(w, a, fa, m1), b, fb, m2) == Finished(w, a + b, fa + fb, m2)
  {
    var mid := Finished(w, a, fa, m1);
    SettledUnion(w.ledger, fa, fb, Released);
    forall id | id in b ensures Missed(mid.ledger, fb, id) == Missed(w.ledger, fa + fb, id) {
      MatchingMark(w.ledger.rows, fa, {id}, Released);
      assert {id} - fa == {id};
    }
    assert Finished(mid, b, fb, m2).orders == Finished(w, a + b, fa + fb, m2).orders;
  }

  lemma FinishedNone(w: World, mode: Mode)
    ensures Finished(w, {}, {}, mode) == w.(mode := mode)
  {
    SettledNone(w.ledger, Released);
    assert Finished(w, {}, {}, mode).orders == w.orders;
  }

  /******* Resume, statement by statement *******/

  /** Up to n statements of Resume; `fates` says what becomes of the release of each order's saga. */
  ghost function Recovered(w: World, n: nat, fates: string -> Fate): World
    decreases n
  {
    if n == 0 || !AtSaga(w) then w else Recovered(Next(w, Recover(fates(w.mode.todo[0]))).value, n - 1, fates)
  }

  lemma {:induction false} RecoveredMore(w: World, m: nat, n: nat, fates: string -> Fate)
    ensures Recovered(w, m + n, fates) == Recovered(Recovered(w, m, fates), n, fates)
    decreases m
  {
    if m == 0 {
    } else if AtSaga(w) {
      RecoveredMore(Next(w, Recover(fates(w.mode.todo[0]))).value, m - 1, n, fates);
    } else {
      assert Recovered(w, m + n, fates) == w;
    }
  }

  /** A saga that Resume has to close, with its own order's reservation if it has one. */
  predicate Open(id: string, x: Order) {
    SagaInProgress(x) && x.status != Failed
    && (x.saga.value.reservation == None || x.saga.value.reservation == Some(id))
  }

  ghost predicate AllOpen(orders: map<string, Order>, todo: seq<string>) {
    Distinct(todo) && forall id :: id in todo ==> id in orders && Open(id, orders[id])
  }

  ghost predicate Ready(w: World) {
    w.mode.Resuming? && w.mode.at == Release && w.mode.todo != [] && AllOpen(w.orders, w.mode.todo)
  }

  /** The reservation that the head's release frees. */
  function HeadFreed(w: World, fate: Fate): set<string>
    requires AtSaga(w)
  {
    var id := w.mode.todo[0];
    if ResumeRequest(w.orders[id], Release).Some? && fate != RequestLost then {id} else {}
  }

  /** After the release of the head of the list. */
  function Freed(w: World, fate: Fate): World
    requires AtSaga(w)
  {
    var id := w.mode.todo[0];
    var x, freed := w.orders[id], HeadFreed(w, fate);
    World(Settled(w.ledger, freed, Released),
          w.orders[id := if ResumeRequest(x, Release).Some?
                         then x.(history := x.history.(releaseLost := Missed(w.ledger, freed, id))) else x],
          Resuming(w.mode.todo, CloseSaga))
  }

  /** Between the two last writes: saga FAILED, order not yet. */
  function HalfClosed(w: World, fate: Fate): World
    requires AtSaga(w)
  {
    var id, freed := w.mode.todo[0], Freed(w, fate);
    World(freed.ledger, freed.orders[id := SetSagaStatus(freed.orders[id], SagaFailed)],
        Resuming(w.mode.todo, CloseOrder))
  }

  /** After both writes. */
  function HeadClosed(w: World, fate: Fate): World
    requires AtSaga(w)
  {
    Finished(w, {w.mode.todo[0]}, HeadFreed(w, fate), NextMode(w.mode.todo[1..]))
  }

  lemma FirstStep(w: World, fate: Fate)
    requires Ready(w)
    ensures RecoverHead(w, fate) == Freed(w, fate)
  {
    var id := w.mode.todo[0];
    assert Open(id, w.orders[id]);
    SettledNone(w.ledger, Released);
    SettledIsAfter(w.ledger, id, Released);
  }

  lemma SecondStep(w: World, fate: Fate, any: Fate)
    requires Ready(w)
    ensures RecoverHead(Freed(w, fate), any) == HalfClosed(w, fate)
  {
  }

  lemma ThirdStep(w: World, fate: Fate, any: Fate)
    requires Ready(w)
    ensures RecoverHead(HalfClosed(w, fate), any) == HeadClosed(w, fate)
  {
    var id := w.mode.todo[0];
    assert Open(id, w.orders[id]);
    var w3 := RecoverHead(HalfClosed(w, fate), any);
    assert w3.orders[id] == Closed(w.orders[id], Missed(w.ledger, HeadFreed(w, fate), id));
    assert w3.orders == HeadClosed(w, fate).orders;
  }

  lemma OneSaga(w: World, fates: string -> Fate)
    requires Ready(w)
    ensures var fate := fates(w.mode.todo[0]);
            && Recovered(w, 1, fates) == Freed(w, fate)
            && Recovered(w, 2, fates) == HalfClosed(w, fate)
            && Recovered(w, 3, fates) == HeadClosed(w, fate)
  {
    var fate := fates(w.mode.todo[0]);
    FirstStep(w, fate);
    SecondStep(w, fate, fate);
    ThirdStep(w, fate, fate);
    var a, b, c := Freed(w, fate), HalfClosed(w, fate), HeadClosed(w, fate);
    assert Recovered(c, 0, fates) == c;
    assert Recovered(b, 0, fates) == b && Recovered(b, 1, fates) == c;
    assert Recovered(a, 0, fates) == a && Recovered(a, 1, fates) == b && Recovered(a, 2, fates) == c;
  }

  /** Resume at the saga after the first j. */
  function AtNext(w: World, j: nat, fates: string -> Fate): World
    requires w.mode.Resuming? && j <= |w.mode.todo|
  {
    var done := Elements(w.mode.todo[..j]);
    Finished(w, done, Arriving(w.orders, done, fates), NextMode(w.mode.todo[j..]))
  }

  lemma RestIsReady(w: World, j: nat, fates: string -> Fate)
    requires Ready(w) && j < |w.mode.todo|
    ensures Ready(AtNext(w, j, fates)) && AtNext(w, j, fates).mode.todo == w.mode.todo[j..]
    ensures AtNext(w, j, fates).orders[w.mode.todo[j]] == w.orders[w.mode.todo[j]]
  {
    var todo, w' := w.mode.todo, AtNext(w, j, fates);
    forall id | id in todo[j..] ensures id in w'.orders && w'.orders[id] == w.orders[id] && Open(id, w'.orders[id]) {
      assert id !in Elements(todo[..j]);
      assert id in todo;
    }
    assert todo[j..][0] == todo[j];
  }

  lemma CloseNext(w: World, j: nat, fates: string -> Fate)
    requires Ready(w) && 0 < j <= |w.mode.todo|
    ensures AtSaga(AtNext(w, j - 1, fates)) && AtNext(w, j - 1, fates).mode.todo[0] == w.mode.todo[j - 1]
    ensures HeadClosed(AtNext(w, j - 1, fates), fates(w.mode.todo[j - 1])) == AtNext(w, j, fates)
  {
    var todo, mid := w.mode.todo, AtNext(w, j - 1, fates);
    var id, before := todo[j - 1], Elements(todo[..j - 1]);
    RestIsReady(w, j - 1, fates);
    assert todo[j - 1..][1..] == todo[j..];
    assert Elements(todo[..j]) == before + {id};
    assert Arriving(w.orders, before + {id}, fates) == Arriving(w.orders, before, fates) + HeadFreed(mid, fates(id));
    FinishedUnion(w, before, Arriving(w.orders, before, fates), {id}, HeadFreed(mid, fates(id)),
        NextMode(todo[j - 1..]), NextMode(todo[j..]));
  }

  lemma OneMoreSaga(w: World, n: nat, j: nat, fates: string -> Fate)
    requires Ready(w) && 0 < j <= |w.mode.todo| && Recovered(w, n, fates) == AtNext(w, j - 1, fates)
    ensures Recovered(w, n + 3, fates) == AtNext(w, j, fates)
  {
    RestIsReady(w, j - 1, fates);
    CloseNext(w, j, fates);
    RecoveredMore(w, n, 3, fates);
    OneSaga(AtNext(w, j - 1, fates), fates);
  }

  lemma NothingClosed(w: World, fates: string -> Fate)
    requires Ready(w)
    ensures AtNext(w, 0, fates) == w
  {
    FinishedNone(w, w.mode);
    assert w.mode.todo[0..] == w.mode.todo && Elements(w.mode.todo[..0]) == {};
    assert Arriving(w.orders, {}, fates) == {};
  }

  /** After closing the first j sagas, Resume stands at the next one. */
  lemma {:induction false} ResumePrefix(w: World, j: nat, fates: string -> Fate)
    requires Ready(w) && j <= |w.mode.todo|
    ensures Recovered(w, 3 * j, fates) == AtNext(w, j, fates)
  {
    if j == 0 {
      NothingClosed(w, fates);
    } else {
      ResumePrefix(w, j - 1, fates);
      OneMoreSaga(w, 3 * (j - 1), j, fates);
      assert 3 * (j - 1) + 3 == 3 * j;
    }
  }

  function InFlight(orders: map<string, Order>): set<string> {
    set id | id in orders && SagaInProgress(orders[id])
  }

  /** No Execute runs while the service is down or resuming. */
  ghost predicate Quiet(w: World) {
    forall id :: id in w.orders ==> w.orders[id].pc.None?
  }

  ghost predicate Interruptible(w: World) {
    && w.mode == Down && Quiet(w)
    && forall id :: id in w.orders && SagaInProgress(w.orders[id]) ==> Open(id, w.orders[id])
  }

  /** What is left of a Resume that is not cut short. */
  function Resumed(w: World, fates: string -> Fate): World {
    Finished(w, InFlight(w.orders), Arriving(w.orders, InFlight(w.orders), fates), Serving)
  }

  lemma SelectedIsReady(w: World, todo: seq<string>)
    requires Interruptible(w) && Selected(w, todo)
    ensures todo != [] ==> Ready(w.(mode := NextMode(todo)))
    ensures Elements(todo) == InFlight(w.orders)
  {
  }

  /** Every run of Resume ends as the closed form says, whichever releases arrive and in whatever order
      the sagas were listed. */
  lemma ResumeWhole(w: World, todo: seq<string>, fates: string -> Fate)
    requires Interruptible(w) && Selected(w, todo)
    ensures Recovered(w.(mode := NextMode(todo)), 3 * |todo|, fates) == Resumed(w, fates)
  {
    SelectedIsReady(w, todo);
    var w0 := w.(mode := NextMode(todo));
    assert todo[..|todo|] == todo && todo[|todo|..] == [];
    if todo == [] {
      assert Elements(todo) == {} && Arriving(w.orders, {}, fates) == {};
      FinishedNone(w, Serving);
    } else {
      ResumePrefix(w0, |todo|, fates);
    }
  }

  /** What Resume does from its query to its end, as the machine's own steps. */
  ghost function FullRun(w: World, todo: seq<string>, fates: string -> Fate): Option<World> {
    match Next(w, Restart(todo))
    case None => None
    case Some(up) => Some(Recovered(up, 3 * |todo|, fates))
  }

  lemma FullRunIs(w: World, todo: seq<string>, fates: string -> Fate)
    requires Interruptible(w) && Selected(w, todo)
    ensures FullRun(w, todo, fates) == Some(Resumed(w, fates))
  {
    ResumeWhole(w, todo, fates);
  }

  /******* One run, cut short by a crash *******/

  /** A run of Resume that a crash ends after some statements. */
  datatype Attempt = Attempt(todo: seq<string>, steps: nat, fates: string -> Fate)

  ghost function CutRun(w: World, a: Attempt): Option<World> {
    match Next(w, Restart(a.todo))
    case None => None
    case Some(up) => Next(Recovered(up, a.steps, a.fates), Crash)
  }

  /** The crash falls between the two writes of fail. */
  predicate Tears(a: Attempt) {
    a.steps < 3 * |a.todo| && a.steps % 3 == 2
  }

  /** The orders whose release the run sent, and of those the ones whose release arrived. */
  function Sent(a: Attempt): set<string> {
    Elements(a.todo[..if (a.steps + 2) / 3 < |a.todo| then (a.steps + 2) / 3 else |a.todo|])
  }

  function Arrived(w: World, a: Attempt): set<string> {
    Arriving(w.orders, Sent(a), a.fates)
  }

  /** An order that was in flight in w0, after runs in which the releases of `freed` arrived. */
  predicate Underway(w0: World, freed: set<string>, id: string, x: Order)
    requires id in w0.orders
  {
    var x0 := w0.orders[id];
    if !SagaInProgress(x0) then x == x0
    else if SagaInProgress(x) then
      x == x0 || (x0.saga.value.reservation.Some?
                  && x == x0.(history := x0.history.(releaseLost := x.history.releaseLost)))
    else x == Closed(x0, Missed(w0.ledger, freed, id))
  }

  /** What cut runs make of w0. */
  ghost predicate Pending(w0: World, w: World, freed: set<string>) {
    && w.mode == Down
    && freed <= ToRelease(w0.orders, InFlight(w0.orders))
    && w.ledger == Settled(w0.ledger, freed, Released)
    && w.orders.Keys == w0.orders.Keys
    && forall id :: id in w.orders ==> Underway(w0, freed, id, w.orders[id])
  }

  lemma PendingInterruptible(w0: World, w: World, freed: set<string>)
    requires Interruptible(w0) && Pending(w0, w, freed)
    ensures Interruptible(w) && InFlight(w.orders) <= InFlight(w0.orders)
  {
    forall id | id in w.orders
      ensures w.orders[id].pc.None?
      ensures SagaInProgress(w.orders[id]) ==> Open(id, w.orders[id]) && id in InFlight(w0.orders)
    {
      assert Underway(w0, freed, id, w.orders[id]);
    }
  }

  lemma CutQuiet(mid: World)
    requires Quiet(mid) && (mid.mode.Resuming? ==> mid.mode.at != CloseOrder)
    ensures Next(mid, Crash) == Some(mid.(mode := Down))
  {
    assert Next(mid, Crash).value.orders == mid.orders;
  }

  lemma FinishedPending(w: World, done: set<string>, freed: set<string>)
    requires done <= InFlight(w.orders) && freed <= ToRelease(w.orders, done)
    ensures Pending(w, Finished(w, done, freed, Down), freed)
  {
  }

  lemma FreedPending(w: World, done: set<string>, freed: set<string>, mid: World, fate: Fate)
    requires done <= InFlight(w.orders) && freed <= ToRelease(w.orders, done)
    requires mid == Finished(w, done, freed, mid.mode) && AtSaga(mid) && mid.mode.todo[0] !in done
    requires mid.mode.todo[0] in InFlight(w.orders)
    ensures Pending(w, Freed(mid, fate).(mode := Down), freed + HeadFreed(mid, fate))
  {
    var id, more := mid.mode.todo[0], HeadFreed(mid, fate);
    SettledUnion(w.ledger, freed, more, Released);
    assert mid.orders[id] == w.orders[id];
    forall u | u in done ensures Missed(w.ledger, freed + more, u) == Missed(w.ledger, freed, u) { }
  }

  /** A cut between two sagas, or after a release. */
  lemma CutBetween(w: World, todo: seq<string>, j: nat, fates: string -> Fate, released: bool)
    requires Interruptible(w) && Selected(w, todo) && j < |todo|
    ensures var mid := AtNext(w.(mode := NextMode(todo)), j, fates);
            && AtSaga(mid) && mid.mode.todo[0] == todo[j]
            && var at := if released then Freed(mid, fates(todo[j])) else mid;
               var done := Elements(if released then todo[..j + 1] else todo[..j]);
               Next(at, Crash).Some? && Pending(w, Next(at, Crash).value, Arriving(w.orders, done, fates))
  {
    SelectedIsReady(w, todo);
    var w0 := w.(mode := NextMode(todo));
    var mid, before := AtNext(w0, j, fates), Elements(todo[..j]);
    RestIsReady(w0, j, fates);
    assert todo[j] in Elements(todo) && todo[j] !in before;
    if released {
      assert Elements(todo[..j + 1]) == before + {todo[j]};
      assert Arriving(w.orders, before + {todo[j]}, fates)
          == Arriving(w.orders, before, fates) + HeadFreed(mid, fates(todo[j]));
      FreedPending(w, before, Arriving(w.orders, before, fates), mid, fates(todo[j]));
      CutQuiet(Freed(mid, fates(todo[j])));
    } else {
      FinishedPending(w, before, Arriving(w.orders, before, fates));
      CutQuiet(mid);
    }
  }

  lemma PastTheEnd(w: World, todo: seq<string>, n: nat, fates: string -> Fate)
    requires Interruptible(w) && Selected(w, todo) && n >= 3 * |todo|
    ensures Recovered(w.(mode := NextMode(todo)), n, fates) == Resumed(w, fates)
  {
    var w0 := w.(mode := NextMode(todo));
    ResumeWhole(w, todo, fates);
    RecoveredMore(w0, 3 * |todo|, n - 3 * |todo|, fates);
  }

  lemma CutAfterEnd(w: World, fates: string -> Fate)
    requires Interruptible(w)
    ensures Next(Resumed(w, fates), Crash).Some?
    ensures Pending(w, Next(Resumed(w, fates), Crash).value, Arriving(w.orders, InFlight(w.orders), fates))
  {
    CutQuiet(Resumed(w, fates));
    FinishedPending(w, InFlight(w.orders), Arriving(w.orders, InFlight(w.orders), fates));
  }

  lemma SentSoFar(a: Attempt, j: nat, r: nat)
    requires a.steps == 3 * j + r && r < 3 && j < |a.todo|
    ensures Sent(a) == Elements(if r == 0 then a.todo[..j] else a.todo[..j + 1])
  {
    assert (a.steps + 2) / 3 == if r == 0 then j else j + 1;
  }

  lemma CutInside(w: World, a: Attempt, j: nat)
    requires Interruptible(w) && Selected(w, a.todo) && a.steps == 3 * j && j < |a.todo|
    ensures var at := Recovered(w.(mode := NextMode(a.todo)), a.steps, a.fates);
            Next(at, Crash).Some? && Pending(w, Next(at, Crash).value, Arrived(w, a))
  {
    SelectedIsReady(w, a.todo);
    ResumePrefix(w.(mode := NextMode(a.todo)), j, a.fates);
    SentSoFar(a, j, 0);
    CutBetween(w, a.todo, j, a.fates, false);
  }

  lemma NextStatements(w: World, n: nat, mid: World, fates: string -> Fate)
    requires Recovered(w, n, fates) == mid && Ready(mid)
    ensures Recovered(w, n + 1, fates) == Freed(mid, fates(mid.mode.todo[0]))
    ensures Recovered(w, n + 2, fates) == HalfClosed(mid, fates(mid.mode.todo[0]))
  {
    RecoveredMore(w, n, 1, fates);
    RecoveredMore(w, n, 2, fates);
    OneSaga(mid, fates);
  }

  /** Where Resume stands after j sagas and one statement, or two. */
  lemma StandsInside(w: World, j: nat, fates: string -> Fate)
    requires Ready(w) && j < |w.mode.todo|
    ensures Ready(AtNext(w, j, fates)) && AtNext(w, j, fates).mode.todo[0] == w.mode.todo[j]
    ensures Recovered(w, 3 * j + 1, fates) == Freed(AtNext(w, j, fates), fates(w.mode.todo[j]))
    ensures Recovered(w, 3 * j + 2, fates) == HalfClosed(AtNext(w, j, fates), fates(w.mode.todo[j]))
  {
    RestIsReady(w, j, fates);
    ResumePrefix(w, j, fates);
    NextStatements(w, 3 * j, AtNext(w, j, fates), fates);
  }

  lemma CutReleased(w: World, a: Attempt, j: nat)
    requires Interruptible(w) && Selected(w, a.todo) && a.steps == 3 * j + 1 && j < |a.todo|
    ensures var at := Recovered(w.(mode := NextMode(a.todo)), a.steps, a.fates);
            Next(at, Crash).Some? && Pending(w, Next(at, Crash).value, Arrived(w, a))
  {
    SelectedIsReady(w, a.todo);
    StandsInside(w.(mode := NextMode(a.todo)), j, a.fates);
    SentSoFar(a, j, 1);
    CutBetween(w, a.todo, j, a.fates, true);
  }

  lemma CutAfter(w: World, a: Attempt)
    requires Interruptible(w) && Selected(w, a.todo) && a.steps >= 3 * |a.todo|
    ensures var at := Recovered(w.(mode := NextMode(a.todo)), a.steps, a.fates);
            Next(at, Crash).Some? && Pending(w, Next(at, Crash).value, Arrived(w, a))
  {
    SelectedIsReady(w, a.todo);
    PastTheEnd(w, a.todo, a.steps, a.fates);
    CutAfterEnd(w, a.fates);
    assert a.todo[..|a.todo|] == a.todo && (a.steps + 2) / 3 >= |a.todo|;
  }

  /** A run that is not torn leaves the sagas it closed closed, and the others to the next run. */
  lemma CutRunPending(w: World, a: Attempt)
    requires Interruptible(w) && CutRun(w, a).Some? && !Tears(a)
    ensures Pending(w, CutRun(w, a).value, Arrived(w, a))
  {
    if a.steps < 3 * |a.todo| {
      if a.steps % 3 == 0 { CutInside(w, a, a.steps / 3); } else { CutReleased(w, a, a.steps / 3); }
    } else {
      CutAfter(w, a);
    }
  }

  /******* Any number of runs *******/

  lemma MissedTwice(w0: World, w1: World, id: string, f1: set<string>, f2: set<string>)
    requires w1.ledger == Settled(w0.ledger, f1, Released)
    ensures Missed(w1.ledger, f2, id) == Missed(w0.ledger, f1 + f2, id)
  {
    MatchingMark(w0.ledger.rows, f1, {id}, Released);
    if id in f1 {
      assert {id} - f1 == {};
      MatchingNone(w0.ledger.rows, {});
    } else {
      assert {id} - f1 == {id};
    }
  }

  lemma PendingUnion(w0: World, w1: World, w2: World, f1: set<string>, f2: set<string>)
    requires Interruptible(w0) && Pending(w0, w1, f1) && Pending(w1, w2, f2)
    ensures Pending(w0, w2, f1 + f2)
  {
    PendingInterruptible(w0, w1, f1);
    SettledUnion(w0.ledger, f1, f2, Released);
    forall id | id in w2.orders ensures Underway(w0, f1 + f2, id, w2.orders[id]) {
      assert Underway(w0, f1, id, w1.orders[id]) && Underway(w1, f2, id, w2.orders[id]);
      MissedTwice(w0, w1, id, f1, f2);
    }
  }

  /** Runs of Resume, each ended by a crash; every one starts from its own query. */
  ghost function CutRuns(w: World, runs: seq<Attempt>): Option<World> {
    if runs == [] then Some(w)
    else match CutRuns(w, runs[..|runs| - 1])
      case None => None
      case Some(mid) => CutRun(mid, runs[|runs| - 1])
  }

  /** The orders one of whose releases arrived. */
  function AllArrived(w: World, runs: seq<Attempt>): set<string> {
    if runs == [] then {} else AllArrived(w, runs[..|runs| - 1]) + Arrived(w, runs[|runs| - 1])
  }

  ghost predicate NoneTears(runs: seq<Attempt>) {
    forall i :: 0 <= i < |runs| ==> !Tears(runs[i])
  }

  lemma NothingPending(w: World)
    requires w.mode == Down
    ensures Pending(w, w, {})
  {
    SettledNone(w.ledger, Released);
  }

  lemma SameArrivals(w0: World, w: World, freed: set<string>, ids: set<string>, fates: string -> Fate)
    requires Pending(w0, w, freed)
    ensures Arriving(w.orders, ids, fates) == Arriving(w0.orders, ids, fates)
  {
    forall id | id in w.orders
      ensures ResumeRequest(w.orders[id], Release).Some? <==> ResumeRequest(w0.orders[id], Release).Some?
    {
      assert Underway(w0, freed, id, w.orders[id]);
    }
  }

  lemma {:induction false} CutRunsPending(w: World, runs: seq<Attempt>)
    requires Interruptible(w) && CutRuns(w, runs).Some? && NoneTears(runs)
    ensures Pending(w, CutRuns(w, runs).value, AllArrived(w, runs))
  {
    if runs == [] {
      NothingPending(w);
    } else {
      var init, a := runs[..|runs| - 1], runs[|runs| - 1];
      var mid, freed := CutRuns(w, init).value, AllArrived(w, init);
      CutRunsPending(w, init);
      PendingInterruptible(w, mid, freed);
      CutRunPending(mid, a);
      SameArrivals(w, mid, freed, Sent(a), a.fates);
      PendingUnion(w, mid, CutRuns(w, runs).value, freed, Arrived(w, a));
    }
  }

  /** A Resume that is not cut short completes what the runs before it left. */
  lemma PendingResumed(w0: World, w: World, freed: set<string>, fates: string -> Fate)
    requires Interruptible(w0) && Pending(w0, w, freed)
    ensures Resumed(w, fates)
            == Finished(w0, InFlight(w0.orders), freed + Arriving(w0.orders, InFlight(w.orders), fates), Serving)
  {
    var more := Arriving(w.orders, InFlight(w.orders), fates);
    SameArrivals(w0, w, freed, InFlight(w.orders), fates);
    PendingInterruptible(w0, w, freed);
    SettledUnion(w0.ledger, freed, more, Released);
    var end := Finished(w0, InFlight(w0.orders), freed + more, Serving);
    forall id | id in w.orders ensures Resumed(w, fates).orders[id] == end.orders[id] {
      assert Underway(w0, freed, id, w.orders[id]);
      MissedTwice(w0, w, id, freed, more);
    }
    assert Resumed(w, fates).orders == end.orders;
  }

  /** One Resume in which exactly the releases of `freed` arrive. */
  function Once(freed: set<string>): string -> Fate {
    id => if id in freed then Delivered else RequestLost
  }

  lemma OnceResumed(w: World, freed: set<string>)
    requires freed <= ToRelease(w.orders, InFlight(w.orders))
    ensures Resumed(w, Once(freed)) == Finished(w, InFlight(w.orders), freed, Serving)
  {
    assert Arriving(w.orders, InFlight(w.orders), Once(freed)) == freed;
  }

  /** Cut runs without a tear and a last one are one Resume, in which a release arrives exactly if it
      arrived in one of them. */
  lemma RunsAreOne(w: World, runs: seq<Attempt>, todo: seq<string>, fates: string -> Fate)
    requires Interruptible(w) && CutRuns(w, runs).Some? && NoneTears(runs)
    requires Elements(todo) == InFlight(CutRuns(w, runs).value.orders)
    ensures Resumed(CutRuns(w, runs).value, fates)
            == Resumed(w, Once(AllArrived(w, runs) + Arriving(w.orders, Elements(todo), fates)))
  {
    var mid, freed := CutRuns(w, runs).value, AllArrived(w, runs);
    CutRunsPending(w, runs);
    PendingResumed(w, mid, freed, fates);
    PendingInterruptible(w, mid, freed);
    OnceResumed(w, freed + Arriving(w.orders, Elements(todo), fates));
  }

  /******* A torn order *******/

  predicate AtHeadOf(w: World, id: string) {
    w.mode.Resuming? && w.mode.todo != [] && w.mode.todo[0] == id
  }

  lemma TornRests(w: World, id: string)
    requires Inv(w) && id in w.orders && w.orders[id].history.torn
    ensures w.orders[id].pc.None? && !AtHeadOf(w, id)
  {
    assert OrderOk(id, w.orders[id], RowsOf(w.ledger.rows, id), SpotOf(w.mode, id));
  }

  lemma CrashLeaves(w: World, id: string)
    requires id in w.orders && w.orders[id].pc.None? && !AtHeadOf(w, id)
    ensures id in Next(w, Crash).value.orders && Next(w, Crash).value.orders[id] == w.orders[id]
  {
  }

  lemma RecoverLeaves(w: World, fate: Fate, id: string)
    requires id in w.orders && !AtHeadOf(w, id) && AtSaga(w)
    ensures id in RecoverHead(w, fate).orders && RecoverHead(w, fate).orders[id] == w.orders[id]
  {
  }

  lemma ExecuteLeaves(w: World, a: Action, id: string)
    requires Next(w, a).Some? && !a.Crash? && !a.Recover? && id in w.orders && w.orders[id].pc.None?
    ensures id in Next(w, a).value.orders && Next(w, a).value.orders[id] == w.orders[id]
  {
  }

  /** Nothing ever changes an order that a crash between the two writes of fail has torn. */
  lemma TornStep(w: World, a: Action, id: string)
    requires Inv(w) && Next(w, a).Some? && id in w.orders && w.orders[id].history.torn
    ensures id in Next(w, a).value.orders && Next(w, a).value.orders[id] == w.orders[id]
  {
    TornRests(w, id);
    match a
    case Crash => CrashLeaves(w, id);
    case Recover(fate) => RecoverLeaves(w, fate, id);
    case _ => ExecuteLeaves(w, a, id);
  }

  lemma ExecSnoc(actions: seq<Action>, a: Action)
    requires Exec(actions).Some?
    ensures Exec(actions + [a]) == Next(Exec(actions).value, a)
  {
    assert (actions + [a])[..|actions|] == actions;
  }

  lemma TornNext(actions: seq<Action>, a: Action, id: string)
    requires Exec(actions).Some? && Next(Exec(actions).value, a).Some?
    requires id in Exec(actions).value.orders && Exec(actions).value.orders[id].history.torn
    ensures id in Next(Exec(actions).value, a).value.orders
    ensures Next(Exec(actions).value, a).value.orders[id] == Exec(actions).value.orders[id]
  {
    Reachable(actions);
    TornStep(Exec(actions).value, a, id);
  }

  lemma {:induction false} TornStays(actions: seq<Action>, more: seq<Action>, id: string)
    requires Exec(actions + more).Some? && Exec(actions).Some?
    requires id in Exec(actions).value.orders && Exec(actions).value.orders[id].history.torn
    ensures id in Exec(actions + more).value.orders
    ensures Exec(actions + more).value.orders[id] == Exec(actions).value.orders[id]
  {
    if more == [] {
      assert actions + more == actions;
    } else {
      var init := more[..|more| - 1];
      assert (actions + more)[..|actions + more| - 1] == actions + init;
      TornStays(actions, init, id);
      TornNext(actions + init, more[|more| - 1], id);
    }
  }

  lemma TornLooks(actions: seq<Action>, id: string)
    requires Exec(actions).Some? && id in Exec(actions).value.orders
    requires Exec(actions).value.orders[id].history.torn
    ensures var x := Exec(actions).value.orders[id];
            x.status != Failed && x.saga.Some? && x.saga.value.status == SagaFailed
  {
    Reachable(actions);
    var w := Exec(actions).value;
    assert OrderOk(id, w.orders[id], RowsOf(w.ledger.rows, id), SpotOf(w.mode, id));
  }

  /** In every continuation of a run a torn order keeps its row and its saga: the saga stays FAILED and
      the order never gets there. */
  lemma TornForGood(actions: seq<Action>, more: seq<Action>, id: string)
    requires Exec(actions + more).Some? && Exec(actions).Some?
    requires id in Exec(actions).value.orders && Exec(actions).value.orders[id].history.torn
    ensures id in Exec(actions + more).value.orders
    ensures var x := Exec(actions + more).value.orders[id];
            && x == Exec(actions).value.orders[id] && x.status != Failed
            && x.saga.Some? && x.saga.value.status == SagaFailed
  {
    TornStays(actions, more, id);
    TornLooks(actions, id);
  }

  /******* The runs of Resume are runs of the machine *******/

  lemma RecoveredStep(w: World, n: nat, fates: string -> Fate)
    requires n > 0 && AtSaga(w)
    ensures var next := Next(w, Recover(fates(w.mode.todo[0])));
            next.Some? && Recovered(w, n, fates) == Recovered(next.value, n - 1, fates)
  {
  }

  lemma Regroup(actions: seq<Action>, first: seq<Action>, rest: seq<Action>)
    ensures Exec(actions + first + rest) == Exec(actions + (first + rest))
  {
    assert actions + first + rest == actions + (first + rest);
  }

  lemma {:induction false} RecoveredReached(actions: seq<Action>, n: nat, fates: string -> Fate)
    returns (moves: seq<Action>)
    requires Exec(actions).Some?
    ensures Exec(actions + moves) == Some(Recovered(Exec(actions).value, n, fates))
    decreases n
  {
    var w := Exec(actions).value;
    if n == 0 || !AtSaga(w) {
      moves := [];
      assert actions + moves == actions;
    } else {
      var first := [Recover(fates(w.mode.todo[0]))];
      RecoveredStep(w, n, fates);
      ExecSnoc(actions, first[0]);
      var rest := RecoveredReached(actions + first, n - 1, fates);
      Regroup(actions, first, rest);
      moves := first + rest;
    }
  }

  lemma RestartedReached(actions: seq<Action>, todo: seq<string>, n: nat, fates: string -> Fate)
    returns (moves: seq<Action>)
    requires Exec(actions).Some? && Next(Exec(actions).value, Restart(todo)).Some?
    ensures Exec(actions + [Restart(todo)] + moves)
            == Some(Recovered(Next(Exec(actions).value, Restart(todo)).value, n, fates))
  {
    ExecSnoc(actions, Restart(todo));
    moves := RecoveredReached(actions + [Restart(todo)], n, fates);
  }

  lemma CutRunReached(actions: seq<Action>, a: Attempt) returns (moves: seq<Action>)
    requires Exec(actions).Some? && CutRun(Exec(actions).value, a).Some?
    ensures Exec(actions + moves) == CutRun(Exec(actions).value, a)
  {
    var rest := RestartedReached(actions, a.todo, a.steps, a.fates);
    ExecSnoc(actions + [Restart(a.todo)] + rest, Crash);
    moves := [Restart(a.todo)] + rest + [Crash];
    assert actions + moves == actions + [Restart(a.todo)] + rest + [Crash];
  }

  lemma FullRunReached(actions: seq<Action>, todo: seq<string>, fates: string -> Fate) returns (moves: seq<Action>)
    requires Exec(actions).Some? && FullRun(Exec(actions).value, todo, fates).Some?
    ensures Exec(actions + moves) == FullRun(Exec(actions).value, todo, fates)
  {
    var rest := RestartedReached(actions, todo, 3 * |todo|, fates);
    moves := [Restart(todo)] + rest;
    Regroup(actions, [Restart(todo)], rest);
  }

  lemma CutRunsSnoc(w: World, runs: seq<Attempt>)
    requires runs != [] && CutRuns(w, runs).Some?
    ensures var init := runs[..|runs| - 1];
            CutRuns(w, init).Some? && CutRun(CutRuns(w, init).value, runs[|runs| - 1]) == CutRuns(w, runs)
  {
  }

  lemma {:induction false} CutRunsReached(actions: seq<Action>, runs: seq<Attempt>) returns (moves: seq<Action>)
    requires Exec(actions).Some? && CutRuns(Exec(actions).value, runs).Some?
    ensures Exec(actions + moves) == CutRuns(Exec(actions).value, runs)
  {
    if runs == [] {
      moves := [];
      assert actions + moves == actions;
    } else {
      CutRunsSnoc(Exec(actions).value, runs);
      var first := CutRunsReached(actions, runs[..|runs| - 1]);
      var second := CutRunReached(actions + first, runs[|runs| - 1]);
      moves := first + second;
      Regroup(actions, first, second);
    }
  }

  lemma DownIsInterruptible(actions: seq<Action>)
    requires Exec(actions).Some? && Exec(actions).value.mode == Down
    ensures Interruptible(Exec(actions).value)
  {
    var w := Exec(actions).value;
    Reachable(actions);
    forall id | id in w.orders
      ensures w.orders[id].pc.None?
      ensures SagaInProgress(w.orders[id]) ==> Open(id, w.orders[id])
    {
      assert OrderOk(id, w.orders[id], RowsOf(w.ledger.rows, id), Offline);
    }
  }

  lemma CutRunsDown(w: World, runs: seq<Attempt>)
    requires w.mode == Down && CutRuns(w, runs).Some?
    ensures CutRuns(w, runs).value.mode == Down
  {
  }

  predicate IsTorn(w: World, id: string) {
    id in w.orders && w.orders[id].history.torn && w.orders[id].status != Failed
  }

  lemma CrashTears(mid: World, fate: Fate)
    requires Ready(mid) && mid.orders[mid.mode.todo[0]].pc.None?
    ensures Next(HalfClosed(mid, fate), Crash).Some?
    ensures IsTorn(Next(HalfClosed(mid, fate), Crash).value, mid.mode.todo[0])
  {
    assert Open(mid.mode.todo[0], mid.orders[mid.mode.todo[0]]);
  }

  lemma HeadQuiet(w: World, j: nat, fates: string -> Fate)
    requires Ready(w) && Quiet(w) && j < |w.mode.todo|
    ensures var mid := AtNext(w, j, fates);
            && Ready(mid) && mid.mode.todo[0] == w.mode.todo[j]
            && mid.orders[mid.mode.todo[0]].pc.None?
  {
    RestIsReady(w, j, fates);
    assert w.mode.todo[j] in w.mode.todo;
  }

  lemma StandingTorn(w: World, j: nat, fates: string -> Fate)
    requires Ready(w) && Quiet(w) && j < |w.mode.todo|
    ensures var at := Recovered(w, 3 * j + 2, fates);
            Next(at, Crash).Some? && IsTorn(Next(at, Crash).value, w.mode.todo[j])
  {
    HeadQuiet(w, j, fates);
    CrashTears(AtNext(w, j, fates), fates(w.mode.todo[j]));
    StandsInside(w, j, fates);
  }

  /** A torn run leaves an order behind that was in flight. */
  lemma CutRunTears(w: World, a: Attempt) returns (id: string)
    requires Interruptible(w) && CutRun(w, a).Some? && Tears(a)
    ensures id in InFlight(w.orders) && IsTorn(CutRun(w, a).value, id)
  {
    id := a.todo[a.steps / 3];
    assert id in a.todo;
    SelectedIsReady(w, a.todo);
    StandingTorn(w.(mode := NextMode(a.todo)), a.steps / 3, a.fates);
  }

  lemma LastRunTears(actions: seq<Action>, runs: seq<Attempt>) returns (id: string)
    requires Exec(actions).Some? && Exec(actions).value.mode == Down && CutRuns(Exec(actions).value, runs).Some?
    requires runs != [] && NoneTears(runs[..|runs| - 1]) && Tears(runs[|runs| - 1])
    ensures id in InFlight(Exec(actions).value.orders) && IsTorn(CutRuns(Exec(actions).value, runs).value, id)
  {
    var w, init := Exec(actions).value, runs[..|runs| - 1];
    DownIsInterruptible(actions);
    CutRunsPending(w, init);
    PendingInterruptible(w, CutRuns(w, init).value, AllArrived(w, init));
    id := CutRunTears(CutRuns(w, init).value, runs[|runs| - 1]);
  }

  lemma {:induction false} RunsTear(actions: seq<Action>, runs: seq<Attempt>) returns (id: string)
    requires Exec(actions).Some? && Exec(actions).value.mode == Down && CutRuns(Exec(actions).value, runs).Some?
    requires !NoneTears(runs)
    ensures id in InFlight(Exec(actions).value.orders) && IsTorn(CutRuns(Exec(actions).value, runs).value, id)
  {
    var init := runs[..|runs| - 1];
    if NoneTears(init) {
      id := LastRunTears(actions, runs);
    } else {
      id := RunsTear(actions, init);
      var first := CutRunsReached(actions, init);
      var second := CutRunReached(actions + first, runs[|runs| - 1]);
      TornStays(actions + first, second, id);
    }
  }

  lemma OpenIsClosed(w: World, fates: string -> Fate, id: string)
    requires id in InFlight(w.orders)
    ensures id in Resumed(w, fates).orders && Resumed(w, fates).orders[id].status == Failed
  {
  }

  lemma TornIsNotResumed(w: World, actions: seq<Action>, id: string, todo: seq<string>, fates: string -> Fate,
      once: string -> Fate)
    requires Exec(actions).Some? && Interruptible(Exec(actions).value) && Selected(Exec(actions).value, todo)
    requires id in InFlight(w.orders) && IsTorn(Exec(actions).value, id)
    ensures Resumed(Exec(actions).value, fates) != Resumed(w, once)
  {
    FullRunIs(Exec(actions).value, todo, fates);
    var moves := FullRunReached(actions, todo, fates);
    TornStays(actions, moves, id);
    OpenIsClosed(w, once, id);
  }

  lemma RerunDecided(actions: seq<Action>, runs: seq<Attempt>, todo: seq<string>, fates: string -> Fate)
    requires Exec(actions).Some? && Exec(actions).value.mode == Down
    requires CutRuns(Exec(actions).value, runs).Some? && Selected(CutRuns(Exec(actions).value, runs).value, todo)
    ensures var w := Exec(actions).value;
            var last := CutRuns(w, runs).value;
            var arrived := AllArrived(w, runs) + Arriving(w.orders, Elements(todo), fates);
            && Interruptible(w) && Interruptible(last)
            && (Resumed(last, fates) == Resumed(w, Once(arrived)) <==> NoneTears(runs))
  {
    var w := Exec(actions).value;
    var last := CutRuns(w, runs).value;
    var moves := CutRunsReached(actions, runs);
    CutRunsDown(w, runs);
    DownIsInterruptible(actions);
    DownIsInterruptible(actions + moves);
    SelectedIsReady(last, todo);
    if NoneTears(runs) {
      RunsAreOne(w, runs, todo, fates);
    } else {
      var id := RunsTear(actions, runs);
      TornIsNotResumed(w, actions + moves, id, todo, fates,
          Once(AllArrived(w, runs) + Arriving(w.orders, Elements(todo), fates)));
    }
  }

  /** Resume stopped by crashes any number of times, each time after any number of statements and with
      any of its releases lost, and then run to its end: the stock, every saga and every order end as
      after one Resume that was not stopped and in which a release arrives exactly if it arrived in
      one of the runs; if and only if no crash fell between the two writes of fail. */
  lemma ResumeRerun(actions: seq<Action>, runs: seq<Attempt>, todo: seq<string>, fates: string -> Fate,
      uncut: seq<string>)
    requires Exec(actions).Some? && Exec(actions).value.mode == Down && Selected(Exec(actions).value, uncut)
    requires CutRuns(Exec(actions).value, runs).Some? && Selected(CutRuns(Exec(actions).value, runs).value, todo)
    ensures var w := Exec(actions).value;
            var once := Once(AllArrived(w, runs) + Arriving(w.orders, Elements(todo), fates));
            && FullRun(w, uncut, once).Some?
            && (FullRun(CutRuns(w, runs).value, todo, fates) == FullRun(w, uncut, once) <==> NoneTears(runs))
  {
    var w := Exec(actions).value;
    RerunDecided(actions, runs, todo, fates);
    FullRunIs(w, uncut, Once(AllArrived(w, runs) + Arriving(w.orders, Elements(todo), fates)));
    FullRunIs(CutRuns(w, runs).value, todo, fates);
  }

  /******* Such an input *******/

  /** The order's Execute has crashed before its reserve. */
  function Crashed(): World {
    var x := ToReserve(CallReserve, Reserving);
    World(STOCKED, map["o" := x.(pc := None, history := CLEAN.(crashedAt := Some(CallReserve)))], Down)
  }

  lemma CrashesAlone()
    ensures Next(Alone(STOCKED, ToReserve(CallReserve, Reserving)), Crash) == Some(Crashed())
  {
    var w := Alone(STOCKED, ToReserve(CallReserve, Reserving));
    assert Next(w, Crash).value.orders == Crashed().orders;
  }

  lemma CrashesBeforeReserve() returns (actions: seq<Action>)
    ensures Exec(actions) == Some(Crashed())
  {
    var before := ReachesReserve();
    CrashesAlone();
    ExecSnoc(before, Crash);
    actions := before + [Crash];
  }

  const ONE_CUT := Attempt(["o"], 2, _ => Delivered)

  lemma CutsBetweenTheWrites()
    ensures CutRun(Crashed(), ONE_CUT).Some? && Tears(ONE_CUT)
  {
    assert "o" in Crashed().orders && SagaInProgress(Crashed().orders["o"]);
    assert Selected(Crashed(), ["o"]);
  }

  /** A crash, and a Resume that a second crash ends between the two writes of fail: whatever follows,
      the saga is FAILED and the order never is. */
  lemma CutTearsForGood() returns (actions: seq<Action>, moves: seq<Action>)
    ensures Exec(actions) == Some(Crashed()) && Exec(actions + moves) == CutRun(Crashed(), ONE_CUT)
    ensures CutRun(Crashed(), ONE_CUT).Some? && Tears(ONE_CUT)
    ensures forall more: seq<Action> :: Exec(actions + moves + more).Some? ==>
              var w := Exec(actions + moves + more).value;
              && "o" in w.orders && w.orders["o"].status != Failed
              && w.orders["o"].saga.Some? && w.orders["o"].saga.value.status == SagaFailed
  {
    actions := CrashesBeforeReserve();
    CutsBetweenTheWrites();
    moves := CutRunReached(actions, ONE_CUT);
    DownIsInterruptible(actions);
    var id := CutRunTears(Crashed(), ONE_CUT);
    forall more: seq<Action> | Exec(actions + moves + more).Some?
      ensures var w := Exec(actions + moves + more).value;
              && id in w.orders && w.orders[id].status != Failed
              && w.orders[id].saga.Some? && w.orders[id].saga.value.status == SagaFailed
    {
      TornForGood(actions + moves, more, id);
    }
  }
}
