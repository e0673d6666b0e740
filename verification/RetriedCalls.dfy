/**
What the client-side retry does to a call of the inventory service, whose reply may be lost.

A release or decrement may be retried: however many attempts reach the server, and whatever other
orders do between them, the ledger is as if one attempt had. A reserve may be retried as long as the
stock has no room for it a second time: every attempt that commits adds the order's rows again.
*/
module RetriedCalls {
  import opened StockLedger
  import opened LedgerTheorems
  import opened SagaProtocol
  import R = Retry

  /** One attempt: what other orders commit before it reaches the server, its fate, and the code that
      the caller's stub reports if the request or the reply is lost. */
  datatype Try = Try(before: seq<Op>, fate: Fate, lost: R.Code)

  /** The server's status for a refused transaction. */
  function CodeOf(f: Failure): R.Code {
    match f
    case NotFound => R.Code.NotFound
    case InsufficientStock => R.Code.FailedPrecondition
    case InvalidReservation => R.Code.NotFound
    case DbError => R.Code.Internal
  }

  function Ask(l: Ledger, op: Op, t: Try): Call {
    Send(Run(l, t.before), op, t.fate)
  }

  function LedgerAfter(l: Ledger, op: Op, tries: seq<Try>): Ledger {
    if tries == [] then l
    else Ask(LedgerAfter(l, op, tries[..|tries| - 1]), op, tries[|tries| - 1]).ledger
  }

  /** How many attempts took effect. */
  function Commits(l: Ledger, op: Op, tries: seq<Try>): nat {
    if tries == [] then 0
    else
      var init, last := tries[..|tries| - 1], tries[|tries| - 1];
      Commits(l, op, init) + if Ask(LedgerAfter(l, op, init), op, last).effect then 1 else 0
  }

  /** What the caller's stub reports for the i-th attempt. */
  function OutcomeOf(l: Ledger, op: Op, tries: seq<Try>, i: nat): R.Outcome
    requires i < |tries|
  {
    var m := Run(LedgerAfter(l, op, tries[..i]), tries[i].before);
    if tries[i].fate != Delivered then R.Failure(tries[i].lost)
    else match Apply(m, op) case Ok(_) => R.Success case Err(e) => R.Failure(CodeOf(e))
  }

  /** Exactly the lost messages with a transient code are retried; the server's refusals never are,
      nor is a call that the caller's own context cut off. */
  lemma RetriedIfLost(l: Ledger, op: Op, tries: seq<Try>, i: nat)
    requires i < |tries|
    ensures R.Again(OutcomeOf(l, op, tries, i)) <==> tries[i].fate != Delivered && R.IsTransient(tries[i].lost)
  {
  }

  lemma OneItem(m: Ledger, o: string, items: seq<Item>)
    requires Valid(m) && |items| == 1 && items[0].quantity > 0
    ensures var x := items[0];
            Apply(m, ReserveOp(o, items)) ==
              if x.product !in m.products then Err(NotFound)
              else if m.products[x.product].available - m.products[x.product].reserved < x.quantity
              then Err(InsufficientStock)
              else Ok(ReserveEffect(m, o, items))
  {
    ReserveExact(m, o, items);
    assert items[..0] == [] && ReserveAll(m, o, []) == Ok(m);
    if items[0].product in m.products { NoOverflow(m, items[0].product); }
  }

  /** What the server says to an attempt that is delivered: to a reserve of one item, that its product is
      unknown, or its stock too short; to a release or decrement, that nothing is reserved. */
  lemma ToldWhy(l: Ledger, op: Op, tries: seq<Try>, i: nat)
    requires i < |tries| && tries[i].fate == Delivered && Valid(Run(LedgerAfter(l, op, tries[..i]), tries[i].before))
    ensures var m, o := Run(LedgerAfter(l, op, tries[..i]), tries[i].before), OutcomeOf(l, op, tries, i);
            && (op.ReserveOp? && |op.items| == 1 && op.items[0].quantity > 0 ==>
                  var x := op.items[0];
                  if x.product !in m.products then o == R.Failure(R.Code.NotFound)
                  else if m.products[x.product].available - m.products[x.product].reserved < x.quantity
                  then o == R.Failure(R.FailedPrecondition)
                  else o == R.Success)
            && (op.SettleOp? && Matching(m.rows, {op.order}) == [] ==> o == R.Failure(R.Code.NotFound))
            && (Apply(m, op) == Err(DbError) ==> o == R.Failure(R.Code.Internal))
  {
    var m := Run(LedgerAfter(l, op, tries[..i]), tries[i].before);
    if op.ReserveOp? && |op.items| == 1 && op.items[0].quantity > 0 { OneItem(m, op.order, op.items); }
  }

  /** The attempts are those a retried call makes, by the contract of the retry loop. */
  ghost predicate Made(maxRetries: nat, ended: nat -> bool, l: Ledger, op: Op, tries: seq<Try>, v: R.Verdict) {
    tries != [] &&
    R.Returns(maxRetries, i => if 0 <= i < |tries| then OutcomeOf(l, op, tries, i) else R.Success, ended, |tries|, v)
  }

  /******* One attempt takes effect *******/

  /** The first attempt that took effect, or the number of attempts. */
  function FirstEffect(l: Ledger, op: Op, tries: seq<Try>): (f: nat)
    ensures f <= |tries|
  {
    if tries == [] then 0
    else
      var init, last := tries[..|tries| - 1], tries[|tries| - 1];
      var f := FirstEffect(l, op, init);
      if f < |init| then f
      else if Ask(LedgerAfter(l, op, init), op, last).effect then |init|
      else |tries|
  }

  function Before(tries: seq<Try>): seq<Op> {
    if tries == [] then [] else Before(tries[..|tries| - 1]) + tries[|tries| - 1].before
  }

  /** All that commits if the f-th attempt is the only one that takes effect. */
  function AsOne(op: Op, tries: seq<Try>, f: nat): seq<Op>
    requires f <= |tries|
  {
    if f == |tries| then Before(tries) else Before(tries[..f + 1]) + [op] + Before(tries[f + 1..])
  }

  lemma AsOneSnoc(op: Op, tries: seq<Try>, f: nat)
    requires tries != [] && f < |tries| - 1
    ensures AsOne(op, tries, f) == AsOne(op, tries[..|tries| - 1], f) + tries[|tries| - 1].before
  {
    var init, last := tries[..|tries| - 1], tries[|tries| - 1];
    assert tries[..f + 1] == init[..f + 1];
    assert tries[f + 1..][..|tries| - f - 2] == init[f + 1..];
    assert Before(tries[f + 1..]) == Before(init[f + 1..]) + last.before;
  }

  lemma OpLast(l: Ledger, op: Op, tries: seq<Try>)
    requires tries != []
    ensures AsOne(op, tries, |tries| - 1) == Before(tries) + [op]
    ensures Run(l, Before(tries) + [op]) == After(Run(l, Before(tries)), op)
  {
    assert tries[..|tries| - 1 + 1] == tries && tries[|tries| - 1 + 1..] == [];
    assert (Before(tries) + [op])[..|Before(tries)|] == Before(tries);
  }

  lemma {:induction false} EffectCounts(l: Ledger, op: Op, tries: seq<Try>)
    ensures Commits(l, op, tries) == 0 <==> FirstEffect(l, op, tries) == |tries|
  {
    if tries == [] {
    } else {
      EffectCounts(l, op, tries[..|tries| - 1]);
    }
  }

  lemma LastInVain(l: Ledger, op: Op, tries: seq<Try>)
    requires tries != []
    requires var init := tries[..|tries| - 1];
             && LedgerAfter(l, op, init) == Run(l, AsOne(op, init, FirstEffect(l, op, init)))
             && !Ask(LedgerAfter(l, op, init), op, tries[|tries| - 1]).effect
    ensures LedgerAfter(l, op, tries) == Run(l, AsOne(op, tries, FirstEffect(l, op, tries)))
  {
    var init, last := tries[..|tries| - 1], tries[|tries| - 1];
    var f := FirstEffect(l, op, init);
    RunConcat(l, AsOne(op, init, f), last.before);
    if f < |init| { AsOneSnoc(op, tries, f); }
  }

  lemma LastInEffect(l: Ledger, op: Op, tries: seq<Try>)
    requires tries != []
    requires var init := tries[..|tries| - 1];
             && LedgerAfter(l, op, init) == Run(l, Before(init)) && FirstEffect(l, op, init) == |init|
             && Ask(LedgerAfter(l, op, init), op, tries[|tries| - 1]).effect
    ensures LedgerAfter(l, op, tries) == Run(l, AsOne(op, tries, FirstEffect(l, op, tries)))
  {
    RunConcat(l, Before(tries[..|tries| - 1]), tries[|tries| - 1].before);
    OpLast(l, op, tries);
  }

  /** If at most one attempt takes effect, the ledger is exactly as if only that attempt had been
      made, among what the others commit. */
  lemma {:induction false} OnceIsAsOne(l: Ledger, op: Op, tries: seq<Try>)
    requires Commits(l, op, tries) <= 1
    ensures LedgerAfter(l, op, tries) == Run(l, AsOne(op, tries, FirstEffect(l, op, tries)))
  {
    if tries == [] {
    } else {
      var init := tries[..|tries| - 1];
      OnceIsAsOne(l, op, init);
      EffectCounts(l, op, init);
      if Ask(LedgerAfter(l, op, init), op, tries[|tries| - 1]).effect {
        LastInEffect(l, op, tries);
      } else {
        LastInVain(l, op, tries);
      }
    }
  }

  /** Whether the last attempt was answered with a success. */
  predicate Answered(l: Ledger, op: Op, tries: seq<Try>)
    requires tries != []
  {
    Ask(LedgerAfter(l, op, tries[..|tries| - 1]), op, tries[|tries| - 1]).answered
  }

  /** The caller of a retried call is told of a success exactly if its last attempt is answered so. */
  lemma ReportIsLast(maxRetries: nat, ended: nat -> bool, l: Ledger, op: Op, tries: seq<Try>, v: R.Verdict)
    requires Made(maxRetries, ended, l, op, tries, v)
    ensures v == R.FromCall(R.Success) <==> Answered(l, op, tries)
  {
  }

  /** Told of a success, exactly if the attempt that took effect was the last and its reply arrived. */
  lemma AnsweredIsLast(l: Ledger, op: Op, tries: seq<Try>)
    requires tries != [] && Commits(l, op, tries) <= 1
    ensures Answered(l, op, tries) <==> tries[|tries| - 1].fate == Delivered && FirstEffect(l, op, tries) == |tries| - 1
  {
    EffectCounts(l, op, tries[..|tries| - 1]);
  }

  /** Up to its first effect a call has left the ledger to the others. */
  lemma {:induction false} UntilFirstEffect(l: Ledger, op: Op, tries: seq<Try>)
    requires FirstEffect(l, op, tries) < |tries|
    ensures var f := FirstEffect(l, op, tries);
            Ask(Run(l, Before(tries[..f])), op, tries[f]).effect
  {
    var init := tries[..|tries| - 1];
    var f := FirstEffect(l, op, init);
    if f < |init| {
      UntilFirstEffect(l, op, init);
      assert tries[..f] == init[..f];
    } else {
      EffectCounts(l, op, init);
      OnceIsAsOne(l, op, init);
    }
  }

  /** The single attempt that a retried call amounts to: its place among the attempts, and its fate. */
  function Place(l: Ledger, op: Op, tries: seq<Try>): nat
    requires tries != []
  {
    var f := FirstEffect(l, op, tries);
    if f < |tries| then f else |tries| - 1
  }

  function FateOfAll(l: Ledger, op: Op, tries: seq<Try>): Fate
    requires tries != []
  {
    if FirstEffect(l, op, tries) < |tries| - 1 then ReplyLost else tries[|tries| - 1].fate
  }

  lemma SplitAtPlace(l: Ledger, op: Op, tries: seq<Try>, f: nat)
    requires f < |tries|
    ensures Run(l, AsOne(op, tries, f)) == Run(After(Run(l, Before(tries[..f + 1])), op), Before(tries[f + 1..]))
  {
    var head := Before(tries[..f + 1]);
    assert (head + [op])[..|head|] == head;
    RunConcat(l, head + [op], Before(tries[f + 1..]));
  }

  lemma FoundAtFirst(l: Ledger, tries: seq<Try>, f: nat)
    requires f < |tries|
    ensures Run(Run(l, Before(tries[..f])), tries[f].before) == Run(l, Before(tries[..f + 1]))
  {
    assert tries[..f + 1][..f] == tries[..f];
    RunConcat(l, Before(tries[..f]), tries[f].before);
  }

  lemma NoEffectAtAll(l: Ledger, op: Op, tries: seq<Try>)
    requires tries != [] && Commits(l, op, tries) == 0
    ensures !Send(Run(l, Before(tries)), op, tries[|tries| - 1].fate).effect
  {
    var init, last := tries[..|tries| - 1], tries[|tries| - 1];
    EffectCounts(l, op, init);
    OnceIsAsOne(l, op, init);
    RunConcat(l, Before(init), last.before);
  }

  /** For the ledger and for the caller, all attempts are this one. */
  predicate Amounts(l: Ledger, op: Op, tries: seq<Try>, k: nat, one: Call)
    requires k < |tries|
  {
    && LedgerAfter(l, op, tries) == Run(one.ledger, Before(tries[k + 1..]))
    && (one.answered <==> Answered(l, op, tries))
    && (one.effect <==> Commits(l, op, tries) == 1)
  }

  /** The single attempt, sent at its place. */
  function OneCall(l: Ledger, op: Op, tries: seq<Try>): Call
    requires tries != []
  {
    Send(Run(l, Before(tries[..Place(l, op, tries) + 1])), op, FateOfAll(l, op, tries))
  }

  /** The attempt that took effect, as it was: it found the ledger that the single attempt finds. */
  lemma SingleAttempt(l: Ledger, op: Op, tries: seq<Try>, f: nat)
    requires f < |tries| && f == FirstEffect(l, op, tries)
    ensures OneCall(l, op, tries) == Send(Run(l, Before(tries[..f + 1])), op, FateOfAll(l, op, tries))
    ensures OneCall(l, op, tries).effect
    ensures OneCall(l, op, tries).ledger == After(Run(l, Before(tries[..f + 1])), op)
  {
    UntilFirstEffect(l, op, tries);
    FoundAtFirst(l, tries, f);
  }

  lemma FromThePlace(l: Ledger, op: Op, tries: seq<Try>, f: nat, all: Ledger, one: Ledger)
    requires f < |tries| && all == Run(l, AsOne(op, tries, f)) && one == After(Run(l, Before(tries[..f + 1])), op)
    ensures all == Run(one, Before(tries[f + 1..]))
  {
    SplitAtPlace(l, op, tries, f);
  }

  lemma SingleLedger(l: Ledger, op: Op, tries: seq<Try>, f: nat)
    requires f < |tries| && f == FirstEffect(l, op, tries) && Commits(l, op, tries) == 1
    ensures LedgerAfter(l, op, tries) == Run(OneCall(l, op, tries).ledger, Before(tries[f + 1..]))
  {
    SingleAttempt(l, op, tries, f);
    OnceIsAsOne(l, op, tries);
    FromThePlace(l, op, tries, f, LedgerAfter(l, op, tries), OneCall(l, op, tries).ledger);
  }

  lemma SingleAnswer(l: Ledger, op: Op, tries: seq<Try>, f: nat)
    requires f < |tries| && f == FirstEffect(l, op, tries) && Commits(l, op, tries) == 1
    ensures OneCall(l, op, tries).answered <==> Answered(l, op, tries)
  {
    SingleAttempt(l, op, tries, f);
    AnsweredIsLast(l, op, tries);
  }

  lemma OneEffect(l: Ledger, op: Op, tries: seq<Try>)
    requires tries != [] && Commits(l, op, tries) == 1
    ensures Amounts(l, op, tries, Place(l, op, tries), OneCall(l, op, tries))
  {
    var f := FirstEffect(l, op, tries);
    EffectCounts(l, op, tries);
    SingleAttempt(l, op, tries, f);
    SingleLedger(l, op, tries, f);
    SingleAnswer(l, op, tries, f);
  }

  lemma NoEffect(l: Ledger, op: Op, tries: seq<Try>)
    requires tries != [] && Commits(l, op, tries) == 0
    ensures Amounts(l, op, tries, Place(l, op, tries), OneCall(l, op, tries))
  {
    EffectCounts(l, op, tries);
    OnceIsAsOne(l, op, tries);
    AnsweredIsLast(l, op, tries);
    NoEffectAtAll(l, op, tries);
    assert tries[..|tries| - 1 + 1] == tries && tries[|tries| - 1 + 1..] == [];
  }

  /** A retried call of which at most one attempt takes effect is one attempt, for the ledger as for
      its caller: it is sent among the same transactions of others, with its own place and fate. */
  lemma OnceIsOneAttempt(l: Ledger, op: Op, tries: seq<Try>)
    requires tries != [] && Commits(l, op, tries) <= 1
    ensures Amounts(l, op, tries, Place(l, op, tries), OneCall(l, op, tries))
  {
    if Commits(l, op, tries) == 1 { OneEffect(l, op, tries); } else { NoEffect(l, op, tries); }
  }

  /******* What the others do in between *******/

  ghost predicate OthersOnly(tries: seq<Try>, o: string) {
    forall i, j :: 0 <= i < |tries| && 0 <= j < |tries[i].before| ==>
      WellFormed(tries[i].before[j]) && !On(tries[i].before[j], o)
  }

  lemma OthersOnlyPart(tries: seq<Try>, o: string, i: nat)
    requires OthersOnly(tries, o) && i < |tries|
    ensures AllWellFormed(tries[i].before) && NoReserve(tries[i].before, o)
    ensures forall j :: 0 <= j < |tries[i].before| ==> !Settles(tries[i].before[j], o)
  {
  }

  /** Other orders' transactions do not touch what o holds. */
  lemma OthersKeepHold(l: Ledger, tries: seq<Try>, o: string, i: nat)
    requires Valid(l) && OthersOnly(tries, o) && i < |tries|
    ensures Valid(Run(l, tries[i].before))
    ensures Matching(Run(l, tries[i].before).rows, {o}) == Matching(l.rows, {o})
  {
    OthersOnlyPart(tries, o, i);
    RunFromValid(l, tries[i].before);
    HoldUntilSettled(l, tries[i].before, o);
  }

  lemma AskValid(l: Ledger, op: Op, tries: seq<Try>, o: string, i: nat)
    requires Valid(l) && WellFormed(op) && OthersOnly(tries, o) && i < |tries|
    ensures Valid(Ask(l, op, tries[i]).ledger)
  {
    OthersKeepHold(l, tries, o, i);
    ApplyValid(Run(l, tries[i].before), op);
  }

  lemma {:induction false} RetriedValid(l: Ledger, op: Op, tries: seq<Try>, o: string)
    requires Valid(l) && WellFormed(op) && OthersOnly(tries, o)
    ensures Valid(LedgerAfter(l, op, tries))
  {
    if tries == [] {
    } else {
      RetriedValid(l, op, tries[..|tries| - 1], o);
      AskValid(LedgerAfter(l, op, tries[..|tries| - 1]), op, tries, o, |tries| - 1);
    }
  }

  lemma {:induction false} BeforeWellFormed(tries: seq<Try>, o: string)
    requires OthersOnly(tries, o)
    ensures AllWellFormed(Before(tries))
  {
    if tries == [] {
    } else {
      BeforeWellFormed(tries[..|tries| - 1], o);
      OthersOnlyPart(tries, o, |tries| - 1);
    }
  }

  /******* Release and decrement *******/

  lemma SettleEmpties(m: Ledger, o: string, kind: Status)
    requires kind != Reserved
    ensures Apply(m, SettleOp(o, kind)).Ok? <==> Matching(m.rows, {o}) != []
    ensures Matching(After(m, SettleOp(o, kind)).rows, {o}) == []
  {
    if Matching(m.rows, {o}) != [] {
      MatchingMark(m.rows, {o}, {o}, kind);
      MatchingNone(m.rows, {});
      assert {o} - {o} == {};
    }
  }

  lemma {:induction false} HoldGone(l: Ledger, o: string, kind: Status, tries: seq<Try>)
    requires Valid(l) && kind != Reserved && OthersOnly(tries, o)
    ensures var op := SettleOp(o, kind);
            && Commits(l, op, tries) == (if FirstEffect(l, op, tries) < |tries| then 1 else 0)
            && (FirstEffect(l, op, tries) < |tries| ==> Matching(LedgerAfter(l, op, tries).rows, {o}) == [])
  {
    if tries == [] {
    } else {
      var op := SettleOp(o, kind);
      var init, last := tries[..|tries| - 1], tries[|tries| - 1];
      HoldGone(l, o, kind, init);
      var mid := LedgerAfter(l, op, init);
      RetriedValid(l, op, init, o);
      OthersKeepHold(mid, tries, o, |tries| - 1);
      SettleEmpties(Run(mid, last.before), o, kind);
    }
  }

  /** At most one attempt of a release or decrement takes effect, and the ledger is exactly as if
      only that attempt had been made, among the other orders' transactions. */
  lemma RetriedSettleIsOne(l: Ledger, o: string, kind: Status, tries: seq<Try>)
    requires Valid(l) && kind != Reserved && OthersOnly(tries, o)
    ensures var op := SettleOp(o, kind);
            && Commits(l, op, tries) <= 1
            && LedgerAfter(l, op, tries) == Run(l, AsOne(op, tries, FirstEffect(l, op, tries)))
  {
    HoldGone(l, o, kind, tries);
    OnceIsAsOne(l, SettleOp(o, kind), tries);
  }

  /** The caller of a retried release or decrement is told of a success exactly if the attempt that
      took effect was the last one and its reply arrived; otherwise it is told of a failure even
      if the effect is there. */
  lemma SettleReport(maxRetries: nat, ended: nat -> bool, l: Ledger, o: string, kind: Status, tries: seq<Try>,
      v: R.Verdict)
    requires Valid(l) && kind != Reserved && OthersOnly(tries, o)
    requires Made(maxRetries, ended, l, SettleOp(o, kind), tries, v)
    ensures v == R.FromCall(R.Success)
            <==> tries[|tries| - 1].fate == Delivered && FirstEffect(l, SettleOp(o, kind), tries) == |tries| - 1
  {
    HoldGone(l, o, kind, tries);
    ReportIsLast(maxRetries, ended, l, SettleOp(o, kind), tries, v);
    AnsweredIsLast(l, SettleOp(o, kind), tries);
  }

  /******* Reserve *******/

  /** The first attempt that reaches the server and fits, on what the others alone have committed; or
      the number of attempts. */
  ghost function FirstLanding(l: Ledger, items: seq<Item>, tries: seq<Try>): (f: nat)
    ensures f <= |tries|
  {
    if tries == [] then 0
    else
      var f := FirstLanding(l, items, tries[..|tries| - 1]);
      if f < |tries| - 1 then f
      else if Lands(Run(l, Before(tries)), items, tries[|tries| - 1].fate) then |tries| - 1
      else |tries|
  }

  /** What the last attempt finds if the f-th took effect: what the others have committed, and the
      reserve once. */
  function FoundLater(l: Ledger, o: string, items: seq<Item>, tries: seq<Try>, f: nat): Ledger
    requires f < |tries| - 1
  {
    Run(l, AsOne(ReserveOp(o, items), tries[..|tries| - 1], f) + tries[|tries| - 1].before)
  }

  /** The last attempt lands although the f-th has. */
  ghost predicate LandsAgain(l: Ledger, o: string, items: seq<Item>, tries: seq<Try>, f: nat)
    requires f < |tries| - 1
  {
    Lands(FoundLater(l, o, items, tries, f), items, tries[|tries| - 1].fate)
  }

  /** No attempt after the f-th lands again. */
  ghost predicate NoneAgain(l: Ledger, o: string, items: seq<Item>, tries: seq<Try>, f: nat) {
    |tries| <= f + 1
    || (NoneAgain(l, o, items, tries[..|tries| - 1], f) && !LandsAgain(l, o, items, tries, f))
  }

  /** No attempt after the first that landed reaches the server with room for the items once more. */
  ghost predicate NoRoomTwice(l: Ledger, o: string, items: seq<Item>, tries: seq<Try>) {
    NoneAgain(l, o, items, tries, FirstLanding(l, items, tries))
  }

  lemma {:induction false} FirstLandingIsEffect(l: Ledger, o: string, items: seq<Item>, tries: seq<Try>)
    requires Valid(l) && OthersOnly(tries, o)
    ensures FirstLanding(l, items, tries) == FirstEffect(l, ReserveOp(o, items), tries)
  {
    if tries == [] {
    } else {
      var op, init, last := ReserveOp(o, items), tries[..|tries| - 1], tries[|tries| - 1];
      FirstLandingIsEffect(l, o, items, init);
      if FirstEffect(l, op, init) == |init| {
        EffectCounts(l, op, init);
        OnceIsAsOne(l, op, init);
        RunConcat(l, Before(init), last.before);
        BeforeWellFormed(tries, o);
        RunFromValid(l, Before(tries));
        LandsIsEffect(Run(l, Before(tries)), o, items, last.fate);
      }
    }
  }

  /** Whether one more attempt commits after a single one did. */
  lemma SecondCommit(l: Ledger, o: string, items: seq<Item>, tries: seq<Try>)
    requires Valid(l) && OthersOnly(tries, o) && tries != []
    requires Commits(l, ReserveOp(o, items), tries[..|tries| - 1]) == 1
    ensures var op, n := ReserveOp(o, items), |tries| - 1;
            var f := FirstEffect(l, op, tries[..n]);
            f < n && (Commits(l, op, tries) <= 1 <==> !LandsAgain(l, o, items, tries, f))
  {
    var op, init, last := ReserveOp(o, items), tries[..|tries| - 1], tries[|tries| - 1];
    var f := FirstEffect(l, op, init);
    EffectCounts(l, op, init);
    OnceIsAsOne(l, op, init);
    RunConcat(l, AsOne(op, init, f), last.before);
    RetriedValid(l, op, init, o);
    OthersKeepHold(LedgerAfter(l, op, init), tries, o, |tries| - 1);
    LandsIsEffect(Run(LedgerAfter(l, op, init), last.before), o, items, last.fate);
  }

  /** At most one attempt of a reserve commits, exactly if after the first attempt that reaches the
      server and fits no later attempt does so again; the code has no guard that makes it so. */
  lemma {:induction false} CommitsOnceExactly(l: Ledger, o: string, items: seq<Item>, tries: seq<Try>)
    requires Valid(l) && OthersOnly(tries, o)
    ensures Commits(l, ReserveOp(o, items), tries) <= 1 <==> NoRoomTwice(l, o, items, tries)
  {
    if tries == [] {
    } else {
      var op, init := ReserveOp(o, items), tries[..|tries| - 1];
      CommitsOnceExactly(l, o, items, init);
      FirstLandingIsEffect(l, o, items, init);
      EffectCounts(l, op, init);
      if Commits(l, op, init) == 1 { SecondCommit(l, o, items, tries); }
    }
  }

  lemma ReserveAdds(m: Ledger, o: string, items: seq<Item>, p: string)
    requires Valid(m) && ReserveAll(m, o, items).Ok?
    ensures Hold(ReserveAll(m, o, items).ledger, {o}, p) == Hold(m, {o}, p) + Demand(items, p)
  {
    var rows := OrderRows(o, items, Reserved);
    ReserveExact(m, o, items);
    MatchingConcat(m.rows, rows, {o});
    MatchingAll(rows, {o});
    QtyConcat(Matching(m.rows, {o}), rows, p, Reserved);
    DemandIsReserved(o, items, p);
  }

  /** One more attempt adds the demand if it commits, and nothing otherwise. */
  lemma LastTryAdds(l: Ledger, o: string, items: seq<Item>, tries: seq<Try>, p: string)
    requires Valid(l) && OthersOnly(tries, o) && tries != []
    ensures var op, init := ReserveOp(o, items), tries[..|tries| - 1];
            Hold(LedgerAfter(l, op, tries), {o}, p) == Hold(LedgerAfter(l, op, init), {o}, p)
              + if Commits(l, op, tries) > Commits(l, op, init) then Demand(items, p) else 0
  {
    var op, last := ReserveOp(o, items), |tries| - 1;
    var mid := LedgerAfter(l, op, tries[..last]);
    RetriedValid(l, op, tries[..last], o);
    OthersKeepHold(mid, tries, o, last);
    if Ask(mid, op, tries[last]).effect {
      ReserveAdds(Run(mid, tries[last].before), o, items, p);
    }
  }

  lemma Once(n: nat, d: int)
    ensures (n + 1) * d == n * d + d
  {
  }

  /** Each attempt of a reserve that commits adds the order's demand once more. */
  lemma {:induction false} RetriedReserveAdds(l: Ledger, o: string, items: seq<Item>, tries: seq<Try>, p: string)
    requires Valid(l) && OthersOnly(tries, o)
    ensures var op := ReserveOp(o, items);
            Hold(LedgerAfter(l, op, tries), {o}, p) == Hold(l, {o}, p) + Commits(l, op, tries) * Demand(items, p)
  {
    if tries == [] {
    } else {
      RetriedReserveAdds(l, o, items, tries[..|tries| - 1], p);
      LastTryAdds(l, o, items, tries, p);
      Once(Commits(l, ReserveOp(o, items), tries[..|tries| - 1]), Demand(items, p));
    }
  }

  lemma NoneOrOnce(n: nat, d: int)
    requires d > 0
    ensures n * d == 0 || n * d == d <==> n <= 1
  {
    if n >= 2 { assert n * d >= 2 * d; }
  }

  /** A retried reserve of a fresh order holds what was asked for, or nothing, exactly if no second
      attempt reached the server with room for the items once more. */
  lemma RetriedReserveExact(l: Ledger, o: string, items: seq<Item>, tries: seq<Try>, p: string)
    requires Valid(l) && OthersOnly(tries, o) && Matching(l.rows, {o}) == [] && Demand(items, p) > 0
    ensures var held := Hold(LedgerAfter(l, ReserveOp(o, items), tries), {o}, p);
            held == 0 || held == Demand(items, p) <==> NoRoomTwice(l, o, items, tries)
  {
    RetriedReserveAdds(l, o, items, tries, p);
    NoneOrOnce(Commits(l, ReserveOp(o, items), tries), Demand(items, p));
    CommitsOnceExactly(l, o, items, tries);
  }

  /** Then the retried reserve is one attempt, for the ledger and for its caller, who is told of a
      success exactly if the first attempt that landed was the last one and its reply arrived. */
  lemma RetriedReserveIsOne(maxRetries: nat, ended: nat -> bool, l: Ledger, o: string, items: seq<Item>,
      tries: seq<Try>, v: R.Verdict)
    requires Valid(l) && OthersOnly(tries, o) && NoRoomTwice(l, o, items, tries)
    requires Made(maxRetries, ended, l, ReserveOp(o, items), tries, v)
    ensures LedgerAfter(l, ReserveOp(o, items), tries)
            == Run(l, AsOne(ReserveOp(o, items), tries, FirstLanding(l, items, tries)))
    ensures v == R.FromCall(R.Success)
            <==> tries[|tries| - 1].fate == Delivered && FirstLanding(l, items, tries) == |tries| - 1
  {
    var op := ReserveOp(o, items);
    CommitsOnceExactly(l, o, items, tries);
    FirstLandingIsEffect(l, o, items, tries);
    OnceIsAsOne(l, op, tries);
    ReportIsLast(maxRetries, ended, l, op, tries, v);
    AnsweredIsLast(l, op, tries);
  }

  /** Product p with ten units, and the same after n reserves of three units for order o. */
  function Shelf(n: nat): Ledger
    requires n <= 2
  {
    Ledger(map["p" := Product(10, 3 * n)], seq(n, _ => Row("o", "p", 3, Reserved)))
  }

  lemma ReserveThree(n: nat)
    requires n <= 1
    ensures ReserveAll(Shelf(n), "o", [Item("p", 3)]) == Ok(Shelf(n + 1))
  {
  }

  const TWICE := [Try([], ReplyLost, R.Unavailable), Try([], Delivered, R.Unavailable)]

  lemma TwoTries(l: Ledger, op: Op)
    ensures LedgerAfter(l, op, TWICE) == After(After(l, op), op)
    ensures LedgerAfter(l, op, TWICE[..1]) == After(l, op)
  {
    assert TWICE[..1][..0] == [];
    assert LedgerAfter(l, op, TWICE[..1]) == Ask(l, op, TWICE[0]).ledger;
    assert LedgerAfter(l, op, TWICE) == Ask(After(l, op), op, TWICE[1]).ledger;
  }

  /** An input that reserves twice: the first attempt commits, its reply is lost, and the second
      attempt is told of a success. */
  lemma RetryReservesTwice()
    ensures var op := ReserveOp("o", [Item("p", 3)]);
            && Made(3, _ => false, Shelf(0), op, TWICE, R.FromCall(R.Success))
            && LedgerAfter(Shelf(0), op, TWICE) == Shelf(2)
  {
    var op := ReserveOp("o", [Item("p", 3)]);
    ReserveThree(0);
    ReserveThree(1);
    TwoTries(Shelf(0), op);
    assert TWICE[..0] == [];
    assert OutcomeOf(Shelf(0), op, TWICE, 0) == R.Failure(R.Unavailable);
    assert OutcomeOf(Shelf(0), op, TWICE, 1) == R.Success;
  }

  lemma DemandOfTwo()
    ensures Demand([Item("p", 3), Item("p", 3)], "p") == 6
  {
  }

  lemma HoldOfTwo()
    ensures Matching(Shelf(2).rows, {"o"}) != []
    ensures Hold(Shelf(2), {"o"}, "p") == 6
  {
    var items := [Item("p", 3), Item("p", 3)];
    var rows := OrderRows("o", items, Reserved);
    assert Shelf(2).rows == rows;
    MatchingAll(rows, {"o"});
    DemandIsReserved("o", items, "p");
    DemandOfTwo();
  }

  /** The decrement that follows takes the goods out twice. */
  lemma DecrementTakesTwice()
    ensures Apply(Shelf(2), SettleOp("o", Decremented)).Ok?
    ensures "p" in After(Shelf(2), SettleOp("o", Decremented)).products
    ensures After(Shelf(2), SettleOp("o", Decremented)).products["p"] == Product(4, 0)
  {
    HoldOfTwo();
  }
}
