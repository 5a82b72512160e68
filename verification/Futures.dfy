/**
 * The futures of the MATLAB mapping (matlab/src/Future.h, Future.cpp and ObjectPrx.cpp).
 *
 * Every method runs under the future's mutex, so an interleaving of callbacks, cancellations and
 * waiting threads is a sequence of the steps below.  `FutureObject` is the object; `Apply` says what
 * each of its methods does to its fields, and the theorems are about all sequences of steps.
 */
module Futures {
  import opened Common

  datatype State = Running | Sent | Finished

  function Rank(s: State): nat {
    match s
    case Running => 0
    case Sent => 1
    case Finished => 2
  }

  /** The concrete class; a batch invocation is finished from the start. */
  datatype Kind = Invocation(twoway: bool, batch: bool) | GetConnection | Simple

  /** A thread in `waitForState`: what it waits for, and whether it sleeps on the condition variable or
      has been woken and is about to test its predicate again. */
  datatype Waiter = Waiter(target: State, asleep: bool)

  type Token = nat
  type Exc = nat
  type Con = nat

  /** The fields, the threads waiting on `_cond`, and the tokens that were called so far. */
  datatype Fields = Fields(kind: Kind, state: State, token: Option<Token>, exc: Option<Exc>,
                           ok: bool, data: seq<int>, con: Option<Con>,
                           waiters: map<nat, Waiter>, ran: seq<Token>)

  function Init(kind: Kind): Fields {
    Fields(kind, if kind.Invocation? && kind.batch then Finished else Running, None, None, false, [], None, map[], [])
  }

  /** `stateImpl`: a simple future with an exception is finished whatever its `_state`. */
  function StateOf(f: Fields): State {
    if f.kind.GetConnection? then (if f.exc.Some? || f.con.Some? then Finished else Running)
    else if f.kind.Simple? && f.exc.Some? then Finished
    else f.state
  }

  datatype Event =
    | GiveToken(token: Token)                        // token
    | SentEv                                         // sent
    | FinishedEv(ok: bool, data: seq<int>)           // InvocationFuture::finished
    | ConnectedEv(con: Option<Con>)                  // GetConnectionFuture::finished
    | DoneEv                                         // SimpleFuture::done
    | ExceptionEv(exc: Exc)                          // exception
    | CancelEv                                       // cancel
    | WaitEv(id: nat, target: State)                 // entry of waitForState
    | WakeEv(id: nat)                                // a woken thread tests its predicate
    | SpuriousEv(id: nat)                            // the condition variable wakes a thread by itself
    | TimeoutEv(id: nat)

  predicate Enabled(f: Fields, e: Event) {
    match e
    case FinishedEv(_, _) => f.kind.Invocation?
    case ConnectedEv(_) => f.kind.GetConnection?
    case DoneEv => f.kind.Simple?
    case WaitEv(id, _) => id !in f.waiters
    case WakeEv(id) => id in f.waiters && !f.waiters[id].asleep
    case SpuriousEv(id) => id in f.waiters
    case TimeoutEv(id) => id in f.waiters
    case _ => true
  }

  /** `_cond.notify_all()`. */
  function NotifyAll(waiters: map<nat, Waiter>): (r: map<nat, Waiter>)
    ensures r.Keys == waiters.Keys
  {
    map id | id in waiters :: waiters[id].(asleep := false)
  }

  function Apply(f: Fields, e: Event): Fields
    requires Enabled(f, e)
  {
    match e
    case GiveToken(t) => if StateOf(f) != Finished then f.(token := Some(t)) else f
    case SentEv =>
      if f.kind.Invocation? && f.state == Running then f.(state := if f.kind.twoway then Sent else Finished) else f
    case FinishedEv(ok, data) =>
      f.(ok := ok, state := Finished, token := None, data := if data != [] then data else f.data,
         waiters := NotifyAll(f.waiters))
    case ConnectedEv(con) => f.(token := None, con := con, waiters := NotifyAll(f.waiters))
    case DoneEv => f.(state := Finished, waiters := NotifyAll(f.waiters))
    case ExceptionEv(exc) =>
      f.(state := if f.kind.Invocation? then Finished else f.state, token := None, exc := Some(exc),
         waiters := NotifyAll(f.waiters))
    case CancelEv => if f.token.Some? then f.(ran := f.ran + [f.token.value], token := None) else f
    case WaitEv(id, target) =>
      if StateOf(f) == target then f else f.(waiters := f.waiters[id := Waiter(target, true)])
    case WakeEv(id) =>
      if StateOf(f) == f.waiters[id].target then f.(waiters := f.waiters - {id})
      else f.(waiters := f.waiters[id := f.waiters[id].(asleep := true)])
    case SpuriousEv(id) => f.(waiters := f.waiters[id := f.waiters[id].(asleep := false)])
    case TimeoutEv(id) => f.(waiters := f.waiters - {id})
  }

  /** The fields after a sequence of steps; None if one of them was not possible. */
  function After(f: Fields, es: seq<Event>): Option<Fields>
    decreases |es|
  {
    if es == [] then Some(f)
    else if Enabled(f, es[0]) then After(Apply(f, es[0]), es[1..])
    else None
  }

  // ---------------------------------------------------------------- the object

  class FutureObject {
    const kind: Kind
    var state: State
    var token: Option<Token>
    var exc: Option<Exc>
    var ok: bool
    var data: seq<int>
    var con: Option<Con>
    var waiters: map<nat, Waiter>
    ghost var ran: seq<Token>

    ghost function Value(): Fields
      reads this
    {
      Fields(kind, state, token, exc, ok, data, con, waiters, ran)
    }

    constructor (kind: Kind)
      ensures Value() == Init(kind)
    {
      this.kind := kind;
      state := if kind.Invocation? && kind.batch then Finished else Running;
      token, exc, con := None, None, None;
      ok, data := false, [];
      waiters, ran := map[], [];
    }

    /** The virtual `stateImpl`. */
    function StateImpl(): (s: State)
      reads this
      ensures s == StateOf(Value())
    {
      if kind.GetConnection? then
        if exc.Some? || con.Some? then Finished else Running
      else if kind.Simple? && exc.Some? then Finished
      else state
    }

    method SetToken(t: Token)
      modifies this
      ensures Value() == Apply(old(Value()), GiveToken(t))
    {
      if StateImpl() != Finished {
        token := Some(t);
      }
    }

    method NotifySent()
      modifies this
      ensures Value() == Apply(old(Value()), SentEv)
    {
      if kind.Invocation? {
        if state == Running {
          state := if kind.twoway then Sent else Finished;
        }
      }
    }

    method Finish(b: bool, p: seq<int>)
      requires kind.Invocation?
      modifies this
      ensures Value() == Apply(old(Value()), FinishedEv(b, p))
    {
      ok := b;
      state := Finished;
      token := None;
      if |p| > 0 {
        data := p;
      }
      waiters := NotifyAll(waiters);
    }

    method Connected(c: Option<Con>)
      requires kind.GetConnection?
      modifies this
      ensures Value() == Apply(old(Value()), ConnectedEv(c))
    {
      token := None;
      con := c;
      waiters := NotifyAll(waiters);
    }

    method Done()
      requires kind.Simple?
      modifies this
      ensures Value() == Apply(old(Value()), DoneEv)
    {
      state := Finished;
      waiters := NotifyAll(waiters);
    }

    method SetException(e: Exc)
      modifies this
      ensures Value() == Apply(old(Value()), ExceptionEv(e))
    {
      if kind.Invocation? {
        state := Finished;
      }
      token := None;
      exc := Some(e);
      waiters := NotifyAll(waiters);
    }

    method Cancel()
      modifies this
      ensures Value() == Apply(old(Value()), CancelEv)
    {
      if token.Some? {
        ran := ran + [token.value];
        token := None;
      }
    }

    /** The first test in `waitForState`: done says that the thread need not wait, and then r is what it
        returns. */
    method EnterWait(id: nat, target: State) returns (done: bool, r: bool)
      requires id !in waiters
      modifies this
      ensures Value() == Apply(old(Value()), WaitEv(id, target))
      ensures done <==> StateOf(old(Value())) == target
      ensures done ==> (r <==> old(exc).None?)
    {
      done := StateImpl() == target;
      r := done && exc.None?;
      if !done {
        waiters := waiters[id := Waiter(target, true)];
      }
    }

    /** A woken thread tests again. */
    method Wake(id: nat) returns (done: bool, r: bool)
      requires id in waiters && !waiters[id].asleep
      modifies this
      ensures Value() == Apply(old(Value()), WakeEv(id))
      ensures done <==> StateOf(old(Value())) == old(waiters)[id].target
      ensures done ==> (r <==> old(exc).None?)
    {
      done := StateImpl() == waiters[id].target;
      r := done && exc.None?;
      if done {
        waiters := waiters - {id};
      } else {
        waiters := waiters[id := waiters[id].(asleep := true)];
      }
    }
  }

  // ---------------------------------------------------------------- progress

  /** Only a null connection delivered after a real one moves a future backward. */
  lemma NeverBackwardIff(f: Fields, e: Event)
    requires Enabled(f, e)
    ensures Rank(StateOf(f)) <= Rank(StateOf(Apply(f, e)))
       <==> !(e == ConnectedEv(None) && f.exc.None? && f.con.Some?)
  {
  }

  lemma {:induction false} NeverBackward(f: Fields, es: seq<Event>)
    requires After(f, es).Some? && forall i :: 0 <= i < |es| ==> es[i] != ConnectedEv(None)
    ensures Rank(StateOf(f)) <= Rank(StateOf(After(f, es).value))
    decreases |es|
  {
    if es != [] {
      NeverBackwardIff(f, es[0]);
      NeverBackward(Apply(f, es[0]), es[1..]);
    }
  }

  // ---------------------------------------------------------------- tokens

  /** How often a token is given to the future. */
  function Given(es: seq<Event>, t: Token): nat {
    if es == [] then 0 else (if es[0] == GiveToken(t) then 1 else 0) + Given(es[1..], t)
  }

  /** How often a token was called, and once more if it is stored. */
  ghost function Uses(f: Fields, t: Token): nat {
    multiset(f.ran)[t] + if f.token == Some(t) then 1 else 0
  }

  lemma UsesStep(f: Fields, e: Event, t: Token)
    requires Enabled(f, e)
    ensures Uses(Apply(f, e), t) <= Uses(f, t) + if e == GiveToken(t) then 1 else 0
  {
    if e.CancelEv? && f.token.Some? {
      assert multiset(f.ran + [f.token.value])[t] == multiset(f.ran)[t] + if f.token.value == t then 1 else 0;
    }
  }

  /** A token is called at most as often as it was given: once if given once. */
  lemma {:induction false} TokensRunAtMostOnce(kind: Kind, es: seq<Event>, t: Token)
    requires After(Init(kind), es).Some?
    ensures multiset(After(Init(kind), es).value.ran)[t] <= Given(es, t)
  {
    UsesBounded(Init(kind), es, t);
  }

  lemma {:induction false} UsesBounded(f: Fields, es: seq<Event>, t: Token)
    requires After(f, es).Some?
    ensures Uses(After(f, es).value, t) <= Uses(f, t) + Given(es, t)
    decreases |es|
  {
    if es != [] {
      UsesStep(f, es[0], t);
      UsesBounded(Apply(f, es[0]), es[1..], t);
    }
  }

  /** Cancel calls the stored token, once, and drops it; without one it does nothing. */
  lemma CancelCalls(f: Fields, t: Token)
    requires f.token == Some(t)
    ensures var f' := Apply(f, CancelEv);
            && multiset(f'.ran)[t] == multiset(f.ran)[t] + 1 && f'.ran == f.ran + [t] && f'.token == None
            && StateOf(f') == StateOf(f) && f'.waiters == f.waiters
    ensures Apply(f.(token := None), CancelEv) == f.(token := None)
  {
  }

  lemma {:induction false} AfterLast(f: Fields, es: seq<Event>)
    requires es != [] && After(f, es).Some?
    ensures var before, e := After(f, es[..|es| - 1]), es[|es| - 1];
            before.Some? && Enabled(before.value, e) && After(f, es) == Some(Apply(before.value, e))
    decreases |es|
  {
    if |es| == 1 {
      assert es[..0] == [] && es[1..] == [];
    } else {
      AfterLast(Apply(f, es[0]), es[1..]);
      assert es[..|es| - 1][1..] == es[1..][..|es| - 2];
    }
  }

  /** The event gives the token to a future that takes it. */
  ghost predicate Accepts(f: Fields, e: Event, t: Token) {
    e == GiveToken(t) && StateOf(f) != Finished
  }

  /** The event makes the future drop the stored token without calling it: a result, a connection, an
      exception, or a token given later. */
  ghost predicate Drops(f: Fields, e: Event, t: Token) {
    && f.token == Some(t)
    && (e.FinishedEv? || e.ConnectedEv? || e.ExceptionEv? || (e.GiveToken? && StateOf(f) != Finished))
  }

  /** How often the token was accepted, or dropped, in the course of the events. */
  ghost function AcceptedTimes(f: Fields, es: seq<Event>, t: Token): nat {
    if es == [] then 0
    else
      var k := |es| - 1;
      AcceptedTimes(f, es[..k], t)
      + if After(f, es[..k]).Some? && Accepts(After(f, es[..k]).value, es[k], t) then 1 else 0
  }

  ghost function DroppedTimes(f: Fields, es: seq<Event>, t: Token): nat {
    if es == [] then 0
    else
      var k := |es| - 1;
      DroppedTimes(f, es[..k], t)
      + if After(f, es[..k]).Some? && Drops(After(f, es[..k]).value, es[k], t) then 1 else 0
  }

  lemma TokenStep(f: Fields, e: Event, t: Token)
    requires Enabled(f, e)
    ensures Uses(Apply(f, e), t) + (if Drops(f, e, t) then 1 else 0) == Uses(f, t) + if Accepts(f, e, t) then 1 else 0
  {
    if e.CancelEv? && f.token.Some? {
      CancelCalls(f, f.token.value);
      assert multiset(f.ran + [f.token.value])[t] == multiset(f.ran)[t] + if f.token.value == t then 1 else 0;
    }
  }

  /** Whatever happens, each time a token is accepted it is called once, or it is still stored, or it was
      dropped by a later result, connection, exception or token. */
  lemma {:induction false} TokensAccountedFor(kind: Kind, es: seq<Event>, t: Token)
    requires After(Init(kind), es).Some?
    ensures var f := After(Init(kind), es).value;
            AcceptedTimes(Init(kind), es, t)
            == multiset(f.ran)[t] + (if f.token == Some(t) then 1 else 0) + DroppedTimes(Init(kind), es, t)
    decreases |es|
  {
    if es != [] {
      var k := |es| - 1;
      AfterLast(Init(kind), es);
      TokensAccountedFor(kind, es[..k], t);
      TokenStep(After(Init(kind), es[..k]).value, es[k], t);
    }
  }

  /** A finished future holds no token. */
  predicate Released(f: Fields) {
    StateOf(f) == Finished ==> f.token.None?
  }

  /** The step after which a finished future still holds its token: a oneway invocation is sent, or a
      simple future without an exception is done. */
  predicate LeavesToken(f: Fields, e: Event) {
    && f.token.Some? && StateOf(f) != Finished
    && ((f.kind.Invocation? && !f.kind.twoway && e == SentEv && f.state == Running) || (f.kind.Simple? && e == DoneEv))
  }

  lemma ReleasedStepIff(f: Fields, e: Event)
    requires Released(f) && Enabled(f, e)
    ensures Released(Apply(f, e)) <==> !LeavesToken(f, e)
  {
  }

  /** The step drops the stored token, if any. */
  predicate Clears(e: Event) {
    e.CancelEv? || e.ExceptionEv? || e.FinishedEv? || e.ConnectedEv?
  }

  /** A finished future takes no token, and keeps one until a step clears it. */
  lemma HoldingStepIff(f: Fields, e: Event)
    requires !Released(f) && Enabled(f, e)
    ensures Released(Apply(f, e)) <==> Clears(e)
  {
  }

  /** Step i left a token in the finished future and no later one cleared it. */
  ghost predicate LeftSince(f: Fields, es: seq<Event>, i: nat) {
    && i < |es| && After(f, es[..i]).Some? && LeavesToken(After(f, es[..i]).value, es[i])
    && forall j :: i < j < |es| ==> !Clears(es[j])
  }

  lemma LeftSinceLast(f: Fields, es: seq<Event>, i: nat)
    requires es != [] && i < |es| - 1
    ensures LeftSince(f, es, i) <==> LeftSince(f, es[..|es| - 1], i) && !Clears(es[|es| - 1])
  {
    var before := es[..|es| - 1];
    assert before[..i] == es[..i] && before[i] == es[i];
    assert forall j :: i < j < |before| ==> before[j] == es[j];
  }

  /** Over whole runs: a finished future holds a token exactly when it was stored at the finishing step of a
      oneway invocation or a simple future and no cancel, exception or result has come since. */
  lemma {:induction false} HoldsTokenIff(f: Fields, es: seq<Event>)
    requires Released(f) && After(f, es).Some?
    ensures !Released(After(f, es).value) <==> exists i: nat :: LeftSince(f, es, i)
    decreases |es|
  {
    if es != [] {
      var k := |es| - 1;
      var before := es[..k];
      AfterLast(f, es);
      HoldsTokenIff(f, before);
      var g := After(f, before).value;
      if Released(g) {
        ReleasedStepIff(g, es[k]);
      } else {
        HoldingStepIff(g, es[k]);
      }
      if i: nat :| LeftSince(f, before, i) && !Clears(es[k]) {
        LeftSinceLast(f, es, i);
      }
      if i: nat :| LeftSince(f, es, i) && i < k {
        LeftSinceLast(f, es, i);
      }
      assert LeftSince(f, es, k) <==> LeavesToken(g, es[k]);
    }
  }

  /** Twoway invocations and connection requests never hold a token once finished. */
  lemma {:induction false} FinishedHoldsNoToken(f: Fields, es: seq<Event>)
    requires Released(f) && After(f, es).Some?
    requires f.kind.GetConnection? || (f.kind.Invocation? && f.kind.twoway)
    ensures Released(After(f, es).value)
    decreases |es|
  {
    if es != [] {
      ReleasedStepIff(f, es[0]);
      FinishedHoldsNoToken(Apply(f, es[0]), es[1..]);
    }
  }

  /** A future that has got its exception is finished and without a token, whatever it is. */
  predicate FailedInv(f: Fields) {
    && (f.kind.Invocation? && f.exc.Some? ==> f.state == Finished)
    && (f.exc.Some? ==> f.token.None?)
  }

  lemma {:induction false} FailedKept(f: Fields, es: seq<Event>)
    requires FailedInv(f) && After(f, es).Some?
    ensures FailedInv(After(f, es).value)
    decreases |es|
  {
    if es != [] {
      FailedKept(Apply(f, es[0]), es[1..]);
    }
  }

  /** Once an exception has arrived, every future is finished and holds no token, in whatever order the
      callbacks come: a token given later is refused, and a wait for Finished returns at once. */
  lemma FailedIsFinal(kind: Kind, es: seq<Event>, t: Token, id: nat)
    requires After(Init(kind), es).Some? && After(Init(kind), es).value.exc.Some?
    ensures var f := After(Init(kind), es).value;
            && StateOf(f) == Finished && f.token.None?
            && Apply(f, GiveToken(t)) == f
            && (id !in f.waiters ==> Apply(f, WaitEv(id, Finished)) == f)
  {
    FailedKept(Init(kind), es);
  }

  /** The exception of a simple future comes before its token: the token is refused, and a thread that
      waits for Finished does not sleep. */
  lemma ExceptionBeforeToken(x: Exc, t: Token)
    ensures var r := After(Init(Simple), [ExceptionEv(x), GiveToken(t), WaitEv(0, Finished)]);
            r.Some? && StateOf(r.value) == Finished && r.value.token.None? && r.value.waiters == map[]
  {
    var f := Apply(Init(Simple), ExceptionEv(x));
    assert Apply(f, GiveToken(t)) == f && Apply(f, WaitEv(0, Finished)) == f;
    Run2(f, GiveToken(t), WaitEv(0, Finished));
    assert [ExceptionEv(x), GiveToken(t), WaitEv(0, Finished)][1..] == [GiveToken(t), WaitEv(0, Finished)];
  }

  /** Without an exception, a simple future that is done keeps its token. */
  lemma DoneKeepsToken(t: Token)
    ensures var r := After(Init(Simple), [GiveToken(t), DoneEv]);
            r.Some? && StateOf(r.value) == Finished && r.value.token == Some(t)
  {
    Run2(Init(Simple), GiveToken(t), DoneEv);
  }

  lemma Run2(f: Fields, a: Event, b: Event)
    requires Enabled(f, a) && Enabled(Apply(f, a), b)
    ensures After(f, [a, b]) == Some(Apply(Apply(f, a), b))
  {
    assert [a, b][1..] == [b] && [b][1..] == [];
    assert After(Apply(f, a), [b]) == After(Apply(Apply(f, a), b), []);
  }

  // ---------------------------------------------------------------- what a later lock section sees

  /** The connection delivered last, or what was there before. */
  function LastConnection(con: Option<Con>, es: seq<Event>): Option<Con>
    decreases |es|
  {
    if es == [] then con
    else LastConnection(if es[0].ConnectedEv? then es[0].con else con, es[1..])
  }

  /** After a successful wait for Finished, `fetch` reads the connection in a later lock section: it is
      non-null unless a null connection was delivered last in between. */
  lemma {:induction false} ConnectionStays(f: Fields, es: seq<Event>)
    requires f.kind.GetConnection? && After(f, es).Some?
    requires StateOf(f) == Finished && f.exc.None?
    ensures f.con.Some?
    ensures After(f, es).value.con == LastConnection(f.con, es)
    ensures (forall i :: 0 <= i < |es| ==> es[i] != ConnectedEv(None)) ==> After(f, es).value.con.Some?
  {
    ConnectionIsLast(f, es);
  }

  lemma {:induction false} ConnectionIsLast(f: Fields, es: seq<Event>)
    requires f.kind.GetConnection? && After(f, es).Some?
    ensures After(f, es).value.con == LastConnection(f.con, es)
    ensures f.con.Some? && (forall i :: 0 <= i < |es| ==> es[i] != ConnectedEv(None)) ==> After(f, es).value.con.Some?
    decreases |es|
  {
    if es != [] {
      ConnectionIsLast(Apply(f, es[0]), es[1..]);
    }
  }

  /** After a wait that failed at Finished, the exception is there for good. */
  lemma {:induction false} ExceptionStays(f: Fields, es: seq<Event>)
    requires f.exc.Some? && After(f, es).Some?
    ensures After(f, es).value.exc.Some?
    decreases |es|
  {
    if es != [] {
      ExceptionStays(Apply(f, es[0]), es[1..]);
    }
  }

  // ---------------------------------------------------------------- what the state says

  /** Some event of the run is one of these. */
  ghost predicate Happened(es: seq<Event>, what: Event -> bool) {
    exists k :: 0 <= k < |es| && what(es[k])
  }

  lemma HappenedLast(es: seq<Event>, what: Event -> bool)
    requires es != []
    ensures Happened(es, what) <==> Happened(es[..|es| - 1], what) || what(es[|es| - 1])
  {
    var k := |es| - 1;
    if Happened(es[..k], what) {
      var j :| 0 <= j < |es[..k]| && what(es[..k][j]);
      assert what(es[j]);
    }
    if Happened(es, what) {
      var j :| 0 <= j < |es| && what(es[j]);
      assert j < k ==> what(es[..k][j]);
    }
  }

  ghost function LastConnected(es: seq<Event>): Option<Con> {
    if es == [] then None
    else if es[|es| - 1].ConnectedEv? then es[|es| - 1].con
    else LastConnected(es[..|es| - 1])
  }

  /** What makes a future finished: for an invocation a result or an exception, and being sent if it is
      oneway; for a simple future `done` or an exception. */
  predicate Finishes(kind: Kind, e: Event) {
    match kind
    case Invocation(twoway, _) => e.FinishedEv? || e.ExceptionEv? || (!twoway && e.SentEv?)
    case GetConnection => e.ExceptionEv?
    case Simple => e.DoneEv? || e.ExceptionEv?
  }

  /** The state of a future, from the events alone: it is finished once something has finished it (a batch
      invocation from the start, a connection request also while it has a connection), an unfinished twoway
      invocation is sent once it was sent, and anything else is running. */
  lemma {:induction false} StateIff(kind: Kind, es: seq<Event>)
    requires After(Init(kind), es).Some?
    ensures var f := After(Init(kind), es).value;
            && f.kind == kind
            && (f.exc.Some? <==> Happened(es, (e: Event) => e.ExceptionEv?))
            && (StateOf(f) == Finished
                <==> Happened(es, e => Finishes(kind, e)) || (kind.Invocation? && kind.batch)
                     || (kind.GetConnection? && LastConnected(es).Some?))
            && (StateOf(f) == Sent
                <==> kind.Invocation? && kind.twoway && StateOf(f) != Finished && Happened(es, (e: Event) => e.SentEv?))
            && (kind.GetConnection? ==> f.con == LastConnected(es))
    decreases |es|
  {
    if es != [] {
      AfterLast(Init(kind), es);
      StateIff(kind, es[..|es| - 1]);
      HappenedLast(es, (e: Event) => e.ExceptionEv?);
      HappenedLast(es, e => Finishes(kind, e));
      HappenedLast(es, (e: Event) => e.SentEv?);
    }
  }

  /** The outcome and the data of the results that have come: of the last one, and of the last one that was
      not empty. */
  ghost function LastOk(es: seq<Event>): bool {
    if es == [] then false else if es[|es| - 1].FinishedEv? then es[|es| - 1].ok else LastOk(es[..|es| - 1])
  }

  ghost function LastData(es: seq<Event>): seq<int> {
    if es == [] then []
    else if es[|es| - 1].FinishedEv? && es[|es| - 1].data != [] then es[|es| - 1].data
    else LastData(es[..|es| - 1])
  }

  ghost function LastException(es: seq<Event>): Option<Exc> {
    if es == [] then None
    else if es[|es| - 1].ExceptionEv? then Some(es[|es| - 1].exc)
    else LastException(es[..|es| - 1])
  }

  /** What the getters give is what has come last. */
  lemma {:induction false} ResultsAreKept(kind: Kind, es: seq<Event>)
    requires After(Init(kind), es).Some?
    ensures var f := After(Init(kind), es).value;
            f.ok == LastOk(es) && f.data == LastData(es) && f.exc == LastException(es)
    decreases |es|
  {
    if es != [] {
      AfterLast(Init(kind), es);
      ResultsAreKept(kind, es[..|es| - 1]);
    }
  }

  // ---------------------------------------------------------------- waking up

  /** No thread sleeps waiting for Finished when the future is finished. */
  predicate NobodyMissed(f: Fields) {
    StateOf(f) == Finished ==> forall id :: id in f.waiters && f.waiters[id].asleep ==> f.waiters[id].target != Finished
  }

  /** A wake-up is lost in exactly one way: a oneway invocation is sent, which finishes it without
      notifying, while a thread sleeps waiting for Finished. */
  lemma LostWakeupIff(f: Fields, e: Event)
    requires NobodyMissed(f) && Enabled(f, e)
    ensures NobodyMissed(Apply(f, e))
       <==> !(f.kind.Invocation? && !f.kind.twoway && e == SentEv && f.state == Running
              && exists id :: id in f.waiters && f.waiters[id] == Waiter(Finished, true))
  {
    var f' := Apply(f, e);
    if f.kind.Invocation? && !f.kind.twoway && e == SentEv && f.state == Running {
      if id :| id in f.waiters && f.waiters[id] == Waiter(Finished, true) {
        assert id in f'.waiters && f'.waiters[id].asleep && f'.waiters[id].target == Finished;
      }
    }
  }

  /** The thread sleeps, waiting for Finished, and the future is finished. */
  predicate Missed(f: Fields, id: nat) {
    StateOf(f) == Finished && id in f.waiters && f.waiters[id] == Waiter(Finished, true)
  }

  /** A oneway invocation is sent while the thread sleeps. */
  predicate Misses(f: Fields, e: Event, id: nat) {
    && f.kind.Invocation? && !f.kind.twoway && e == SentEv && f.state == Running
    && id in f.waiters && f.waiters[id] == Waiter(Finished, true)
  }

  /** The step wakes the thread or ends its wait. */
  predicate Wakes(e: Event, id: nat) {
    || e.FinishedEv? || e.ConnectedEv? || e.DoneEv? || e.ExceptionEv? || e == SpuriousEv(id) || e == TimeoutEv(id)
  }

  lemma MissedStepIff(f: Fields, e: Event, id: nat)
    requires Enabled(f, e) && (f.kind.Invocation? || !Missed(f, id))
    ensures Missed(Apply(f, e), id) <==> Misses(f, e, id) || (Missed(f, id) && !Wakes(e, id))
  {
  }

  /** The thread tests its predicate, finds that it does not hold, and sleeps. */
  predicate Sleeps(f: Fields, e: Event, id: nat) {
    || (e.WaitEv? && e.id == id && StateOf(f) != e.target)
    || (e == WakeEv(id) && id in f.waiters && StateOf(f) != f.waiters[id].target)
  }

  predicate Asleep(f: Fields, id: nat) {
    id in f.waiters && f.waiters[id].asleep
  }

  /** What a step does to a waiting thread. */
  lemma WaiterStep(f: Fields, e: Event, id: nat)
    requires Enabled(f, e)
    ensures var f' := Apply(f, e);
            && (Asleep(f', id) <==> Sleeps(f, e, id) || (Asleep(f, id) && !Wakes(e, id)))
            && (id in f'.waiters <==> Sleeps(f, e, id) || (id in f.waiters && e != TimeoutEv(id) && e != WakeEv(id)))
            && (id in f.waiters && id in f'.waiters ==> f'.waiters[id].target == f.waiters[id].target)
            && (e.WaitEv? && e.id == id && id in f'.waiters ==> f'.waiters[id].target == e.target)
  {
  }

  /** A thread that sleeps has tested its predicate at some step, and was not woken since. */
  ghost predicate SleepsSince(f: Fields, es: seq<Event>, id: nat, i: nat) {
    && i < |es| && After(f, es[..i]).Some? && Sleeps(After(f, es[..i]).value, es[i], id)
    && forall j :: i < j < |es| ==> !Wakes(es[j], id)
  }

  lemma SleepsSinceLast(f: Fields, es: seq<Event>, id: nat, i: nat)
    requires es != [] && i < |es| - 1
    ensures SleepsSince(f, es, id, i) <==> SleepsSince(f, es[..|es| - 1], id, i) && !Wakes(es[|es| - 1], id)
  {
    var before := es[..|es| - 1];
    assert before[..i] == es[..i] && before[i] == es[i];
    assert forall j :: i < j < |before| ==> before[j] == es[j];
  }

  lemma {:induction false} AsleepIff(kind: Kind, es: seq<Event>, id: nat)
    requires After(Init(kind), es).Some?
    ensures Asleep(After(Init(kind), es).value, id) <==> exists i: nat :: SleepsSince(Init(kind), es, id, i)
    decreases |es|
  {
    var f := Init(kind);
    if es != [] {
      var k := |es| - 1;
      var before := es[..k];
      AfterLast(f, es);
      AsleepIff(kind, before, id);
      var g := After(f, before).value;
      WaiterStep(g, es[k], id);
      if i: nat :| SleepsSince(f, before, id, i) && !Wakes(es[k], id) {
        SleepsSinceLast(f, es, id, i);
      }
      if i: nat :| SleepsSince(f, es, id, i) && i < k {
        SleepsSinceLast(f, es, id, i);
      }
      assert SleepsSince(f, es, id, k) <==> Sleeps(g, es[k], id);
    }
  }

  /** Step i was missed by the thread, and nothing has woken it since. */
  ghost predicate MissedSince(f: Fields, es: seq<Event>, id: nat, i: nat) {
    && i < |es| && After(f, es[..i]).Some? && Misses(After(f, es[..i]).value, es[i], id)
    && forall j :: i < j < |es| ==> !Wakes(es[j], id)
  }

  lemma MissedSinceLast(f: Fields, es: seq<Event>, id: nat, i: nat)
    requires es != [] && i < |es| - 1
    ensures MissedSince(f, es, id, i) <==> MissedSince(f, es[..|es| - 1], id, i) && !Wakes(es[|es| - 1], id)
  {
    var before := es[..|es| - 1];
    assert before[..i] == es[..i] && before[i] == es[i];
    assert forall j :: i < j < |before| ==> before[j] == es[j];
  }

  /** Over whole runs: a thread sleeps although the future is finished exactly when the future was a oneway
      invocation that was sent while the thread slept, and nothing has woken the thread since. */
  lemma {:induction false} MissedIff(kind: Kind, es: seq<Event>, id: nat)
    requires After(Init(kind), es).Some?
    ensures Missed(After(Init(kind), es).value, id) <==> exists i: nat :: MissedSince(Init(kind), es, id, i)
    decreases |es|
  {
    var f := Init(kind);
    if es != [] {
      var k := |es| - 1;
      var before := es[..k];
      AfterLast(f, es);
      MissedIff(kind, before, id);
      var g := After(f, before).value;
      if Missed(g, id) {
        OnlyInvocationsMiss(kind, before, id);
      }
      MissedStepIff(g, es[k], id);
      if i: nat :| MissedSince(f, before, id, i) && !Wakes(es[k], id) {
        MissedSinceLast(f, es, id, i);
      }
      if i: nat :| MissedSince(f, es, id, i) && i < k {
        MissedSinceLast(f, es, id, i);
      }
      assert MissedSince(f, es, id, k) <==> Misses(g, es[k], id);
    }
  }

  lemma {:induction false} KindStays(f: Fields, es: seq<Event>)
    requires After(f, es).Some?
    ensures After(f, es).value.kind == f.kind
    decreases |es|
  {
    if es != [] {
      KindStays(Apply(f, es[0]), es[1..]);
    }
  }

  lemma OnlyInvocationsMiss(kind: Kind, es: seq<Event>, id: nat)
    requires After(Init(kind), es).Some? && Missed(After(Init(kind), es).value, id)
    ensures kind.Invocation? && After(Init(kind), es).value.kind.Invocation?
  {
    KindStays(Init(kind), es);
    if !kind.Invocation? {
      NoWakeupIsLost(Init(kind), es);
    }
  }

  /** For all other futures no wake-up is ever lost. */
  lemma {:induction false} NoWakeupIsLost(f: Fields, es: seq<Event>)
    requires NobodyMissed(f) && After(f, es).Some? && !(f.kind.Invocation? && !f.kind.twoway)
    ensures NobodyMissed(After(f, es).value)
    decreases |es|
  {
    if es != [] {
      LostWakeupIff(f, es[0]);
      NoWakeupIsLost(Apply(f, es[0]), es[1..]);
    }
  }

  /** A oneway invocation whose `check` began to wait before the request was sent: it is finished, the
      waiter sleeps, and the token is still there. */
  lemma OnewaySentWithoutNotice()
    ensures var es := [GiveToken(7), WaitEv(0, Finished), SentEv];
            var r := After(Init(Invocation(false, false)), es);
            r.Some? && StateOf(r.value) == Finished && r.value.token == Some(7)
            && !NobodyMissed(r.value) && !Released(r.value)
  {
    var f0 := Init(Invocation(false, false));
    var f1 := Apply(f0, GiveToken(7));
    var f2 := Apply(f1, WaitEv(0, Finished));
    var f3 := Apply(f2, SentEv);
    assert [GiveToken(7), WaitEv(0, Finished), SentEv][1..] == [WaitEv(0, Finished), SentEv];
    assert [WaitEv(0, Finished), SentEv][1..] == [SentEv];
    assert [SentEv][1..] == [];
    assert After(f2, [SentEv]) == Some(f3);
    assert After(f1, [WaitEv(0, Finished), SentEv]) == Some(f3);
    assert f3.waiters[0] == Waiter(Finished, true);
  }
}
