/**
 * The test executor (scripts/LocalDriver.py, class `Executor`).
 *
 * `Executor` holds the fields that are guarded by the lock, with `submit`, `get` and the skipping of
 * `start` as methods.  `runUntilCompleted` and the threads that run `runTestSuites` are a state machine
 * whose steps are the lock sections, the operations of the FIFO result channel and the runs of suites;
 * every interleaving of the threads is a run of it.
 */
module TestExecutor {
  import opened Common

  type Suite = string

  // ---------------------------------------------------------------- the shared fields

  datatype Shared = Shared(queue: seq<Suite>, mainThreadQueue: seq<Suite>, queueLength: int, failure: bool)

  predicate Counted(s: Shared) {
    s.queueLength == |s.queue| + |s.mainThreadQueue|
  }

  /** `submit` of a suite, once it is known which thread may run it. */
  function SubmitTo(s: Shared, suite: Suite, mainThreadOnly: bool): Shared {
    if mainThreadOnly then s.(mainThreadQueue := s.mainThreadQueue + [suite], queueLength := s.queueLength + 1)
    else s.(queue := s.queue + [suite], queueLength := s.queueLength + 1)
  }

  /** `get`: the suite handed out with its index, and the fields afterwards. */
  function GetFrom(s: Shared, total: int, mainThread: bool): (Option<(Suite, int)>, Shared) {
    var q := if mainThread then s.mainThreadQueue else s.queue;
    if s.failure || q == [] then (None, s)
    else
      var s' := if mainThread then s.(mainThreadQueue := q[1..], queueLength := s.queueLength - 1)
                else s.(queue := q[1..], queueLength := s.queueLength - 1);
      (Some((q[0], total - s'.queueLength)), s')
  }

  /** How many suites `start` makes the main thread skip. */
  function Skips(workers: nat, start: int, queued: nat): nat {
    if workers != 0 || start <= 1 then 0 else if start - 1 < queued then start - 1 else queued
  }

  class Executor {
    const workers: nat
    const continueOnFailure: bool
    var queue: seq<Suite>
    var mainThreadQueue: seq<Suite>
    var queueLength: int
    var failure: bool

    ghost function State(): Shared
      reads this
    {
      Shared(queue, mainThreadQueue, queueLength, failure)
    }

    /** Kept by every method: the count is right, and without workers only the main thread has suites. */
    ghost predicate Valid()
      reads this
    {
      Counted(State()) && (workers == 0 ==> queue == [])
    }

    constructor (workers: nat, continueOnFailure: bool)
      requires workers >= 1
      ensures Valid() && State() == Shared([], [], 0, false)
      ensures this.workers == workers - 1 && this.continueOnFailure == continueOnFailure
    {
      this.workers := workers - 1;
      this.continueOnFailure := continueOnFailure;
      queue := [];
      mainThreadQueue := [];
      queueLength := 0;
      failure := false;
    }

    /** `isMainThreadOnly` is the suite's own answer; each cross mapping is absent, or lacks the suite
        (None), or has it and answers. */
    method Submit(suite: Suite, isMainThreadOnly: bool, crossMappings: seq<Option<bool>>)
      requires Valid()
      modifies this
      ensures Valid()
      ensures State() == SubmitTo(old(State()), suite,
                                  isMainThreadOnly || workers == 0 || Some(true) in crossMappings)
      ensures State() == SubmitTo(old(State()), suite,
                                  MainThreadOnly(Submission(suite, isMainThreadOnly, crossMappings), workers))
    {
      var mainThreadOnly := isMainThreadOnly || workers == 0;
      if !mainThreadOnly {
        for i := 0 to |crossMappings|
          invariant !mainThreadOnly && Some(true) !in crossMappings[..i]
        {
          if crossMappings[i].Some? {
            if crossMappings[i].value {
              mainThreadOnly := true;
              break;
            }
          }
        }
      }
      if mainThreadOnly {
        mainThreadQueue := mainThreadQueue + [suite];
      } else {
        queue := queue + [suite];
      }
      queueLength := queueLength + 1;
    }

    method Get(total: int, mainThread: bool) returns (item: Option<(Suite, int)>)
      requires Valid()
      modifies this
      ensures Valid()
      ensures (item, State()) == GetFrom(old(State()), total, mainThread)
    {
      if failure {
        return None;
      }
      var q := if mainThread then mainThreadQueue else queue;
      if |q| == 0 {
        return None;
      }
      queueLength := queueLength - 1;
      if mainThread {
        mainThreadQueue := q[1..];
      } else {
        queue := q[1..];
      }
      return Some((q[0], total - queueLength));
    }

    /** Lines 94-99: the suites before `start` are dropped when there are no workers. */
    method SkipToStart(start: int)
      requires Valid()
      modifies this
      ensures Valid() && queue == old(queue) && failure == old(failure)
      ensures mainThreadQueue == old(mainThreadQueue)[Skips(workers, start, |old(mainThreadQueue)|)..]
    {
      if workers == 0 && start > 0 {
        for i := 1 to (if start < 1 then 1 else start)
          invariant Valid() && queue == old(queue) && failure == old(failure)
          invariant i - 1 <= |old(mainThreadQueue)| && mainThreadQueue == old(mainThreadQueue)[i - 1..]
        {
          if |mainThreadQueue| == 0 {
            break;
          }
          mainThreadQueue := mainThreadQueue[1..];
          queueLength := queueLength - 1;
        }
      }
    }
  }

  // ---------------------------------------------------------------- submitting and skipping

  /** A suite that is submitted: its own answer, and those of the cross mappings. */
  datatype Submission = Submission(suite: Suite, isMainThreadOnly: bool, crossMappings: seq<Option<bool>>)

  function MainThreadOnly(x: Submission, workers: nat): bool {
    x.isMainThreadOnly || workers == 0 || Some(true) in x.crossMappings
  }

  /** The fields after all of the suites were submitted. */
  function SubmitAll(s: Shared, xs: seq<Submission>, workers: nat): Shared {
    if xs == [] then s
    else
      var n := |xs| - 1;
      SubmitTo(SubmitAll(s, xs[..n], workers), xs[n].suite, MainThreadOnly(xs[n], workers))
  }

  /** The suites, in order, that only the main thread may run, or the others. */
  function Those(xs: seq<Submission>, workers: nat, mainThread: bool): seq<Suite> {
    if xs == [] then []
    else
      var n := |xs| - 1;
      Those(xs[..n], workers, mainThread)
      + if MainThreadOnly(xs[n], workers) == mainThread then [xs[n].suite] else []
  }

  /** Each queue holds the suites meant for it in the order of submission, so every suite is in one of them
      and none is in the workers' queue without workers. */
  lemma {:induction false} SubmittedInOrder(xs: seq<Submission>, workers: nat)
    ensures var s := SubmitAll(Shared([], [], 0, false), xs, workers);
            && s.mainThreadQueue == Those(xs, workers, true) && s.queue == Those(xs, workers, false)
            && s.queueLength == |xs| && Counted(s) && !s.failure
            && (workers == 0 ==> s.queue == [])
    ensures |Those(xs, workers, true)| + |Those(xs, workers, false)| == |xs|
  {
    if xs != [] {
      SubmittedInOrder(xs[..|xs| - 1], workers);
    }
  }

  // ---------------------------------------------------------------- the threads

  /** Where a thread stands in `runTestSuites`. */
  datatype Phase =
    | Fetch                                 // about to call get
    | Running(suite: Suite)                 // running a suite
    | Reporting(suite: Suite, ok: bool)     // about to put its result
    | Judging(ok: bool)                     // about to set failure, if need be
    | Leaving                               // about to put the sentinel
    | Done

  /** A message on the result channel; the sender is kept for the proofs only. */
  datatype Msg = Result(sender: nat, suite: Suite) | Sentinel(sender: nat)

  /** Where the main thread stands in `runUntilCompleted`. */
  datatype Collector = Working | Collecting(count: int) | Joining | Draining | Returned

  /** What a run starts from: the fields when `runUntilCompleted` is called, and its parameters. */
  datatype Config = Config(initial: Shared, workers: nat, start: int, continueOnFailure: bool)

  /** Thread 0 is the main thread.  The channel is the log of all messages put and how many were taken;
      `handed` lists the indices handed out and `lost` the suites whose worker stopped on an exception. */
  datatype Run = Run(shared: Shared, threads: seq<Phase>, sent: seq<Msg>, taken: nat, collector: Collector,
                     resultList: seq<Suite>, handed: seq<int>, lost: seq<Suite>)

  /** What `submit` establishes, and that there is something to run. */
  ghost predicate ValidConfig(c: Config) {
    && Counted(c.initial) && c.initial.queueLength > 0
    && (c.workers == 0 ==> c.initial.queue == [])
  }

  function Total(c: Config): int {
    c.initial.queueLength
  }

  function Skipped(c: Config): seq<Suite> {
    c.initial.mainThreadQueue[..Skips(c.workers, c.start, |c.initial.mainThreadQueue|)]
  }

  /** The main thread, and as many workers as there are, but no more than suites. */
  function Threads(c: Config): (n: nat)
    requires ValidConfig(c)
    ensures n - 1 <= c.workers && n - 1 <= Total(c) && (n - 1 == c.workers || n - 1 == Total(c))
  {
    1 + if c.workers < Total(c) then c.workers else Total(c)
  }

  function Init(c: Config): Run
    requires ValidConfig(c)
  {
    var k := |Skipped(c)|;
    Run(c.initial.(mainThreadQueue := c.initial.mainThreadQueue[k..], queueLength := c.initial.queueLength - k),
        seq(Threads(c), _ => Fetch), [], 0, Working, [], [], [])
  }

  datatype Event =
    | Get(t: nat)
    | Finish(t: nat, ok: bool)
    | Crash(t: nat)
    | Report(t: nat)
    | Judge(t: nat)
    | Leave(t: nat)
    | StartCollecting
    | Take
    | StopCollecting
    | Join
    | Drain
    | Return

  function Channel(s: Run): seq<Msg>
    requires s.taken <= |s.sent|
  {
    s.sent[s.taken..]
  }

  /** A step is possible.  `Take` with an empty channel is the one-second timeout: nothing changes, so it
      is left out. */
  ghost predicate Enabled(s: Run, e: Event) {
    && s.taken <= |s.sent|
    && match e
       case Get(t) => t < |s.threads| && s.threads[t].Fetch?
       case Finish(t, _) => t < |s.threads| && s.threads[t].Running?
       case Crash(t) => 0 < t < |s.threads| && s.threads[t].Running?
       case Report(t) => t < |s.threads| && s.threads[t].Reporting?
       case Judge(t) => t < |s.threads| && s.threads[t].Judging?
       case Leave(t) => t < |s.threads| && s.threads[t].Leaving?
       case StartCollecting => |s.threads| > 0 && s.threads[0].Done? && s.collector.Working?
       case Take => s.collector.Collecting? && s.collector.count > 0 && Channel(s) != []
       case StopCollecting => s.collector.Collecting? && s.collector.count <= 0
       case Join => s.collector.Joining? && forall t :: 0 <= t < |s.threads| ==> s.threads[t].Done?
       case Drain => s.collector.Draining? && Channel(s) != []
       case Return => s.collector.Draining? && Channel(s) == []
  }

  function Apply(c: Config, s: Run, e: Event): Run
    requires Enabled(s, e)
  {
    match e
    case Get(t) =>
      var (item, shared) := GetFrom(s.shared, Total(c), t == 0);
      if item.None? then s.(threads := s.threads[t := Leaving])
      else s.(shared := shared, threads := s.threads[t := Running(item.value.0)],
              handed := s.handed + [item.value.1])
    case Finish(t, ok) => s.(threads := s.threads[t := Reporting(s.threads[t].suite, ok)])
    case Crash(t) => s.(threads := s.threads[t := Leaving], lost := s.lost + [s.threads[t].suite])
    case Report(t) =>
      s.(threads := s.threads[t := Judging(s.threads[t].ok)], sent := s.sent + [Result(t, s.threads[t].suite)])
    case Judge(t) =>
      s.(threads := s.threads[t := Fetch],
         shared := if !s.threads[t].ok && !c.continueOnFailure then s.shared.(failure := true) else s.shared)
    case Leave(t) => s.(threads := s.threads[t := Done], sent := s.sent + [Sentinel(t)])
    case StartCollecting => s.(collector := Collecting(|s.threads|))
    case Take =>
      (match s.sent[s.taken]
       case Sentinel(_) => s.(taken := s.taken + 1, collector := Collecting(s.collector.count - 1))
       case Result(_, suite) => s.(taken := s.taken + 1, resultList := s.resultList + [suite]))
    case StopCollecting => s.(collector := Joining)
    case Join => s.(collector := Draining)
    case Drain =>
      (match s.sent[s.taken]
       case Sentinel(_) => s.(taken := s.taken + 1)
       case Result(_, suite) => s.(taken := s.taken + 1, resultList := s.resultList + [suite]))
    case Return => s.(collector := Returned)
  }

  /** The state after some events, in any interleaving; None if one of them was not possible. */
  ghost function After(c: Config, es: seq<Event>): Option<Run>
    requires ValidConfig(c)
  {
    if es == [] then Some(Init(c))
    else
      var s := After(c, es[..|es| - 1]);
      if s.Some? && Enabled(s.value, es[|es| - 1]) then Some(Apply(c, s.value, es[|es| - 1])) else None
  }

  // ---------------------------------------------------------------- sums over threads and messages

  /** How often a suite occurs. */
  ghost function Count(ss: seq<Suite>, x: Suite): nat {
    multiset(ss)[x]
  }

  lemma CountPush(ss: seq<Suite>, y: Suite, x: Suite)
    ensures Count(ss + [y], x) == Count(ss, x) + if y == x then 1 else 0
  {
  }

  lemma CountPop(ss: seq<Suite>, x: Suite)
    requires ss != []
    ensures Count(ss, x) == Count(ss[1..], x) + if ss[0] == x then 1 else 0
  {
    assert ss == [ss[0]] + ss[1..];
  }

  function HeldBy(p: Phase, x: Suite): nat {
    if (p.Running? || p.Reporting?) && p.suite == x then 1 else 0
  }

  /** How many threads are running a suite or about to report it. */
  function Held(threads: seq<Phase>, x: Suite): nat {
    if threads == [] then 0 else HeldBy(threads[0], x) + Held(threads[1..], x)
  }

  /** How many threads have not put their sentinel. */
  function Owed(threads: seq<Phase>): nat {
    if threads == [] then 0 else (if threads[0].Done? then 0 else 1) + Owed(threads[1..])
  }

  function PhaseSteps(p: Phase): nat {
    match p
    case Running(_) => 7
    case Reporting(_, _) => 6
    case Judging(_) => 4
    case Fetch => 3
    case Leaving => 2
    case Done => 0
  }

  function ThreadSteps(threads: seq<Phase>): nat {
    if threads == [] then 0 else PhaseSteps(threads[0]) + ThreadSteps(threads[1..])
  }

  lemma {:induction false} UpdateHeld(threads: seq<Phase>, t: nat, p: Phase, x: Suite)
    requires t < |threads|
    ensures Held(threads[t := p], x) + HeldBy(threads[t], x) == Held(threads, x) + HeldBy(p, x)
  {
    if t == 0 {
      assert threads[t := p][1..] == threads[1..];
    } else {
      UpdateHeld(threads[1..], t - 1, p, x);
      assert threads[t := p][1..] == threads[1..][t - 1 := p];
    }
  }

  lemma {:induction false} UpdateOwed(threads: seq<Phase>, t: nat, p: Phase)
    requires t < |threads|
    ensures Owed(threads[t := p]) + (if threads[t].Done? then 0 else 1) == Owed(threads) + if p.Done? then 0 else 1
  {
    if t == 0 {
      assert threads[t := p][1..] == threads[1..];
    } else {
      UpdateOwed(threads[1..], t - 1, p);
      assert threads[t := p][1..] == threads[1..][t - 1 := p];
    }
  }

  lemma {:induction false} UpdateSteps(threads: seq<Phase>, t: nat, p: Phase)
    requires t < |threads|
    ensures ThreadSteps(threads[t := p]) + PhaseSteps(threads[t]) == ThreadSteps(threads) + PhaseSteps(p)
  {
    if t == 0 {
      assert threads[t := p][1..] == threads[1..];
    } else {
      UpdateSteps(threads[1..], t - 1, p);
      assert threads[t := p][1..] == threads[1..][t - 1 := p];
    }
  }

  lemma {:induction false} NoneOwed(threads: seq<Phase>)
    ensures Owed(threads) == 0 <==> forall t :: 0 <= t < |threads| ==> threads[t].Done?
    ensures Owed(threads) <= |threads|
  {
    if threads != [] {
      NoneOwed(threads[1..]);
      assert forall t :: 0 < t < |threads| ==> threads[t] == threads[1..][t - 1];
    }
  }

  lemma {:induction false} NoneHeld(threads: seq<Phase>, x: Suite)
    requires forall t :: 0 <= t < |threads| ==> !threads[t].Running? && !threads[t].Reporting?
    ensures Held(threads, x) == 0
  {
    if threads != [] {
      NoneHeld(threads[1..], x);
    }
  }

  lemma {:induction false} AllFetch(n: nat)
    ensures var threads := seq(n, _ => Fetch); Owed(threads) == n && ThreadSteps(threads) == 3 * n
  {
    if n > 0 {
      AllFetch(n - 1);
      assert seq(n, _ => Fetch)[1..] == seq(n - 1, _ => Fetch);
    }
  }

  function SentinelsIn(ms: seq<Msg>): nat {
    if ms == [] then 0 else SentinelsIn(ms[..|ms| - 1]) + if ms[|ms| - 1].Sentinel? then 1 else 0
  }

  function ResultsIn(ms: seq<Msg>): seq<Suite> {
    if ms == [] then []
    else ResultsIn(ms[..|ms| - 1]) + if ms[|ms| - 1].Result? then [ms[|ms| - 1].suite] else []
  }

  lemma SentinelsPut(ms: seq<Msg>, m: Msg)
    ensures SentinelsIn(ms + [m]) == SentinelsIn(ms) + if m.Sentinel? then 1 else 0
    ensures ResultsIn(ms + [m]) == ResultsIn(ms) + if m.Result? then [m.suite] else []
  {
    assert (ms + [m])[..|ms|] == ms;
  }

  lemma {:induction false} SentinelsTake(ms: seq<Msg>)
    requires ms != []
    ensures SentinelsIn(ms) == SentinelsIn(ms[1..]) + if ms[0].Sentinel? then 1 else 0
  {
    if |ms| == 1 {
      assert ms[..0] == [] && ms[1..] == [];
    } else {
      SentinelsTake(ms[..|ms| - 1]);
      assert ms[..|ms| - 1][1..] == ms[1..][..|ms| - 2];
    }
  }

  lemma {:induction false} NoSentinels(ms: seq<Msg>)
    ensures SentinelsIn(ms) == 0 <==> forall i :: 0 <= i < |ms| ==> !ms[i].Sentinel?
  {
    if ms != [] {
      NoSentinels(ms[..|ms| - 1]);
    }
  }

  // ---------------------------------------------------------------- what every step keeps

  /** The count is right, and indices are handed out one after the other, starting after the skipped. */
  ghost predicate IndexInv(c: Config, s: Run) {
    && Counted(s.shared)
    && s.shared.queueLength + |s.handed| + |Skipped(c)| == Total(c)
    && forall i :: 0 <= i < |s.handed| ==> s.handed[i] == |Skipped(c)| + 1 + i
  }

  /** Every submitted suite is in exactly one place. */
  ghost predicate ConservationInv(c: Config, s: Run) {
    && s.taken <= |s.sent|
    && s.resultList == ResultsIn(s.sent[..s.taken])
    && forall x :: Submitted(c, x) == Count(Skipped(c), x) + Accounted(s, x)
  }

  ghost function Submitted(c: Config, x: Suite): nat {
    Count(c.initial.queue, x) + Count(c.initial.mainThreadQueue, x)
  }

  /** How often a suite is waiting, held by a thread, reported or lost. */
  ghost function Accounted(s: Run, x: Suite): nat {
    Count(s.shared.queue, x) + Count(s.shared.mainThreadQueue, x) + Held(s.threads, x)
    + Count(ResultsIn(s.sent), x) + Count(s.lost, x)
  }

  /** A thread is done when it has put its sentinel, and puts nothing after it. */
  ghost predicate LogInv(s: Run) {
    && (forall i :: 0 <= i < |s.sent| ==> s.sent[i].sender < |s.threads|)
    && (forall t :: 0 <= t < |s.threads| ==> (s.threads[t].Done? <==> Sentinel(t) in s.sent))
    && (forall i, j :: 0 <= i < j < |s.sent| && s.sent[i].Sentinel? ==> s.sent[i].sender != s.sent[j].sender)
  }

  /** How many sentinels the main thread still has to take. */
  function Due(s: Run): int {
    match s.collector
    case Working => |s.threads|
    case Collecting(count) => count
    case _ => 0
  }

  ghost predicate CountInv(c: Config, s: Run)
    requires ValidConfig(c)
  {
    && s.taken <= |s.sent| && |s.threads| == Threads(c)
    && Due(s) == Owed(s.threads) + SentinelsIn(Channel(s))
    && (!s.collector.Working? ==> s.threads[0].Done?)
  }

  predicate Left(p: Phase) {
    p.Leaving? || p.Done?
  }

  /** Unless a suite failed or a worker stopped, threads leave only when their queue is empty. */
  ghost predicate EmptyInv(s: Run) {
    !s.shared.failure && s.lost == [] ==>
      forall t :: 0 <= t < |s.threads| && Left(s.threads[t]) ==>
                    if t == 0 then s.shared.mainThreadQueue == [] else s.shared.queue == []
  }

  ghost predicate WorkersInv(s: Run) {
    |s.threads| == 1 ==> s.shared.queue == []
  }

  ghost predicate Inv(c: Config, s: Run)
    requires ValidConfig(c)
  {
    IndexInv(c, s) && ConservationInv(c, s) && LogInv(s) && CountInv(c, s) && EmptyInv(s) && WorkersInv(s)
  }

  lemma InitInv(c: Config)
    requires ValidConfig(c)
    ensures Inv(c, Init(c))
  {
    AllFetch(Threads(c));
    var m, k := c.initial.mainThreadQueue, |Skipped(c)|;
    assert m == m[..k] + m[k..];
    forall x ensures Submitted(c, x) == Count(Skipped(c), x) + Accounted(Init(c), x) {
      NoneHeld(Init(c).threads, x);
    }
  }

  lemma IndexStep(c: Config, s: Run, e: Event)
    requires IndexInv(c, s) && Enabled(s, e)
    ensures IndexInv(c, Apply(c, s, e))
  {
  }

  /** What is handed out moves from a queue to a thread. */
  lemma GetMoves(c: Config, s: Run, t: nat)
    requires Enabled(s, Get(t))
    ensures var q := if t == 0 then s.shared.mainThreadQueue else s.shared.queue;
            var s' := Apply(c, s, Get(t));
            var next := if s.shared.failure || q == [] then Leaving else Running(q[0]);
            && s'.threads == s.threads[t := next] && s'.sent == s.sent && s'.lost == s.lost
            && if next.Leaving? then s'.shared == s.shared
               else if t == 0 then s'.shared.mainThreadQueue == q[1..] && s'.shared.queue == s.shared.queue
               else s'.shared.queue == q[1..] && s'.shared.mainThreadQueue == s.shared.mainThreadQueue
  {
  }

  lemma GetConserves(c: Config, s: Run, t: nat, x: Suite)
    requires Enabled(s, Get(t))
    ensures Accounted(Apply(c, s, Get(t)), x) == Accounted(s, x)
  {
    var q := if t == 0 then s.shared.mainThreadQueue else s.shared.queue;
    var next := if s.shared.failure || q == [] then Leaving else Running(q[0]);
    GetMoves(c, s, t);
    UpdateHeld(s.threads, t, next, x);
    if next.Running? {
      CountPop(q, x);
    }
  }

  lemma ReportConserves(c: Config, s: Run, t: nat, x: Suite)
    requires Enabled(s, Report(t))
    ensures Accounted(Apply(c, s, Report(t)), x) == Accounted(s, x)
  {
    var p := s.threads[t];
    UpdateHeld(s.threads, t, Judging(p.ok), x);
    SentinelsPut(s.sent, Result(t, p.suite));
    CountPush(ResultsIn(s.sent), p.suite, x);
  }

  lemma LeaveConserves(c: Config, s: Run, t: nat, x: Suite)
    requires Enabled(s, Leave(t))
    ensures Accounted(Apply(c, s, Leave(t)), x) == Accounted(s, x)
  {
    UpdateHeld(s.threads, t, Done, x);
    SentinelsPut(s.sent, Sentinel(t));
    assert ResultsIn(s.sent) + [] == ResultsIn(s.sent);
  }

  lemma CrashConserves(c: Config, s: Run, t: nat, x: Suite)
    requires Enabled(s, Crash(t))
    ensures Accounted(Apply(c, s, Crash(t)), x) == Accounted(s, x)
  {
    UpdateHeld(s.threads, t, Leaving, x);
    CountPush(s.lost, s.threads[t].suite, x);
  }

  lemma MoveConserves(c: Config, s: Run, t: nat, e: Event, x: Suite)
    requires Enabled(s, e) && (e.Finish? || e.Judge?) && e.t == t
    ensures Accounted(Apply(c, s, e), x) == Accounted(s, x)
  {
    UpdateHeld(s.threads, t, Apply(c, s, e).threads[t], x);
  }

  lemma AccountedStep(c: Config, s: Run, e: Event, x: Suite)
    requires Enabled(s, e)
    ensures Accounted(Apply(c, s, e), x) == Accounted(s, x)
  {
    match e
    case Get(t) => GetConserves(c, s, t, x);
    case Report(t) => ReportConserves(c, s, t, x);
    case Leave(t) => LeaveConserves(c, s, t, x);
    case Finish(t, ok) => MoveConserves(c, s, t, e, x);
    case Crash(t) => CrashConserves(c, s, t, x);
    case Judge(t) => MoveConserves(c, s, t, e, x);
    case _ =>
  }

  lemma TakenStep(c: Config, s: Run, e: Event)
    requires Enabled(s, e) && s.resultList == ResultsIn(s.sent[..s.taken])
    ensures var s' := Apply(c, s, e); s'.taken <= |s'.sent| && s'.resultList == ResultsIn(s'.sent[..s'.taken])
  {
    var s' := Apply(c, s, e);
    match e
    case Report(t) => assert s'.sent[..s.taken] == s.sent[..s.taken];
    case Leave(t) => assert s'.sent[..s.taken] == s.sent[..s.taken];
    case Take => TakeOne(s);
    case Drain => TakeOne(s);
    case _ =>
  }

  lemma ConservationStep(c: Config, s: Run, e: Event)
    requires ConservationInv(c, s) && Enabled(s, e)
    ensures ConservationInv(c, Apply(c, s, e))
  {
    TakenStep(c, s, e);
    forall x ensures Submitted(c, x) == Count(Skipped(c), x) + Accounted(Apply(c, s, e), x) {
      AccountedStep(c, s, e, x);
    }
  }

  lemma TakeOne(s: Run)
    requires s.taken < |s.sent|
    ensures ResultsIn(s.sent[..s.taken + 1])
         == ResultsIn(s.sent[..s.taken]) + if s.sent[s.taken].Result? then [s.sent[s.taken].suite] else []
    ensures SentinelsIn(Channel(s)) == SentinelsIn(s.sent[s.taken + 1..]) + if s.sent[s.taken].Sentinel? then 1 else 0
  {
    SentinelsPut(s.sent[..s.taken], s.sent[s.taken]);
    assert s.sent[..s.taken + 1] == s.sent[..s.taken] + [s.sent[s.taken]];
    SentinelsTake(Channel(s));
    assert Channel(s)[1..] == s.sent[s.taken + 1..];
  }

  /** The steps that put a message. */
  lemma LogPut(c: Config, s: Run, e: Event)
    requires LogInv(s) && Enabled(s, e) && (e.Report? || e.Leave?)
    ensures LogInv(Apply(c, s, e))
  {
    var s' := Apply(c, s, e);
    var m := s'.sent[|s.sent|];
    PutShape(c, s, e.t, e);
    assert m.sender == e.t && !s.threads[m.sender].Done?;
    forall i | 0 <= i < |s.sent| && s.sent[i].Sentinel? ensures s.sent[i].sender != m.sender {
      assert s.sent[i] == Sentinel(s.sent[i].sender) && s.sent[i] in s.sent;
    }
    forall t | 0 <= t < |s.threads| ensures s'.threads[t].Done? <==> Sentinel(t) in s'.sent {
      assert Sentinel(t) in s'.sent <==> Sentinel(t) in s.sent || Sentinel(t) == m;
    }
  }

  lemma LogStep(c: Config, s: Run, e: Event)
    requires LogInv(s) && Enabled(s, e)
    ensures LogInv(Apply(c, s, e))
  {
    if e.Report? || e.Leave? {
      LogPut(c, s, e);
    }
  }

  lemma CountPut(c: Config, s: Run, t: nat, e: Event)
    requires ValidConfig(c) && CountInv(c, s) && Enabled(s, e) && (e.Report? || e.Leave?) && e.t == t
    ensures CountInv(c, Apply(c, s, e))
  {
    var s' := Apply(c, s, e);
    PutShape(c, s, t, e);
    UpdateOwed(s.threads, t, s'.threads[t]);
    SentinelsPut(Channel(s), s'.sent[|s.sent|]);
  }

  /** A thread puts one message at the end of the channel. */
  lemma PutShape(c: Config, s: Run, t: nat, e: Event)
    requires Enabled(s, e) && (e.Report? || e.Leave?) && e.t == t
    ensures var s' := Apply(c, s, e);
            && t < |s.threads| && |s'.threads| == |s.threads| && s'.threads == s.threads[t := s'.threads[t]]
            && |s'.sent| == |s.sent| + 1 && s'.sent == s.sent + [s'.sent[|s.sent|]] && s'.taken == s.taken
            && Channel(s') == Channel(s) + [s'.sent[|s.sent|]]
  {
    var s' := Apply(c, s, e);
    assert s'.sent == s.sent + [s'.sent[|s.sent|]];
    assert s'.sent[s.taken..] == s.sent[s.taken..] + [s'.sent[|s.sent|]];
  }

  lemma CountMove(c: Config, s: Run, t: nat, e: Event)
    requires ValidConfig(c) && CountInv(c, s) && Enabled(s, e)
    requires (e.Get? || e.Finish? || e.Crash? || e.Judge?) && e.t == t
    ensures CountInv(c, Apply(c, s, e))
  {
    UpdateOwed(s.threads, t, Apply(c, s, e).threads[t]);
  }

  lemma CountTake(c: Config, s: Run, e: Event)
    requires ValidConfig(c) && CountInv(c, s) && Enabled(s, e) && (e.Take? || e.Drain?)
    ensures CountInv(c, Apply(c, s, e))
  {
    TakeOne(s);
  }

  lemma CountStep(c: Config, s: Run, e: Event)
    requires ValidConfig(c) && CountInv(c, s) && Enabled(s, e)
    ensures CountInv(c, Apply(c, s, e))
  {
    match e
    case Get(t) => CountMove(c, s, t, e);
    case Finish(t, ok) => CountMove(c, s, t, e);
    case Crash(t) => CountMove(c, s, t, e);
    case Judge(t) => CountMove(c, s, t, e);
    case Report(t) => CountPut(c, s, t, e);
    case Leave(t) => CountPut(c, s, t, e);
    case Take => CountTake(c, s, e);
    case Drain => CountTake(c, s, e);
    case Join => NoneOwed(s.threads);
    case _ =>
  }

  lemma EmptyStep(c: Config, s: Run, e: Event)
    requires EmptyInv(s) && WorkersInv(s) && Enabled(s, e)
    ensures EmptyInv(Apply(c, s, e)) && WorkersInv(Apply(c, s, e))
  {
  }

  /** Safety: all of this holds after any events in any interleaving. */
  lemma {:induction false} InvAlways(c: Config, es: seq<Event>)
    requires ValidConfig(c) && After(c, es).Some?
    ensures Inv(c, After(c, es).value)
    decreases |es|
  {
    if es == [] {
      InitInv(c);
    } else {
      var es', e := es[..|es| - 1], es[|es| - 1];
      InvAlways(c, es');
      var s := After(c, es').value;
      IndexStep(c, s, e);
      ConservationStep(c, s, e);
      LogStep(c, s, e);
      CountStep(c, s, e);
      EmptyStep(c, s, e);
    }
  }

  // ---------------------------------------------------------------- what follows for every run

  /** Once `failure` is set it stays set, and no suite is handed out. */
  lemma FailureStops(c: Config, s: Run, e: Event)
    requires Enabled(s, e) && s.shared.failure
    ensures var s' := Apply(c, s, e);
            s'.shared.failure && s'.handed == s.handed
            && s'.shared.queue == s.shared.queue && s'.shared.mainThreadQueue == s.shared.mainThreadQueue
  {
  }

  lemma {:induction false} FailureStopsForGood(c: Config, es: seq<Event>, more: seq<Event>)
    requires ValidConfig(c) && After(c, es).Some? && After(c, es).value.shared.failure
    requires After(c, es + more).Some?
    ensures var s, s' := After(c, es).value, After(c, es + more).value;
            s'.shared.failure && s'.handed == s.handed
            && s'.shared.queue == s.shared.queue && s'.shared.mainThreadQueue == s.shared.mainThreadQueue
    decreases |more|
  {
    if more == [] {
      assert es + more == es;
    } else {
      var k := |more| - 1;
      assert (es + more)[..|es + more| - 1] == es + more[..k];
      FailureStopsForGood(c, es, more[..k]);
      FailureStops(c, After(c, es + more[..k]).value, more[k]);
    }
  }

  /** All sentinels taken: every thread is done and the channel is empty. */
  lemma NothingDue(c: Config, s: Run)
    requires ValidConfig(c) && LogInv(s) && CountInv(c, s) && Due(s) == 0
    ensures Channel(s) == []
    ensures forall t :: 0 <= t < |s.threads| ==> s.threads[t].Done?
  {
    NoneOwed(s.threads);
    if s.taken < |s.sent| {
      SenderOwes(s);
    }
  }

  /** The sender of an untaken message still owes its sentinel, or it is in the channel. */
  lemma SenderOwes(s: Run)
    requires LogInv(s) && s.taken < |s.sent|
    ensures !s.threads[s.sent[s.taken].sender].Done? || SentinelsIn(Channel(s)) > 0
  {
    var t := s.sent[s.taken].sender;
    if s.threads[t].Done? {
      var i :| 0 <= i < |s.sent| && s.sent[i] == Sentinel(t);
      assert s.taken <= i;
      assert Channel(s)[i - s.taken].Sentinel?;
      NoSentinels(Channel(s));
    }
  }

  /** While the main thread waits for sentinels, a message is there or some thread still owes one. */
  lemma WaitIsNotInVain(c: Config, s: Run)
    requires ValidConfig(c) && CountInv(c, s) && s.collector.Collecting? && s.collector.count > 0
    ensures Channel(s) != [] || exists t :: 0 <= t < |s.threads| && !s.threads[t].Done?
  {
    NoneOwed(s.threads);
    if Channel(s) == [] {
      assert Owed(s.threads) > 0;
    }
  }

  lemma ThreadCanStep(s: Run, t: nat)
    requires s.taken <= |s.sent| && t < |s.threads| && !s.threads[t].Done?
    ensures exists e :: Enabled(s, e)
  {
    match s.threads[t]
    case Fetch => assert Enabled(s, Get(t));
    case Running(_) => assert Enabled(s, Finish(t, true));
    case Reporting(_, _) => assert Enabled(s, Report(t));
    case Judging(_) => assert Enabled(s, Judge(t));
    case Leaving => assert Enabled(s, Leave(t));
  }

  /** No deadlock: until `runUntilCompleted` returns, something can happen. */
  lemma NoDeadlock(c: Config, es: seq<Event>)
    requires ValidConfig(c) && After(c, es).Some? && !After(c, es).value.collector.Returned?
    ensures exists e :: Enabled(After(c, es).value, e)
  {
    InvAlways(c, es);
    var s := After(c, es).value;
    match s.collector
    case Working =>
      if s.threads[0].Done? {
        assert Enabled(s, StartCollecting);
      } else {
        ThreadCanStep(s, 0);
      }
    case Collecting(count) =>
      if count <= 0 {
        assert Enabled(s, StopCollecting);
      } else {
        WaitIsNotInVain(c, s);
        if Channel(s) != [] {
          assert Enabled(s, Take);
        } else {
          var t :| 0 <= t < |s.threads| && !s.threads[t].Done?;
          ThreadCanStep(s, t);
        }
      }
    case Joining =>
      NothingDue(c, s);
      assert Enabled(s, Join);
    case Draining =>
      NothingDue(c, s);
      assert Enabled(s, Return);
  }

  /** The tail loop of `runUntilCompleted` never finds anything. */
  lemma TailFindsNothing(c: Config, es: seq<Event>)
    requires ValidConfig(c) && After(c, es).Some?
    ensures !Enabled(After(c, es).value, Drain)
  {
    InvAlways(c, es);
    var s := After(c, es).value;
    if s.collector.Draining? {
      NothingDue(c, s);
    }
  }

  /** Every step uses up some of a budget that is fixed at the start. */
  function StepsLeft(s: Run): int {
    5 * (|s.shared.queue| + |s.shared.mainThreadQueue|) + ThreadSteps(s.threads) + (|s.sent| - s.taken)
    + match s.collector
      case Working => 4
      case Collecting(_) => 3
      case Joining => 2
      case Draining => 1
      case Returned => 0
  }

  lemma StepsDecrease(c: Config, s: Run, e: Event)
    requires Enabled(s, e)
    ensures StepsLeft(Apply(c, s, e)) < StepsLeft(s)
  {
    if e.Get? || e.Finish? || e.Crash? || e.Report? || e.Judge? || e.Leave? {
      ThreadStepsDecrease(c, s, e, e.t);
    }
  }

  lemma ThreadStepsDecrease(c: Config, s: Run, e: Event, t: nat)
    requires Enabled(s, e) && t < |s.threads|
    requires (e.Get? || e.Finish? || e.Crash? || e.Report? || e.Judge? || e.Leave?) && e.t == t
    ensures StepsLeft(Apply(c, s, e)) < StepsLeft(s)
  {
    var s' := Apply(c, s, e);
    UpdateSteps(s.threads, t, s'.threads[t]);
    assert s'.threads == s.threads[t := s'.threads[t]];
  }

  /** Termination under every schedule: no run has more steps than this. */
  lemma {:induction false} RunsEnd(c: Config, es: seq<Event>)
    requires ValidConfig(c) && After(c, es).Some?
    ensures |es| <= 5 * Total(c) + 3 * Threads(c) + 4
  {
    BudgetKept(c, es);
    AllFetch(Threads(c));
    InvAlways(c, es);
  }

  lemma {:induction false} BudgetKept(c: Config, es: seq<Event>)
    requires ValidConfig(c) && After(c, es).Some?
    ensures |es| + StepsLeft(After(c, es).value) <= StepsLeft(Init(c))
    decreases |es|
  {
    if es != [] {
      var k := |es| - 1;
      BudgetKept(c, es[..k]);
      StepsDecrease(c, After(c, es[..k]).value, es[k]);
    }
  }

  /** At the end every suite was skipped, reported, lost with its worker, or left waiting. */
  lemma AtTheEnd(c: Config, es: seq<Event>)
    requires ValidConfig(c) && After(c, es).Some? && After(c, es).value.collector.Returned?
    ensures var s := After(c, es).value;
            forall x :: Submitted(c, x) == Count(Skipped(c), x) + Count(s.resultList, x) + Count(s.lost, x)
                                         + Count(s.shared.queue, x) + Count(s.shared.mainThreadQueue, x)
  {
    InvAlways(c, es);
    var s := After(c, es).value;
    NothingDue(c, s);
    assert s.sent[..s.taken] == s.sent;
    forall x ensures Submitted(c, x) == Count(Skipped(c), x) + Count(s.resultList, x) + Count(s.lost, x)
                                      + Count(s.shared.queue, x) + Count(s.shared.mainThreadQueue, x) {
      NoneHeld(s.threads, x);
    }
  }

  // ---------------------------------------------------------------- failures

  /** How the suite that thread t finished last ended. */
  ghost function LastFinish(es: seq<Event>, t: nat): Option<bool> {
    if es == [] then None
    else if es[|es| - 1].Finish? && es[|es| - 1].t == t then Some(es[|es| - 1].ok)
    else LastFinish(es[..|es| - 1], t)
  }

  /** Event k judges a suite that failed. */
  ghost predicate JudgesFailure(es: seq<Event>, k: nat) {
    k < |es| && es[k].Judge? && LastFinish(es[..k], es[k].t) == Some(false)
  }

  lemma {:induction false} JudgedAsFinished(c: Config, es: seq<Event>, t: nat)
    requires ValidConfig(c) && After(c, es).Some? && t < |After(c, es).value.threads|
    requires After(c, es).value.threads[t].Reporting? || After(c, es).value.threads[t].Judging?
    ensures LastFinish(es, t) == Some(After(c, es).value.threads[t].ok)
    decreases |es|
  {
    if es != [] && LastFinish(es, t) == LastFinish(es[..|es| - 1], t) {
      var before := After(c, es[..|es| - 1]).value;
      if before.threads[t].Reporting? || before.threads[t].Judging? {
        JudgedAsFinished(c, es[..|es| - 1], t);
      }
    }
  }

  lemma JudgesPrefix(es: seq<Event>, k: nat)
    requires es != [] && k < |es| - 1
    ensures JudgesFailure(es, k) <==> JudgesFailure(es[..|es| - 1], k)
  {
    assert es[..|es| - 1][..k] == es[..k];
  }

  lemma FailureStep(c: Config, es: seq<Event>)
    requires ValidConfig(c) && es != [] && After(c, es).Some?
    ensures After(c, es).value.shared.failure
       <==> After(c, es[..|es| - 1]).value.shared.failure
            || (!c.continueOnFailure && JudgesFailure(es, |es| - 1))
  {
    var k := |es| - 1;
    if es[k].Judge? {
      JudgedAsFinished(c, es[..k], es[k].t);
    }
  }

  /** `failure` is set exactly when it was before the run, or a suite that failed was judged and the run does
      not go on after failures. */
  lemma {:induction false} FailureIff(c: Config, es: seq<Event>)
    requires ValidConfig(c) && After(c, es).Some?
    ensures After(c, es).value.shared.failure
       <==> c.initial.failure || (!c.continueOnFailure && exists k: nat :: JudgesFailure(es, k))
    decreases |es|
  {
    if es != [] {
      var k := |es| - 1;
      FailureIff(c, es[..k]);
      FailureStep(c, es);
      if j: nat :| JudgesFailure(es[..k], j) {
        JudgesPrefix(es, j);
      }
      if j: nat :| JudgesFailure(es, j) && j < k {
        JudgesPrefix(es, j);
      }
    }
  }

  /** No suite failed. */
  ghost predicate AllSucceed(es: seq<Event>) {
    forall k :: 0 <= k < |es| && es[k].Finish? ==> es[k].ok
  }

  lemma {:induction false} SucceededLast(es: seq<Event>, t: nat)
    requires AllSucceed(es)
    ensures LastFinish(es, t) != Some(false)
  {
    if es != [] {
      SucceededLast(es[..|es| - 1], t);
    }
  }

  lemma {:induction false} LostIff(c: Config, es: seq<Event>)
    requires ValidConfig(c) && After(c, es).Some?
    ensures After(c, es).value.lost == [] <==> forall k :: 0 <= k < |es| ==> !es[k].Crash?
    decreases |es|
  {
    if es != [] {
      var k := |es| - 1;
      LostIff(c, es[..k]);
      assert After(c, es).value == Apply(c, After(c, es[..k]).value, es[k]);
      assert After(c, es).value.lost == [] <==> After(c, es[..k]).value.lost == [] && !es[k].Crash?;
    }
  }

  lemma LeftStaysLeft(c: Config, s: Run, e: Event, t: nat)
    requires Enabled(s, e) && t < |s.threads| && (Left(s.threads[t]) || e == Crash(t))
    ensures t < |Apply(c, s, e).threads| && Left(Apply(c, s, e).threads[t])
  {
  }

  /** A worker that stops on an exception runs nothing more. */
  lemma {:induction false} CrashEndsWorker(c: Config, es: seq<Event>, t: nat)
    requires ValidConfig(c) && After(c, es).Some? && exists k :: 0 <= k < |es| && es[k] == Crash(t)
    ensures t < |After(c, es).value.threads| && Left(After(c, es).value.threads[t])
    decreases |es|
  {
    var k := |es| - 1;
    if es[k] != Crash(t) {
      var j :| 0 <= j < |es| && es[j] == Crash(t);
      assert es[..k][j] == Crash(t);
      CrashEndsWorker(c, es[..k], t);
    }
    LeftStaysLeft(c, After(c, es[..k]).value, es[k], t);
  }

  // ---------------------------------------------------------------- the order of the suites

  function QueueOf(s: Run, mainThread: bool): seq<Suite> {
    if mainThread then s.shared.mainThreadQueue else s.shared.queue
  }

  /** The suite that the main thread, or a worker, has got with the event that led to s. */
  ghost function HandedBy(e: Event, s: Run, mainThread: bool): seq<Suite> {
    if e.Get? && (e.t == 0) == mainThread && e.t < |s.threads| && s.threads[e.t].Running? then [s.threads[e.t].suite]
    else []
  }

  /** The suites handed to the main thread, or to the workers, in order. */
  ghost function HandedTo(c: Config, es: seq<Event>, mainThread: bool): seq<Suite>
    requires ValidConfig(c)
  {
    if es == [] || After(c, es).None? then []
    else HandedTo(c, es[..|es| - 1], mainThread) + HandedBy(es[|es| - 1], After(c, es).value, mainThread)
  }

  /** What a step hands out comes from the front of the queue. */
  lemma ServedStep(c: Config, s: Run, e: Event, mainThread: bool)
    requires Enabled(s, e)
    ensures HandedBy(e, Apply(c, s, e), mainThread) + QueueOf(Apply(c, s, e), mainThread) == QueueOf(s, mainThread)
  {
    if e.Get? {
      GetTakesFirst(c, s, e.t);
    }
    assert [] + QueueOf(s, mainThread) == QueueOf(s, mainThread);
  }

  lemma GetTakesFirst(c: Config, s: Run, t: nat)
    requires Enabled(s, Get(t))
    ensures var s' := Apply(c, s, Get(t));
            && QueueOf(s', t != 0) == QueueOf(s, t != 0)
            && QueueOf(s, t == 0) == (if s'.threads[t].Running? then [s'.threads[t].suite] else [])
                                     + QueueOf(s', t == 0)
            && (s'.threads[t].Running? <==> !s.shared.failure && QueueOf(s, t == 0) != [])
  {
  }

  /** Each queue is served first come, first served: what was handed out followed by what is waiting is the
      queue as it was after skipping. */
  lemma {:induction false} FirstComeFirstServed(c: Config, es: seq<Event>)
    requires ValidConfig(c) && After(c, es).Some?
    ensures var s := After(c, es).value;
            && Skipped(c) + (HandedTo(c, es, true) + s.shared.mainThreadQueue) == c.initial.mainThreadQueue
            && HandedTo(c, es, false) + s.shared.queue == c.initial.queue
    decreases |es|
  {
    if es != [] {
      var k := |es| - 1;
      var s := After(c, es[..k]).value;
      FirstComeFirstServed(c, es[..k]);
      ServedStep(c, s, es[k], true);
      ServedStep(c, s, es[k], false);
      Regroup(HandedTo(c, es[..k], true), HandedBy(es[k], After(c, es).value, true), QueueOf(After(c, es).value, true));
      Regroup(HandedTo(c, es[..k], false), HandedBy(es[k], After(c, es).value, false),
              QueueOf(After(c, es).value, false));
    }
  }

  /** Without workers the first suite that is run is number `start`, the one at that place of the queue; with
      workers it is number 1. */
  lemma FirstIsStart(c: Config, es: seq<Event>)
    requires ValidConfig(c) && After(c, es).Some? && After(c, es).value.handed != []
    ensures var h := After(c, es).value.handed;
            if c.workers == 0 && c.start >= 1
            then h[0] == c.start <= |c.initial.mainThreadQueue|
                 && (HandedTo(c, es, true) != [] ==> HandedTo(c, es, true)[0] == c.initial.mainThreadQueue[c.start - 1])
            else h[0] == 1
  {
    InvAlways(c, es);
    FirstComeFirstServed(c, es);
    var k := |Skipped(c)|;
    var m := c.initial.mainThreadQueue;
    if HandedTo(c, es, true) != [] {
      assert (Skipped(c) + (HandedTo(c, es, true) + After(c, es).value.shared.mainThreadQueue))[k]
          == HandedTo(c, es, true)[0];
    }
  }

  // ---------------------------------------------------------------- complete results

  /** Without a failure or a lost worker, the returned list is a permutation of the unskipped suites. */
  lemma NothingWaits(c: Config, es: seq<Event>)
    requires ValidConfig(c) && After(c, es).Some?
    requires var s := After(c, es).value; s.collector.Returned? && !s.shared.failure && s.lost == []
    ensures var s := After(c, es).value;
            && s.shared.queue == [] && s.shared.mainThreadQueue == []
            && multiset(s.resultList) + multiset(Skipped(c))
            == multiset(c.initial.queue) + multiset(c.initial.mainThreadQueue)
  {
    InvAlways(c, es);
    AtTheEnd(c, es);
    var s := After(c, es).value;
    NothingDue(c, s);
    assert Left(s.threads[0]);
    if |s.threads| > 1 {
      assert Left(s.threads[1]);
    }
    var a := multiset(s.resultList) + multiset(Skipped(c));
    var b := multiset(c.initial.queue) + multiset(c.initial.mainThreadQueue);
    forall x ensures a[x] == b[x] {
      assert Submitted(c, x) == Count(Skipped(c), x) + Count(s.resultList, x);
    }
  }

  /** If no suite fails, or the run goes on after failures, and no worker stops on an exception, the returned
      list is a permutation of the unskipped suites. */
  lemma CompleteResults(c: Config, es: seq<Event>)
    requires ValidConfig(c) && !c.initial.failure
    requires After(c, es).Some? && After(c, es).value.collector.Returned?
    requires c.continueOnFailure || AllSucceed(es)
    requires forall k :: 0 <= k < |es| ==> !es[k].Crash?
    ensures var s := After(c, es).value;
            && s.shared.queue == [] && s.shared.mainThreadQueue == []
            && multiset(s.resultList) + multiset(Skipped(c))
            == multiset(c.initial.queue) + multiset(c.initial.mainThreadQueue)
  {
    FailureIff(c, es);
    LostIff(c, es);
    if !c.continueOnFailure {
      forall k: nat ensures !JudgesFailure(es, k) {
        if k < |es| && es[k].Judge? {
          SucceededLast(es[..k], es[k].t);
        }
      }
    }
    NothingWaits(c, es);
  }

  /** Indices handed out are distinct, increase by one and lie between 1 and the total. */
  lemma IndicesInRange(c: Config, es: seq<Event>)
    requires ValidConfig(c) && After(c, es).Some?
    ensures var h := After(c, es).value.handed;
            && (forall i :: 0 <= i < |h| ==> 1 <= h[i] <= Total(c))
            && (forall i :: 0 < i < |h| ==> h[i] == h[i - 1] + 1)
  {
    InvAlways(c, es);
  }
}
