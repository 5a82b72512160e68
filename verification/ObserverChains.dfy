/**
 * Chains of observers (cpp/include/Ice/MetricsObserverI.h): an observer that replaces another keeps the
 * entries they share attached, so one attach of an entry lasts for a stint of consecutive observers of
 * the chain.
 *
 * In every reachable world the attaches of an entry are its stints, and a stint is credited once, when
 * its last observer lets go of the entry, with the time of the chain up to then.
 */
module ObserverChains {
  import opened Common
  import opened Metrics
  import opened Observers

  // ---------------------------------------------------------------- what an observer has paid

  /** What was passed over because the observer that replaced this one has it. */
  ghost function Kept(ob: Observer): seq<Ref> {
    match ob.phase
    case Dropping(_, kept, _) => kept
    case Gone(kept) => kept
    case _ => []
  }

  /** 1 if the observer's loop has come past the entry and detached it. */
  ghost function Paid(ob: Observer, r: Ref): nat {
    match ob.phase
    case Live => 0
    case Dropping(k, kept, _) => if k <= |ob.objects| && r in ob.objects[..k] && r !in kept then 1 else 0
    case Leaving(k, _) => if k <= |ob.objects| && r in ob.objects[..k] then 1 else 0
    case Gone(kept) => if r in ob.objects && r !in kept then 1 else 0
  }

  /** The number of credits given for an entry on behalf of an observer. */
  ghost function CreditsFor(credits: seq<Credit>, o: nat, r: Ref): nat {
    if credits == [] then 0
    else
      var c := credits[|credits| - 1];
      CreditsFor(credits[..|credits| - 1], o, r) + if c.owner == o && c.ref == r then 1 else 0
  }

  /** Each observer has given one credit for each entry that its loop has detached, and no other. */
  ghost predicate PaidInv(w: World) {
    && (forall o: nat, r :: o < |w.observers| ==> CreditsFor(w.credits, o, r) == Paid(w.observers[o], r))
    && forall o: nat, r :: o >= |w.observers| ==> CreditsFor(w.credits, o, r) == 0
  }

  lemma CreditsForAppend(credits: seq<Credit>, c: Credit, o: nat, r: Ref)
    ensures CreditsFor(credits + [c], o, r) == CreditsFor(credits, o, r) + if c.owner == o && c.ref == r then 1 else 0
  {
    assert (credits + [c])[..|credits|] == credits;
  }

  /** The part of a list before k + 1. */
  lemma HeadWith(objects: seq<Ref>, k: nat, r: Ref)
    requires k < |objects| && forall i, j :: 0 <= i < j < |objects| ==> objects[i].map_ != objects[j].map_
    ensures r in objects[..k + 1] <==> r in objects[..k] || r == objects[k]
    ensures objects[k] !in objects[..k]
  {
    assert objects[..k + 1] == objects[..k] + [objects[k]];
  }

  lemma AdvancedPays(ob: Observer, o: nat, r: Ref)
    requires (ob.phase.Dropping? || ob.phase.Leaving?) && ob.phase.k <= |ob.objects|
    requires forall i, j :: 0 <= i < j < |ob.objects| ==> ob.objects[i].map_ != ob.objects[j].map_
    ensures Paid(Advanced(ob), r) == Paid(ob, r) + if Detaches(ob) && NextCredit(ob, o).ref == r then 1 else 0
  {
    if ob.phase.k < |ob.objects| {
      HeadWith(ob.objects, ob.phase.k, r);
    } else {
      assert ob.objects[..ob.phase.k] == ob.objects;
    }
  }

  lemma LoopKeepsPaid(w: World, e: Event, o: nat)
    requires ObserversInv(w) && PaidInv(w) && Enabled(w, e) && Defined(w, e) && (e == DropNext(o) || e == LeaveNext(o))
    ensures PaidInv(Apply(w, e))
  {
    var w', ob := Apply(w, e), w.observers[o];
    TurnOfLoop(w, e, o);
    forall p: nat, r
      ensures CreditsFor(w'.credits, p, r) == if p < |w'.observers| then Paid(w'.observers[p], r) else 0
    {
      AdvancedPays(ob, o, r);
      if Detaches(ob) {
        CreditsForAppend(w.credits, NextCredit(ob, o), p, r);
      }
    }
  }

  /** All other steps give no credit and leave what was paid. */
  lemma OthersKeepPaid(w: World, e: Event)
    requires HelpersInv(w) && BuildInv(w) && PaidInv(w) && Enabled(w, e) && Defined(w, e)
    requires !e.DropNext? && !e.LeaveNext?
    ensures PaidInv(Apply(w, e))
  {
    var w' := Apply(w, e);
    assert w'.credits == w.credits;
    forall o, r | 0 <= o < |w'.observers| ensures CreditsFor(w'.credits, o, r) == Paid(w'.observers[o], r) {
      if o < |w.observers| && w'.observers[o] != w.observers[o] {
        assert w.observers[o].phase.Live?;
      }
    }
  }

  lemma PaidStep(w: World, e: Event)
    requires Inv(w) && PaidInv(w) && Enabled(w, e) && Defined(w, e)
    ensures PaidInv(Apply(w, e))
  {
    match e
    case DropNext(o) => LoopKeepsPaid(w, e, o);
    case LeaveNext(o) => LoopKeepsPaid(w, e, o);
    case _ => OthersKeepPaid(w, e);
  }

  // ---------------------------------------------------------------- who replaced whom

  /** Observer s replaced observer o. */
  ghost predicate Replaced(obs: seq<Observer>, o: nat, s: nat) {
    s < |obs| && obs[s].prev == Some(o)
  }

  /** An observer is replaced at most once, by a later one, and what is passed over then is what the new
      one has. */
  ghost predicate ChainInv(obs: seq<Observer>) {
    && (forall o: nat, s: nat :: Replaced(obs, o, s) ==> o < s && !obs[o].phase.Live? && Kept(obs[o]) == obs[s].objects)
    && (forall o: nat, s: nat, t: nat :: Replaced(obs, o, s) && Replaced(obs, o, t) ==> s == t)
    && forall o: nat :: o < |obs| && Kept(obs[o]) != [] ==> exists s: nat :: Replaced(obs, o, s)
  }

  /** Only the phase of one observer changes, and what it passes over stays. */
  lemma ChainUpdate(obs: seq<Observer>, o: nat, x: Observer)
    requires ChainInv(obs) && o < |obs| && x.prev == obs[o].prev && x.objects == obs[o].objects
    requires Kept(x) == Kept(obs[o]) && !x.phase.Live?
    ensures ChainInv(obs[o := x])
  {
    var obs' := obs[o := x];
    assert forall p: nat, s: nat :: Replaced(obs', p, s) == Replaced(obs, p, s);
  }

  lemma ChainNew(obs: seq<Observer>, x: Observer)
    requires ChainInv(obs) && x.prev == None && Kept(x) == []
    ensures ChainInv(obs + [x])
  {
    var obs' := obs + [x];
    assert forall p: nat, s: nat :: Replaced(obs', p, s) == Replaced(obs, p, s);
  }

  lemma ChainReplace(obs: seq<Observer>, o: nat, x: Observer, y: Observer)
    requires ChainInv(obs) && o < |obs| && obs[o].phase.Live?
    requires x.prev == obs[o].prev && x.objects == obs[o].objects && !x.phase.Live? && Kept(x) == y.objects
    requires y.prev == Some(o) && Kept(y) == []
    ensures ChainInv(obs[o := x] + [y])
  {
    var obs' := obs[o := x] + [y];
    assert forall p: nat, s: nat :: Replaced(obs', p, s) <==> Replaced(obs, p, s) || (p == o && s == |obs|);
    assert forall s: nat :: !Replaced(obs, o, s);
    forall p: nat | p < |obs'| && Kept(obs'[p]) != [] ensures exists s: nat :: Replaced(obs', p, s) {
      if p == o {
        assert Replaced(obs', o, |obs|);
      } else {
        var s: nat :| Replaced(obs, p, s);
        assert Replaced(obs', p, s);
      }
    }
  }

  lemma ChainCommit(w: World)
    requires ChainInv(w.observers) && Enabled(w, Commit) && Defined(w, Commit)
    requires var b := w.building.value; b.old_.Some? ==> w.observers[b.old_.value].phase.Live?
    ensures ChainInv(Apply(w, Commit).observers)
  {
    var obs, b := w.observers, w.building.value;
    if b.objects == [] {
      if b.old_.Some? {
        ChainUpdate(obs, b.old_.value, StartLeaving(w, obs[b.old_.value]));
      }
    } else if b.old_.None? {
      ChainNew(obs, Apply(w, Commit).observers[|obs|]);
    } else {
      ChainReplace(obs, b.old_.value, StartDropping(w, obs[b.old_.value], b.objects),
                   Apply(w, Commit).observers[|obs|]);
    }
  }

  lemma ChainLoop(w: World, e: Event, o: nat)
    requires ChainInv(w.observers) && Enabled(w, e) && Defined(w, e) && (e == DropNext(o) || e == LeaveNext(o))
    ensures ChainInv(Apply(w, e).observers)
  {
    TurnOfLoop(w, e, o);
    ChainUpdate(w.observers, o, Advanced(w.observers[o]));
  }

  lemma ChainStep(w: World, e: Event)
    requires HelpersInv(w) && BuildInv(w) && ChainInv(w.observers) && Enabled(w, e) && Defined(w, e)
    ensures ChainInv(Apply(w, e).observers)
  {
    match e
    case DropNext(o) => ChainLoop(w, e, o);
    case LeaveNext(o) => ChainLoop(w, e, o);
    case DetachHelper(h) =>
      var o := w.helpers[h].value;
      ChainUpdate(w.observers, o, StartLeaving(w, w.observers[o]));
    case Commit => ChainCommit(w);
    case _ => assert Apply(w, e).observers == w.observers;
  }

  // ---------------------------------------------------------------- attaches

  /** The observer has the entry and the one it replaced had not. */
  ghost predicate Starts(obs: seq<Observer>, o: nat, r: Ref)
    requires o < |obs|
  {
    && r in obs[o].objects
    && (obs[o].prev.Some? && obs[o].prev.value < |obs| ==> r !in obs[obs[o].prev.value].objects)
  }

  /** The observers, among the first n, with which a stint starts. */
  ghost function StartCount(obs: seq<Observer>, n: nat, r: Ref): nat
    requires n <= |obs|
  {
    if n == 0 then 0 else StartCount(obs, n - 1, r) + if Starts(obs, n - 1, r) then 1 else 0
  }

  /** Each attach of an entry is the start of a stint, or will be when `getObserver` is done. */
  ghost predicate AttachInv(w: World) {
    forall i, x :: 0 <= i < |w.maps| && x in w.maps[i].entries ==>
      w.maps[i].entries[x].total == StartCount(w.observers, |w.observers|, Ref(i, x)) + BuildHolds(w, Ref(i, x))
  }

  /** The observers have the entries and predecessors that they had. */
  ghost predicate SameObjects(obs: seq<Observer>, obs': seq<Observer>) {
    && |obs| <= |obs'|
    && forall o :: 0 <= o < |obs| ==> obs'[o].objects == obs[o].objects && obs'[o].prev == obs[o].prev
  }

  lemma {:induction false} StartsSame(obs: seq<Observer>, obs': seq<Observer>, n: nat, r: Ref)
    requires SameObjects(obs, obs') && n <= |obs|
    requires forall o :: 0 <= o < |obs| && obs[o].prev.Some? ==> obs[o].prev.value < o
    ensures StartCount(obs', n, r) == StartCount(obs, n, r)
  {
    if n > 0 {
      StartsSame(obs, obs', n - 1, r);
    }
  }

  lemma {:induction false} StartsNone(obs: seq<Observer>, n: nat, r: Ref)
    requires n <= |obs| && forall o :: 0 <= o < |obs| ==> r !in obs[o].objects
    ensures StartCount(obs, n, r) == 0
  {
    if n > 0 {
      StartsNone(obs, n - 1, r);
    }
  }

  /** The end of `getObserver` neither starts a stint nor forgets one. */
  lemma CommitStarts(w: World, r: Ref)
    requires DelayInv(w.observers) && Enabled(w, Commit) && Defined(w, Commit)
    ensures var w' := Apply(w, Commit);
            StartCount(w'.observers, |w'.observers|, r)
            == StartCount(w.observers, |w.observers|, r) + BuildHolds(w, r)
  {
    StartsSame(w.observers, Apply(w, Commit).observers, |w.observers|, r);
  }

  lemma MatchStarts(w: World, accepted: bool, key: Option<string>, newEntry: nat)
    requires Inv(w) && AttachInv(w)
    requires Enabled(w, Match(accepted, key, newEntry)) && Defined(w, Match(accepted, key, newEntry))
    ensures AttachInv(Apply(w, Match(accepted, key, newEntry)))
  {
    var w' := Apply(w, Match(accepted, key, newEntry));
    forall j, x | 0 <= j < |w'.maps| && x in w'.maps[j].entries
      ensures w'.maps[j].entries[x].total
           == StartCount(w'.observers, |w'.observers|, Ref(j, x)) + BuildHolds(w', Ref(j, x))
    {
      MatchStart(w, accepted, key, newEntry, j, x);
    }
  }

  lemma MatchStart(w: World, accepted: bool, key: Option<string>, newEntry: nat, j: nat, x: nat)
    requires Inv(w) && AttachInv(w)
    requires Enabled(w, Match(accepted, key, newEntry)) && Defined(w, Match(accepted, key, newEntry))
    requires var w' := Apply(w, Match(accepted, key, newEntry)); j < |w'.maps| && x in w'.maps[j].entries
    ensures var w' := Apply(w, Match(accepted, key, newEntry));
            w'.maps[j].entries[x].total
            == StartCount(w'.observers, |w'.observers|, Ref(j, x)) + BuildHolds(w', Ref(j, x))
  {
    MatchCounts(w, accepted, key, newEntry, Ref(j, x));
    MatchCounters(w, accepted, key, newEntry, j, x);
    if x !in w.maps[j].entries {
      StartsNone(w.observers, |w.observers|, Ref(j, x));
      NewEntryIsFree(w, j, x);
    }
  }

  /** A step that attaches nothing. */
  lemma AttachSame(w: World, w': World)
    requires AttachInv(w) && SameObjects(w.observers, w'.observers) && |w'.maps| <= |w.maps|
    requires forall o :: 0 <= o < |w.observers| && w.observers[o].prev.Some? ==> w.observers[o].prev.value < o
    requires |w'.observers| == |w.observers| && forall r :: BuildHolds(w', r) == BuildHolds(w, r)
    requires forall i, x :: 0 <= i < |w'.maps| && x in w'.maps[i].entries ==>
               x in w.maps[i].entries && w'.maps[i].entries[x].total == w.maps[i].entries[x].total
    ensures AttachInv(w')
  {
    forall i, x | 0 <= i < |w'.maps| && x in w'.maps[i].entries
      ensures w'.maps[i].entries[x].total
           == StartCount(w'.observers, |w'.observers|, Ref(i, x)) + BuildHolds(w', Ref(i, x))
    {
      StartsSame(w.observers, w'.observers, |w.observers|, Ref(i, x));
    }
  }

  /** A detach changes no `total`. */
  lemma DetachTotals(w: World, r: Ref, lifetime: int, o: nat)
    requires CanDetach(w, r)
    ensures var maps := DetachRef(w, r, lifetime, o).maps;
            && |maps| == |w.maps|
            && forall i, x :: 0 <= i < |maps| && x in maps[i].entries ==>
                 x in w.maps[i].entries && maps[i].entries[x].total == w.maps[i].entries[x].total
  {
    DetachCounters(w.maps[r.map_], r.entry, lifetime);
  }

  lemma LoopTotals(w: World, e: Event, o: nat)
    requires Enabled(w, e) && Defined(w, e) && (e == DropNext(o) || e == LeaveNext(o))
    ensures var w' := Apply(w, e);
            && w'.building == w.building && |w'.maps| == |w.maps|
            && forall i, x :: 0 <= i < |w'.maps| && x in w'.maps[i].entries ==>
                 x in w.maps[i].entries && w'.maps[i].entries[x].total == w.maps[i].entries[x].total
  {
    LoopMaps(w, e, o);
    if Detaches(w.observers[o]) {
      var c := NextCredit(w.observers[o], o);
      DetachTotals(w, c.ref, c.lifetime, o);
    }
  }

  lemma AttachLoop(w: World, e: Event, o: nat)
    requires BuildInv(w) && HelpersInv(w) && DelayInv(w.observers) && AttachInv(w)
    requires Enabled(w, e) && Defined(w, e) && (e == DropNext(o) || e == LeaveNext(o))
    ensures AttachInv(Apply(w, e))
  {
    TurnOfLoop(w, e, o);
    LoopTotals(w, e, o);
    AttachSame(w, Apply(w, e));
  }

  lemma AttachNewMap(w: World, retain: nat)
    requires AttachInv(w)
    ensures AttachInv(w.(maps := w.maps + [NewMap(retain)]))
  {
  }

  lemma AttachCommit(w: World)
    requires DelayInv(w.observers) && AttachInv(w) && Enabled(w, Commit) && Defined(w, Commit)
    ensures AttachInv(Apply(w, Commit))
  {
    var w' := Apply(w, Commit);
    assert w'.building.None? && w'.maps == w.maps;
    forall i, x | 0 <= i < |w'.maps| && x in w'.maps[i].entries
      ensures w'.maps[i].entries[x].total
           == StartCount(w'.observers, |w'.observers|, Ref(i, x)) + BuildHolds(w', Ref(i, x))
    {
      CommitStarts(w, Ref(i, x));
    }
  }

  lemma AttachOthers(w: World, e: Event)
    requires Inv(w) && DelayInv(w.observers) && AttachInv(w) && Enabled(w, e) && Defined(w, e)
    requires e.Tick? || e.DestroyMap? || e.Update? || e.NewHelper? || e.Begin?
             || e.AttachNull? || e.DetachHelper? || e.Adopt?
    ensures AttachInv(Apply(w, e))
  {
    AttachSame(w, Apply(w, e));
  }

  lemma AttachStep(w: World, e: Event)
    requires Inv(w) && DelayInv(w.observers) && AttachInv(w) && Enabled(w, e) && Defined(w, e)
    ensures AttachInv(Apply(w, e))
  {
    match e
    case Match(accepted, key, newEntry) => MatchStarts(w, accepted, key, newEntry);
    case DropNext(o) => AttachLoop(w, e, o);
    case LeaveNext(o) => AttachLoop(w, e, o);
    case AddMap(retain) => AttachNewMap(w, retain);
    case Commit => AttachCommit(w);
    case _ => AttachOthers(w, e);
  }

  // ---------------------------------------------------------------- all runs

  /** All that is kept about chains. */
  ghost predicate ChainsInv(w: World) {
    DelayInv(w.observers) && CreditsInv(w) && PaidInv(w) && ChainInv(w.observers) && AttachInv(w)
  }

  lemma {:induction false} ChainsAlways(es: seq<Event>)
    requires After(es).Some?
    ensures Inv(After(es).value) && ChainsInv(After(es).value)
    decreases |es|
  {
    InvAlways(es);
    LifetimesAlways(es);
    if es != [] {
      var k := |es| - 1;
      ChainsAlways(es[..k]);
      var w := After(es[..k]).value;
      PaidStep(w, es[k]);
      ChainStep(w, es[k]);
      AttachStep(w, es[k]);
    }
  }

  // ---------------------------------------------------------------- stints

  /** Observer s replaced o and kept the entry. */
  ghost predicate Carries(obs: seq<Observer>, o: nat, s: nat, r: Ref) {
    Replaced(obs, o, s) && r in obs[s].objects
  }

  /** Consecutive observers of a chain with the entry: the first got it, each next one replaced the one
      before and kept it. */
  ghost predicate Holding(obs: seq<Observer>, os: seq<nat>, r: Ref) {
    && os != [] && os[0] < |obs| && Starts(obs, os[0], r)
    && forall i :: 0 < i < |os| ==> Carries(obs, os[i - 1], os[i], r)
  }

  /** Nobody took the entry over from the observer. */
  ghost predicate EndsWith(obs: seq<Observer>, o: nat, r: Ref) {
    forall s: nat :: !Carries(obs, o, s, r)
  }

  ghost predicate Stint(obs: seq<Observer>, os: seq<nat>, r: Ref) {
    Holding(obs, os, r) && EndsWith(obs, os[|os| - 1], r)
  }

  lemma HoldersHave(obs: seq<Observer>, os: seq<nat>, r: Ref, i: nat)
    requires Holding(obs, os, r) && i < |os|
    ensures os[i] < |obs| && r in obs[os[i]].objects
  {
    if i > 0 {
      assert Carries(obs, os[i - 1], os[i], r);
    }
  }

  /** Every observer with an entry is in a stint: back to where it started ... */
  lemma {:induction false} HoldingUpTo(obs: seq<Observer>, o: nat, r: Ref) returns (os: seq<nat>)
    requires ChainInv(obs) && o < |obs| && r in obs[o].objects
    ensures Holding(obs, os, r) && os[|os| - 1] == o
  {
    if Starts(obs, o, r) {
      os := [o];
    } else {
      var p := obs[o].prev.value;
      assert Replaced(obs, p, o);
      var before := HoldingUpTo(obs, p, r);
      os := before + [o];
    }
  }

  /** ... and on to where it ends. */
  lemma {:induction false} StintOn(obs: seq<Observer>, held: seq<nat>, r: Ref) returns (os: seq<nat>)
    requires ChainInv(obs) && Holding(obs, held, r) && held[|held| - 1] < |obs|
    ensures Stint(obs, os, r) && held <= os
    decreases |obs| - held[|held| - 1]
  {
    var o := held[|held| - 1];
    if s: nat :| Carries(obs, o, s, r) {
      os := StintOn(obs, held + [s], r);
    } else {
      os := held;
    }
  }

  /** There is only one way on from an observer. */
  lemma {:induction false} SameUpTo(obs: seq<Observer>, a: seq<nat>, b: seq<nat>, r: Ref, n: nat)
    requires ChainInv(obs) && Holding(obs, a, r) && Holding(obs, b, r) && a[0] == b[0]
    requires n <= |a| && n <= |b|
    ensures a[..n] == b[..n]
  {
    if n > 1 {
      SameUpTo(obs, a, b, r, n - 1);
      assert a[n - 2] == a[..n - 1][n - 2] == b[..n - 1][n - 2] == b[n - 2];
      assert Carries(obs, a[n - 2], a[n - 1], r) && Carries(obs, b[n - 2], b[n - 1], r);
    }
  }

  lemma CarriesAt(obs: seq<Observer>, os: seq<nat>, r: Ref, n: nat)
    requires Holding(obs, os, r) && 0 < n < |os|
    ensures Carries(obs, os[n - 1], os[n], r)
  {
  }

  /** A stint does not end where another observer has the entry next. */
  lemma EndsHere(obs: seq<Observer>, os: seq<nat>, r: Ref, n: nat)
    requires Holding(obs, os, r) && 0 < n < |os|
    ensures !EndsWith(obs, os[n - 1], r)
  {
    CarriesAt(obs, os, r, n);
  }

  lemma NoLonger(obs: seq<Observer>, a: seq<nat>, b: seq<nat>, r: Ref)
    requires ChainInv(obs) && Stint(obs, a, r) && Holding(obs, b, r) && a[0] == b[0]
    ensures |b| <= |a|
  {
    var n := |a|;
    if n < |b| {
      SameUpTo(obs, a, b, r, n);
      assert a[..n][n - 1] == b[..n][n - 1];
      EndsHere(obs, b, r, n);
      assert false;
    }
  }

  lemma StintUnique(obs: seq<Observer>, a: seq<nat>, b: seq<nat>, r: Ref)
    requires ChainInv(obs) && Stint(obs, a, r) && Stint(obs, b, r) && a[0] == b[0]
    ensures a == b
  {
    NoLonger(obs, a, b, r);
    NoLonger(obs, b, a, r);
    SameUpTo(obs, a, b, r, |a|);
  }

  /** Each start of an entry begins exactly one stint. */
  lemma StintOf(es: seq<Event>, o: nat, r: Ref) returns (os: seq<nat>)
    requires After(es).Some? && o < |After(es).value.observers| && Starts(After(es).value.observers, o, r)
    ensures Stint(After(es).value.observers, os, r) && os[0] == o
    ensures forall os' :: Stint(After(es).value.observers, os', r) && os'[0] == o ==> os' == os
  {
    ChainsAlways(es);
    var obs := After(es).value.observers;
    os := StintOn(obs, [o], r);
    forall os' | Stint(obs, os', r) && os'[0] == o ensures os' == os {
      StintUnique(obs, os', os, r);
    }
  }

  /** The attaches of an entry, by the observers made so far, are the starts of its stints. */
  lemma AttachesAreStarts(es: seq<Event>, i: nat, x: nat)
    requires After(es).Some? && After(es).value.building.None?
    requires i < |After(es).value.maps| && x in After(es).value.maps[i].entries
    ensures var w := After(es).value;
            w.maps[i].entries[x].total == StartCount(w.observers, |w.observers|, Ref(i, x))
  {
    ChainsAlways(es);
  }

  /** Whether an observer has let go of an entry: it has if it is done, unless its successor has it. */
  lemma PaidWhenGone(ob: Observer, r: Ref)
    requires r in ob.objects && r !in Kept(ob)
    ensures ob.phase.Live? ==> Paid(ob, r) == 0
    ensures ob.phase.Gone? ==> Paid(ob, r) == 1
    ensures (ob.phase.Dropping? || ob.phase.Leaving?) && ob.phase.k <= |ob.objects|
              && (forall i, j :: 0 <= i < j < |ob.objects| ==> ob.objects[i] != ob.objects[j])
            ==> Paid(ob, r) + Holds(ob, r) == 1
  {
    if (ob.phase.Dropping? || ob.phase.Leaving?) && ob.phase.k <= |ob.objects| {
      assert ob.objects == ob.objects[..ob.phase.k] + ob.objects[ob.phase.k..];
    }
  }

  /** Along a stint nobody gives credit for the entry but the last observer, who gives one if and only if
      it has let go: none while it lives, exactly one when it is done.  Every such credit is the time of the
      whole chain up to then. */
  lemma StintCredited(es: seq<Event>, os: seq<nat>, r: Ref)
    requires After(es).Some? && Stint(After(es).value.observers, os, r)
    ensures var w := After(es).value;
            var last := os[|os| - 1];
            && last < |w.observers|
            && (forall i :: 0 <= i < |os| - 1 ==> CreditsFor(w.credits, os[i], r) == 0)
            && CreditsFor(w.credits, last, r) + Holds(w.observers[last], r) == 1
            && (w.observers[last].phase.Live? ==> CreditsFor(w.credits, last, r) == 0)
            && (w.observers[last].phase.Gone? ==> CreditsFor(w.credits, last, r) == 1)
            && forall c :: c in w.credits && c.ref == r && c.owner in os ==>
                 c.owner == last && c.lifetime == ChainDelay(w.observers, last)
  {
    ChainsAlways(es);
    var w := After(es).value;
    HoldersHave(w.observers, os, r, |os| - 1);
    LastPays(w, os[|os| - 1], r);
    forall i | 0 <= i < |os| - 1 ensures CreditsFor(w.credits, os[i], r) == 0 {
      CarrierPaysNothing(w, os, r, i);
    }
    forall c | c in w.credits && c.ref == r && c.owner in os
      ensures c.owner == os[|os| - 1] && c.lifetime == ChainDelay(w.observers, os[|os| - 1])
    {
      CreditInStint(w, os, r, c);
    }
  }

  lemma CreditInStint(w: World, os: seq<nat>, r: Ref, c: Credit)
    requires CreditsInv(w) && PaidInv(w) && ChainInv(w.observers) && Holding(w.observers, os, r)
    requires c in w.credits && c.ref == r && c.owner in os
    ensures var last := os[|os| - 1];
            last < |w.observers| && c.owner == last && c.lifetime == ChainDelay(w.observers, last)
  {
    var i :| 0 <= i < |os| && os[i] == c.owner;
    CreditCounted(w.credits, c);
    if i < |os| - 1 {
      CarrierPaysNothing(w, os, r, i);
    }
    var k :| 0 <= k < |w.credits| && w.credits[k] == c;
    assert CreditOk(w, w.credits[k]);
  }

  /** Who hands the entry over gives no credit for it. */
  lemma CarrierPaysNothing(w: World, os: seq<nat>, r: Ref, i: nat)
    requires PaidInv(w) && ChainInv(w.observers) && Holding(w.observers, os, r) && i < |os| - 1
    ensures CreditsFor(w.credits, os[i], r) == 0
  {
    HoldersHave(w.observers, os, r, i);
    CarriesAt(w.observers, os, r, i + 1);
  }

  lemma LastPays(w: World, last: nat, r: Ref)
    requires Inv(w) && PaidInv(w) && ChainInv(w.observers) && last < |w.observers|
    requires r in w.observers[last].objects && EndsWith(w.observers, last, r)
    ensures var ob := w.observers[last];
            && CreditsFor(w.credits, last, r) + Holds(ob, r) == 1
            && (ob.phase.Live? ==> CreditsFor(w.credits, last, r) == 0)
            && (ob.phase.Gone? ==> CreditsFor(w.credits, last, r) == 1)
  {
    var ob := w.observers[last];
    if r in Kept(ob) {
      var s: nat :| Replaced(w.observers, last, s);
      assert Carries(w.observers, last, s, r);
    }
    PaidWhenGone(ob, r);
  }

  lemma {:induction false} CreditCounted(credits: seq<Credit>, c: Credit)
    requires c in credits
    ensures CreditsFor(credits, c.owner, c.ref) > 0
  {
    if credits[|credits| - 1] != c {
      CreditCounted(credits[..|credits| - 1], c);
    }
  }

  /** Conversely, every credit ends a stint: it was given for the last observer of one. */
  lemma CreditEndsStint(es: seq<Event>, c: Credit) returns (os: seq<nat>)
    requires After(es).Some? && c in After(es).value.credits
    ensures Stint(After(es).value.observers, os, c.ref) && os[|os| - 1] == c.owner
    ensures CreditsFor(After(es).value.credits, c.owner, c.ref) == 1
  {
    ChainsAlways(es);
    var w := After(es).value;
    CreditCounted(w.credits, c);
    assert c.owner < |w.observers| && Paid(w.observers[c.owner], c.ref) == 1;
    var ob := w.observers[c.owner];
    os := HoldingUpTo(w.observers, c.owner, c.ref);
    assert c.ref !in Kept(ob);
    forall s: nat ensures !Carries(w.observers, c.owner, s, c.ref) {
    }
  }

  // ---------------------------------------------------------------- what getObserver looks up

  /** The list given to the last `update`. */
  ghost function LastUpdate(es: seq<Event>): seq<nat> {
    if es == [] then []
    else if es[|es| - 1].Update? then es[|es| - 1].active
    else LastUpdate(es[..|es| - 1])
  }

  /** The turns of the loop of `getObserver` since it last began. */
  ghost function MatchesSince(es: seq<Event>): nat {
    if es == [] || es[|es| - 1].Begin? then 0
    else MatchesSince(es[..|es| - 1]) + if es[|es| - 1].Match? then 1 else 0
  }

  /** `getObserver` looks up the maps of the last `update`, all of them and in their order: it is at the one
      after those it has had a turn for, and ends when there is none. */
  lemma {:induction false} LooksUpAllMaps(es: seq<Event>)
    requires After(es).Some?
    ensures var w := After(es).value;
            && w.active == LastUpdate(es)
            && (w.building.Some? ==>
                  && MatchesSince(es) <= |w.active| && w.building.value.todo == w.active[MatchesSince(es)..]
                  && (Enabled(w, Commit) <==> MatchesSince(es) == |w.active|))
    decreases |es|
  {
    if es != [] {
      LooksUpAllMaps(es[..|es| - 1]);
    }
  }

  /** What a turn of `getObserver` finds: nothing unless the map accepts the helper, which has a key, and is
      not destroyed; then the entry that the map has for the key.  The other maps stay as they are. */
  lemma TurnFinds(w: World, accepted: bool, key: Option<string>, newEntry: nat)
    requires Inv(w) && Enabled(w, Match(accepted, key, newEntry)) && Defined(w, Match(accepted, key, newEntry))
    ensures var w', b := Apply(w, Match(accepted, key, newEntry)), w.building.value;
            var i := b.todo[0];
            && |w'.maps| == |w.maps| && w'.building.Some? && w'.observers == w.observers
            && (forall j :: 0 <= j < |w.maps| && j != i ==> w'.maps[j] == w.maps[j])
            && if accepted && key.Some? && !w.maps[i].destroyed
               then key.value in w'.maps[i].objects
                    && w'.building.value.objects == b.objects + [Ref(i, w'.maps[i].objects[key.value])]
               else w'.maps[i] == w.maps[i] && w'.building.value.objects == b.objects
  {
    var b := w.building.value;
    var i := b.todo[0];
    var previous := GetEntry(OldObjects(w, b), i);
    GetMatchingFinds(w.maps[i], accepted, key, previous, newEntry);
    assert b.objects + [] == b.objects;
  }

  /** The retentions of the maps that were added, in order. */
  ghost function Retentions(es: seq<Event>): seq<nat> {
    if es == [] then []
    else Retentions(es[..|es| - 1]) + if es[|es| - 1].AddMap? then [es[|es| - 1].retain] else []
  }

  /** The map was made with the same retention, and is destroyed only if it was. */
  ghost predicate SameMap(m: MapState<nat>, m': MapState<nat>) {
    m'.retain == m.retain && m'.destroyed == m.destroyed
  }

  ghost predicate SameMaps(w: World, w': World) {
    |w'.maps| == |w.maps| && forall i :: 0 <= i < |w.maps| ==> SameMap(w.maps[i], w'.maps[i])
  }

  lemma DetachSameMap(m: MapState<nat>, x: nat, lifetime: int)
    requires MapInv(m) && x in m.entries && m.entries[x].current > 0
    ensures SameMap(m, Detach(m, x, lifetime))
  {
  }

  lemma LoopSameMaps(w: World, e: Event, o: nat)
    requires Enabled(w, e) && Defined(w, e) && (e == DropNext(o) || e == LeaveNext(o))
    ensures SameMaps(w, Apply(w, e))
  {
    LoopMaps(w, e, o);
    if Detaches(w.observers[o]) {
      var c := NextCredit(w.observers[o], o);
      DetachSameMap(w.maps[c.ref.map_], c.ref.entry, c.lifetime);
    }
  }

  lemma MatchSameMaps(w: World, accepted: bool, key: Option<string>, newEntry: nat)
    requires Enabled(w, Match(accepted, key, newEntry)) && Defined(w, Match(accepted, key, newEntry))
    ensures SameMaps(w, Apply(w, Match(accepted, key, newEntry)))
  {
  }

  /** Steps other than adding and destroying a map. */
  lemma OthersSameMaps(w: World, e: Event)
    requires Enabled(w, e) && Defined(w, e) && !e.AddMap? && !e.DestroyMap?
    ensures SameMaps(w, Apply(w, e))
  {
    match e
    case DropNext(o) => LoopSameMaps(w, e, o);
    case LeaveNext(o) => LoopSameMaps(w, e, o);
    case Match(accepted, key, newEntry) => MatchSameMaps(w, accepted, key, newEntry);
    case _ =>
  }

  lemma RetentionStep(w: World, e: Event)
    requires Enabled(w, e) && Defined(w, e)
    ensures var maps, maps' := w.maps, Apply(w, e).maps;
            && |maps'| == |maps| + (if e.AddMap? then 1 else 0)
            && (forall i :: 0 <= i < |maps| ==>
                  && maps'[i].retain == maps[i].retain
                  && (maps'[i].destroyed <==> maps[i].destroyed || e == DestroyMap(i)))
            && (e.AddMap? ==> maps'[|maps|].retain == e.retain && !maps'[|maps|].destroyed)
  {
    if !e.AddMap? && !e.DestroyMap? {
      OthersSameMaps(w, e);
    }
  }

  lemma {:induction false} RetainsAsMade(es: seq<Event>)
    requires After(es).Some?
    ensures var maps := After(es).value.maps;
            |maps| == |Retentions(es)| && forall i :: 0 <= i < |maps| ==> maps[i].retain == Retentions(es)[i]
    decreases |es|
  {
    if es != [] {
      var k := |es| - 1;
      RetainsAsMade(es[..k]);
      RetentionStep(After(es[..k]).value, es[k]);
    }
  }

  ghost predicate WasDestroyed(es: seq<Event>, i: nat) {
    exists k :: 0 <= k < |es| && es[k] == DestroyMap(i)
  }

  lemma WasDestroyedLast(es: seq<Event>, i: nat)
    requires es != []
    ensures WasDestroyed(es, i) <==> WasDestroyed(es[..|es| - 1], i) || es[|es| - 1] == DestroyMap(i)
  {
    var k := |es| - 1;
    if j :| 0 <= j < |es| && es[j] == DestroyMap(i) {
      assert j < k ==> es[..k][j] == DestroyMap(i);
    }
  }

  /** A map is destroyed exactly when that has happened to it, which it cannot before it is added. */
  lemma {:induction false} DestroyedIff(es: seq<Event>, i: nat)
    requires After(es).Some?
    ensures var maps := After(es).value.maps;
            WasDestroyed(es, i) <==> i < |maps| && maps[i].destroyed
    decreases |es|
  {
    if es != [] {
      var k := |es| - 1;
      DestroyedIff(es[..k], i);
      WasDestroyedLast(es, i);
      RetentionStep(After(es[..k]).value, es[k]);
    }
  }

  // ---------------------------------------------------------------- time

  ghost function Ticks(es: seq<Event>): nat {
    if es == [] then 0 else Ticks(es[..|es| - 1]) + if es[|es| - 1].Tick? then 1 else 0
  }

  /** The observer with which the chain began. */
  ghost function First(obs: seq<Observer>, o: nat): nat
    requires o < |obs|
  {
    match obs[o].prev
    case None => o
    case Some(p) => if p < o then First(obs, p) else o
  }

  lemma {:induction false} FirstSame(obs: seq<Observer>, obs': seq<Observer>, o: nat)
    requires SameObjects(obs, obs') && o < |obs|
    ensures First(obs', o) == First(obs, o) <= o
    decreases o
  {
    if obs[o].prev.Some? && obs[o].prev.value < o {
      FirstSame(obs, obs', obs[o].prev.value);
    }
  }

  /** The time of the chain before an observer is the time from the start of the first observer's watch to
      the start of its own. */
  ghost predicate TimeInv(w: World) {
    forall o: nat :: o < |w.observers| ==> TimeAt(w, o)
  }

  ghost predicate TimeAt(w: World, o: nat)
    requires o < |w.observers|
  {
    var first := First(w.observers, o);
    && first < |w.observers|
    && w.observers[first].started <= w.observers[o].started <= w.now
    && w.observers[o].previousDelay == w.observers[o].started - w.observers[first].started
  }

  ghost predicate SameTimes(obs: seq<Observer>, obs': seq<Observer>) {
    && SameObjects(obs, obs')
    && forall o :: 0 <= o < |obs| ==>
         obs'[o].started == obs[o].started && obs'[o].previousDelay == obs[o].previousDelay
  }

  lemma TimeKept(w: World, w': World, o: nat)
    requires o < |w.observers| && TimeAt(w, o) && SameTimes(w.observers, w'.observers) && w.now <= w'.now
    ensures TimeAt(w', o)
  {
    FirstSame(w.observers, w'.observers, o);
  }

  lemma TimeSame(w: World, w': World)
    requires TimeInv(w) && SameTimes(w.observers, w'.observers) && |w'.observers| == |w.observers| && w.now <= w'.now
    ensures TimeInv(w')
  {
    forall o: nat | o < |w.observers| ensures TimeAt(w', o) {
      TimeKept(w, w', o);
    }
  }

  lemma TimeNew(w: World, w': World, x: Observer)
    requires TimeInv(w) && SameTimes(w.observers, w'.observers) && w'.now == w.now == x.started
    requires |w'.observers| == |w.observers| + 1 && w'.observers[|w.observers|] == x
    requires match x.prev
             case None => x.previousDelay == 0
             case Some(p) => p < |w.observers| && x.previousDelay == w.observers[p].previousDelay
                                                                    + (w.now - w.observers[p].started)
    ensures TimeInv(w')
  {
    forall o: nat | o < |w'.observers| ensures TimeAt(w', o) {
      if o < |w.observers| {
        TimeKept(w, w', o);
      } else if x.prev.Some? {
        TimeKept(w, w', x.prev.value);
        FirstSame(w.observers, w'.observers, x.prev.value);
      }
    }
  }

  lemma TimeCommit(w: World)
    requires TimeInv(w) && Enabled(w, Commit) && Defined(w, Commit)
    ensures TimeInv(Apply(w, Commit))
  {
    var w' := Apply(w, Commit);
    if w.building.value.objects == [] {
      TimeSame(w, w');
    } else {
      TimeNew(w, w', w'.observers[|w.observers|]);
    }
  }

  lemma TimeStep(w: World, e: Event)
    requires TimeInv(w) && Enabled(w, e) && Defined(w, e)
    ensures TimeInv(Apply(w, e))
  {
    if e.Commit? {
      TimeCommit(w);
    } else {
      TimeSame(w, Apply(w, e));
    }
  }

  lemma {:induction false} TimeAlways(es: seq<Event>)
    requires After(es).Some?
    ensures After(es).value.now == 1 + Ticks(es) && TimeInv(After(es).value)
    decreases |es|
  {
    if es != [] {
      var k := |es| - 1;
      TimeAlways(es[..k]);
      TimeStep(After(es[..k]).value, es[k]);
    }
  }

  /** The lifetime with which an observer lets go of its entries is the time that has passed since the first
      observer of its chain was attached: when it is detached ... */
  lemma LeavesWithElapsed(es: seq<Event>, h: nat)
    requires After(es).Some? && Enabled(After(es).value, DetachHelper(h))
    requires Defined(After(es).value, DetachHelper(h))
    ensures var w := After(es).value;
            var o := w.helpers[h].value;
            && First(w.observers, o) < |w.observers|
            && Apply(w, DetachHelper(h)).observers[o].phase
            == Leaving(0, 1 + Ticks(es) - w.observers[First(w.observers, o)].started)
  {
    TimeAlways(es);
    assert TimeAt(After(es).value, After(es).value.helpers[h].value);
  }

  /** ... and when it is replaced, or detached because `getObserver` found nothing. */
  lemma CommitsWithElapsed(es: seq<Event>)
    requires After(es).Some? && Enabled(After(es).value, Commit) && Defined(After(es).value, Commit)
    requires After(es).value.building.value.old_.Some?
    ensures var w := After(es).value;
            var o, found := w.building.value.old_.value, w.building.value.objects;
            && First(w.observers, o) < |w.observers|
            && var elapsed := 1 + Ticks(es) - w.observers[First(w.observers, o)].started;
               Apply(w, Commit).observers[o].phase
               == if found == [] then Leaving(0, elapsed) else Dropping(0, found, elapsed)
  {
    TimeAlways(es);
    assert TimeAt(After(es).value, After(es).value.building.value.old_.value);
  }
}
