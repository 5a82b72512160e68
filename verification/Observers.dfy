/**
 * Metrics observers and their replacement (cpp/include/Ice/MetricsObserverI.h and ObserverHelper.h).
 *
 * The steps of the state machine are the lock sections: `getObserver` looks its maps up one at a time,
 * and the loops of `detach` and `init` detach one entry at a time, while other threads do the same with
 * other observers, maps are destroyed and the list of maps is replaced.  An observer belongs to an
 * `ObserverHelperT`, which is what replaces, detaches or hands it over, or overwrites it.
 *
 * `AttachNull` is what a caller does when the getters of cpp/src/Ice/InstrumentationI.cpp return null
 * because the factory is not enabled.  They read the flag without the factory's lock, while `update` sets
 * the maps and then the flag, so the step is possible at any time.
 */
module Observers {
  import opened Common
  import opened Metrics

  /** An entry of a map. */
  datatype Ref = Ref(map_: nat, entry: nat)

  /** What an observer is doing: observing; being replaced (the loop of `init` has reached entry k, those
      kept by the new observer are passed over); detaching (the loop of `detach` has reached k); done, with
      the entries that were passed over. */
  datatype Phase =
    | Live
    | Dropping(k: nat, kept: seq<Ref>, credit: int)
    | Leaving(k: nat, lifetime: int)
    | Gone(kept: seq<Ref>)

  /** `prev` is the observer it replaced and `delay` the time on its own stopwatch once that has been
      read for the last time; both are kept for the proofs only. */
  datatype Observer = Observer(objects: seq<Ref>, phase: Phase, started: nat, previousDelay: int,
                               prev: Option<nat>, delay: int)

  /** A `getObserver` in progress for a helper: the observer to replace, the maps still to look up and the
      entries found. */
  datatype Build = Build(helper: nat, old_: Option<nat>, todo: seq<nat>, objects: seq<Ref>)

  /** An entry was detached with this lifetime on behalf of this observer. */
  datatype Credit = Credit(ref: Ref, lifetime: int, owner: nat)

  datatype World = World(now: nat, maps: seq<MapState<nat>>, active: seq<nat>, observers: seq<Observer>,
                         helpers: seq<Option<nat>>, building: Option<Build>, credits: seq<Credit>)

  ghost const InitWorld := World(1, [], [], [], [], None, [])

  datatype Event =
    | Tick
    | AddMap(retain: nat)
    | DestroyMap(i: nat)
    | Update(active: seq<nat>)                                      // ObserverFactoryT::update
    | NewHelper
    | Begin(h: nat, replace: bool)                                  // getObserver(helper[, h.get()])
    | Match(accepted: bool, key: Option<string>, newEntry: nat)     // one turn of its loop
    | Commit                                                        // its end, and h.attach(its result)
    | AttachNull(h: nat)                                            // h.attach(0) without getObserver
    | DropNext(o: nat)                                              // one turn of the loop of init
    | LeaveNext(o: nat)                                             // one turn of the loop of detach
    | DetachHelper(h: nat)                                          // h.detach(), or its destructor
    | Adopt(h: nat, g: nat)                                         // h.adopt(g)

  // ---------------------------------------------------------------- steps

  /** The helper is not in the middle of `getObserver`. */
  ghost predicate Idle(w: World, h: nat) {
    h < |w.helpers| && (w.building.Some? ==> w.building.value.helper != h)
  }

  ghost predicate Enabled(w: World, e: Event) {
    match e
    case Tick => true
    case AddMap(_) => true
    case DestroyMap(i) => i < |w.maps|
    case Update(active) =>
      w.building.None? && Distinct(active) && forall i :: 0 <= i < |active| ==> active[i] < |w.maps|
    case NewHelper => true
    case Begin(h, _) => w.building.None? && h < |w.helpers|
    case Match(_, _, newEntry) =>
      w.building.Some? && w.building.value.todo != [] && w.building.value.todo[0] < |w.maps|
      && newEntry !in w.maps[w.building.value.todo[0]].entries
    case Commit => w.building.Some? && w.building.value.todo == []
    case DropNext(o) => o < |w.observers| && w.observers[o].phase.Dropping?
    case LeaveNext(o) => o < |w.observers| && w.observers[o].phase.Leaving?
    case AttachNull(h) => Idle(w, h)
    case DetachHelper(h) => Idle(w, h) && w.helpers[h].Some?
    case Adopt(h, g) => Idle(w, h) && Idle(w, g)
  }

  /** `getEntry`: the observer's entry in a map. */
  ghost function GetEntry(objects: seq<Ref>, i: nat): Option<nat> {
    if objects == [] then None
    else if objects[0].map_ == i then Some(objects[0].entry)
    else GetEntry(objects[1..], i)
  }

  ghost function OldObjects(w: World, b: Build): seq<Ref> {
    if b.old_.Some? && b.old_.value < |w.observers| then w.observers[b.old_.value].objects else []
  }

  ghost predicate CanDetach(w: World, r: Ref) {
    && r.map_ < |w.maps| && MapInv(w.maps[r.map_])
    && r.entry in w.maps[r.map_].entries && w.maps[r.map_].entries[r.entry].current > 0
  }

  /** What the code needs for the step to be defined; it always holds (`StepsAreDefined`). */
  ghost predicate Defined(w: World, e: Event)
    requires Enabled(w, e)
  {
    match e
    case Match(_, _, _) =>
      var b := w.building.value;
      var previous := GetEntry(OldObjects(w, b), b.todo[0]);
      && MapInv(w.maps[b.todo[0]])
      && (previous.Some? ==> CanDetach(w, Ref(b.todo[0], previous.value)))
    case Commit =>
      var b := w.building.value;
      b.helper < |w.helpers| && (b.old_.Some? ==> b.old_.value < |w.observers|)
    case DropNext(o) =>
      var ob := w.observers[o];
      ob.phase.k < |ob.objects| && ob.objects[ob.phase.k] !in ob.phase.kept ==> CanDetach(w, ob.objects[ob.phase.k])
    case LeaveNext(o) =>
      var ob := w.observers[o];
      ob.phase.k < |ob.objects| ==> CanDetach(w, ob.objects[ob.phase.k])
    case DetachHelper(h) => w.helpers[h].value < |w.observers|
    case _ => true
  }

  /** `(*p)->detach(lifetime)` for one entry. */
  ghost function DetachRef(w: World, r: Ref, lifetime: int, owner: nat): World
    requires CanDetach(w, r)
  {
    w.(maps := w.maps[r.map_ := Detach(w.maps[r.map_], r.entry, lifetime)],
       credits := w.credits + [Credit(r, lifetime, owner)])
  }

  /** The time on a running stopwatch. */
  ghost function WatchDelay(w: World, ob: Observer): int {
    w.now - ob.started
  }

  /** `ObserverT::detach`: the lifetime is computed and the loop begins. */
  ghost function StartLeaving(w: World, ob: Observer): Observer {
    ob.(phase := Leaving(0, ob.previousDelay + WatchDelay(w, ob)), delay := WatchDelay(w, ob))
  }

  ghost function StartDropping(w: World, ob: Observer, kept: seq<Ref>): Observer {
    ob.(phase := Dropping(0, kept, ob.previousDelay + WatchDelay(w, ob)), delay := WatchDelay(w, ob))
  }

  ghost function ApplyMatch(w: World, accepted: bool, key: Option<string>, newEntry: nat): World
    requires Enabled(w, Match(accepted, key, newEntry)) && Defined(w, Match(accepted, key, newEntry))
  {
    var b := w.building.value;
    var i := b.todo[0];
    var (r, m) := GetMatching(w.maps[i], accepted, key, GetEntry(OldObjects(w, b), i), newEntry);
    w.(maps := w.maps[i := m],
       building := Some(b.(todo := b.todo[1..], objects := b.objects + if r.Some? then [Ref(i, r.value)] else [])))
  }

  ghost function ApplyCommit(w: World): World
    requires Enabled(w, Commit) && Defined(w, Commit)
  {
    var b := w.building.value;
    if b.objects == [] then
      var obs := if b.old_.None? then w.observers
                 else w.observers[b.old_.value := StartLeaving(w, w.observers[b.old_.value])];
      w.(observers := obs, helpers := w.helpers[b.helper := None], building := None)
    else if b.old_.None? then
      w.(observers := w.observers + [Observer(b.objects, Live, w.now, 0, None, 0)],
         helpers := w.helpers[b.helper := Some(|w.observers|)], building := None)
    else
      var o := b.old_.value;
      var old_ := w.observers[o];
      w.(observers := w.observers[o := StartDropping(w, old_, b.objects)]
                      + [Observer(b.objects, Live, w.now, old_.previousDelay + WatchDelay(w, old_), Some(o), 0)],
         helpers := w.helpers[b.helper := Some(|w.observers|)], building := None)
  }

  ghost function ApplyDrop(w: World, o: nat): World
    requires Enabled(w, DropNext(o)) && Defined(w, DropNext(o))
  {
    var ob := w.observers[o];
    var k := ob.phase.k;
    if k >= |ob.objects| then w.(observers := w.observers[o := ob.(phase := Gone(ob.phase.kept))])
    else
      var w' := if ob.objects[k] in ob.phase.kept then w else DetachRef(w, ob.objects[k], ob.phase.credit, o);
      w'.(observers := w'.observers[o := ob.(phase := Dropping(k + 1, ob.phase.kept, ob.phase.credit))])
  }

  ghost function ApplyLeave(w: World, o: nat): World
    requires Enabled(w, LeaveNext(o)) && Defined(w, LeaveNext(o))
  {
    var ob := w.observers[o];
    var k := ob.phase.k;
    if k >= |ob.objects| then w.(observers := w.observers[o := ob.(phase := Gone([]))])
    else
      var w' := DetachRef(w, ob.objects[k], ob.phase.lifetime, o);
      w'.(observers := w'.observers[o := ob.(phase := Leaving(k + 1, ob.phase.lifetime))])
  }

  ghost function Apply(w: World, e: Event): World
    requires Enabled(w, e) && Defined(w, e)
  {
    match e
    case Tick => w.(now := w.now + 1)
    case AddMap(retain) => w.(maps := w.maps + [NewMap(retain)])
    case DestroyMap(i) => w.(maps := w.maps[i := Destroy(w.maps[i])])
    case Update(active) => w.(active := active)
    case NewHelper => w.(helpers := w.helpers + [None])
    case Begin(h, replace) =>
      w.(building := Some(Build(h, if replace then w.helpers[h] else None, w.active, [])))
    case Match(accepted, key, newEntry) => ApplyMatch(w, accepted, key, newEntry)
    case Commit => ApplyCommit(w)
    case AttachNull(h) => w.(helpers := w.helpers[h := None])
    case DropNext(o) => ApplyDrop(w, o)
    case LeaveNext(o) => ApplyLeave(w, o)
    case DetachHelper(h) =>
      var o := w.helpers[h].value;
      w.(observers := w.observers[o := StartLeaving(w, w.observers[o])], helpers := w.helpers[h := None])
    case Adopt(h, g) => w.(helpers := w.helpers[h := w.helpers[g]][g := None])
  }

  /** The world after a sequence of steps; None if one of them was not possible. */
  ghost function After(es: seq<Event>): Option<World> {
    if es == [] then Some(InitWorld)
    else
      var w := After(es[..|es| - 1]);
      var e := es[|es| - 1];
      if w.Some? && Enabled(w.value, e) && Defined(w.value, e) then Some(Apply(w.value, e)) else None
  }

  // ---------------------------------------------------------------- who has to detach what

  /** 1 if the observer still has to detach the entry. */
  ghost function Holds(ob: Observer, r: Ref): nat {
    match ob.phase
    case Live => if r in ob.objects then 1 else 0
    case Dropping(k, kept, _) => if k <= |ob.objects| && r in ob.objects[k..] && r !in kept then 1 else 0
    case Leaving(k, _) => if k <= |ob.objects| && r in ob.objects[k..] then 1 else 0
    case Gone(_) => 0
  }

  ghost function HoldCount(obs: seq<Observer>, r: Ref): nat {
    if obs == [] then 0 else HoldCount(obs[..|obs| - 1], r) + Holds(obs[|obs| - 1], r)
  }

  /** 1 if `getObserver` has attached the entry for the observer it is about to make. */
  ghost function BuildHolds(w: World, r: Ref): nat {
    if w.building.Some? && r in w.building.value.objects && r !in OldObjects(w, w.building.value) then 1 else 0
  }

  /** How many times the entry still has to be detached. */
  ghost function Count(w: World, r: Ref): nat {
    HoldCount(w.observers, r) + BuildHolds(w, r)
  }

  lemma {:induction false} HoldUpdate(obs: seq<Observer>, o: nat, x: Observer, r: Ref)
    requires o < |obs|
    ensures HoldCount(obs[o := x], r) + Holds(obs[o], r) == HoldCount(obs, r) + Holds(x, r)
  {
    var n := |obs| - 1;
    if o == n {
      assert obs[o := x][..n] == obs[..n];
    } else {
      HoldUpdate(obs[..n], o, x, r);
      assert obs[o := x][..n] == obs[..n][o := x];
    }
  }

  lemma HoldAppend(obs: seq<Observer>, x: Observer, r: Ref)
    ensures HoldCount(obs + [x], r) == HoldCount(obs, r) + Holds(x, r)
  {
    assert (obs + [x])[..|obs|] == obs;
  }

  lemma {:induction false} HoldAtLeast(obs: seq<Observer>, o: nat, r: Ref)
    requires o < |obs|
    ensures Holds(obs[o], r) <= HoldCount(obs, r)
  {
    if o < |obs| - 1 {
      HoldAtLeast(obs[..|obs| - 1], o, r);
    }
  }

  lemma {:induction false} HeldByNone(obs: seq<Observer>, r: Ref)
    requires forall o :: 0 <= o < |obs| ==> r !in obs[o].objects
    ensures HoldCount(obs, r) == 0
  {
    if obs != [] {
      HeldByNone(obs[..|obs| - 1], r);
    }
  }

  // ---------------------------------------------------------------- the invariant

  ghost predicate MapsInv(w: World) {
    forall i :: 0 <= i < |w.maps| ==> MapInv(w.maps[i])
  }

  /** An observer has at most one entry of each map, and the entries exist. */
  ghost predicate ValidRefs(w: World, objects: seq<Ref>) {
    && (forall i :: 0 <= i < |objects| ==>
          objects[i].map_ < |w.maps| && objects[i].entry in w.maps[objects[i].map_].entries)
    && forall i, j :: 0 <= i < j < |objects| ==> objects[i].map_ != objects[j].map_
  }

  ghost predicate ObserversInv(w: World) {
    forall o :: 0 <= o < |w.observers| ==>
      var ob := w.observers[o];
      && ValidRefs(w, ob.objects)
      && (ob.phase.Dropping? || ob.phase.Leaving? ==> ob.phase.k <= |ob.objects|)
  }

  /** Distinct helpers have distinct observers, which are live. */
  ghost predicate HelpersInv(w: World) {
    && (forall h :: 0 <= h < |w.helpers| && w.helpers[h].Some? ==>
          w.helpers[h].value < |w.observers| && w.observers[w.helpers[h].value].phase.Live?)
    && forall g, h :: 0 <= g < h < |w.helpers| && w.helpers[g].Some? ==> w.helpers[g] != w.helpers[h]
  }

  /** The maps still to look up are distinct and differ from those of the entries found so far. */
  ghost predicate BuildInv(w: World) {
    && Distinct(w.active) && (forall i :: 0 <= i < |w.active| ==> w.active[i] < |w.maps|)
    && (w.building.Some? ==>
          var b := w.building.value;
          && b.helper < |w.helpers| && (b.old_.Some? ==> b.old_ == w.helpers[b.helper])
          && ValidRefs(w, b.objects) && Distinct(b.todo)
          && (forall i :: 0 <= i < |b.todo| ==> b.todo[i] < |w.maps|)
          && forall i, j :: 0 <= i < |b.objects| && 0 <= j < |b.todo| ==> b.objects[i].map_ != b.todo[j])
  }

  /** The attach count of every entry is the number of detaches that are still to come. */
  ghost predicate CountInv(w: World) {
    forall i, x :: 0 <= i < |w.maps| && x in w.maps[i].entries ==>
      w.maps[i].entries[x].current == Count(w, Ref(i, x))
  }

  ghost predicate Inv(w: World) {
    MapsInv(w) && ObserversInv(w) && HelpersInv(w) && BuildInv(w) && CountInv(w)
  }

  lemma {:induction false} GetEntryFinds(objects: seq<Ref>, i: nat)
    ensures var e := GetEntry(objects, i);
            if e.None? then forall j :: 0 <= j < |objects| ==> objects[j].map_ != i
            else Ref(i, e.value) in objects
  {
    if objects != [] && objects[0].map_ != i {
      GetEntryFinds(objects[1..], i);
      assert objects == [objects[0]] + objects[1..];
    }
  }

  /** Whatever is held can be detached. */
  lemma HeldCanDetach(w: World, o: nat, r: Ref)
    requires Inv(w) && o < |w.observers| && Holds(w.observers[o], r) == 1
    ensures CanDetach(w, r)
  {
    HoldAtLeast(w.observers, o, r);
    assert r in w.observers[o].objects;
  }

  /** The code's assumptions are met at every step: in particular `previous` is attached, and what is
      detached is attached. */
  lemma StepsAreDefined(w: World, e: Event)
    requires Inv(w) && Enabled(w, e)
    ensures Defined(w, e)
  {
    match e
    case Match(_, _, _) =>
      var b := w.building.value;
      GetEntryFinds(OldObjects(w, b), b.todo[0]);
      var previous := GetEntry(OldObjects(w, b), b.todo[0]);
      if previous.Some? {
        HeldCanDetach(w, b.old_.value, Ref(b.todo[0], previous.value));
      }
    case DropNext(o) =>
      var ob := w.observers[o];
      if ob.phase.k < |ob.objects| && ob.objects[ob.phase.k] !in ob.phase.kept {
        assert ob.objects[ob.phase.k] == ob.objects[ob.phase.k..][0];
        HeldCanDetach(w, o, ob.objects[ob.phase.k]);
      }
    case LeaveNext(o) =>
      var ob := w.observers[o];
      if ob.phase.k < |ob.objects| {
        assert ob.objects[ob.phase.k] == ob.objects[ob.phase.k..][0];
        HeldCanDetach(w, o, ob.objects[ob.phase.k]);
      }
    case _ =>
  }

  // ---------------------------------------------------------------- every step keeps the invariant

  /** Maps may be added and gain entries. */
  ghost predicate MapsGrow(w: World, w': World) {
    && |w.maps| <= |w'.maps|
    && forall i :: 0 <= i < |w.maps| ==> w.maps[i].entries.Keys <= w'.maps[i].entries.Keys
  }

  lemma RefsStayValid(w: World, w': World, objects: seq<Ref>)
    requires MapsGrow(w, w') && ValidRefs(w, objects)
    ensures ValidRefs(w', objects)
  {
    forall i | 0 <= i < |objects|
      ensures objects[i].map_ < |w'.maps| && objects[i].entry in w'.maps[objects[i].map_].entries
    {
      assert w.maps[objects[i].map_].entries.Keys <= w'.maps[objects[i].map_].entries.Keys;
    }
  }

  /** Steps that change maps and credits only. */
  lemma OnlyMapsChange(w: World, w': World)
    requires ObserversInv(w) && HelpersInv(w) && BuildInv(w) && MapsGrow(w, w')
    requires w' == w.(maps := w'.maps, credits := w'.credits)
    ensures ObserversInv(w') && HelpersInv(w') && BuildInv(w')
    ensures forall r :: Count(w', r) == Count(w, r)
  {
    RefsStayAll(w, w');
    if w.building.Some? {
      RefsStayValid(w, w', w.building.value.objects);
    }
  }

  lemma RefsStayAll(w: World, w': World)
    requires ObserversInv(w) && MapsGrow(w, w') && w'.observers == w.observers
    ensures ObserversInv(w')
  {
    forall o | 0 <= o < |w.observers| ensures ValidRefs(w', w.observers[o].objects) {
      RefsStayValid(w, w', w.observers[o].objects);
    }
  }

  /** Steps that change neither observers nor counters. */
  lemma QuietStep(w: World, e: Event)
    requires Inv(w) && Enabled(w, e)
    requires e.Tick? || e.Update? || e.NewHelper? || e.Begin? || e.AttachNull? || e.Adopt?
    ensures Defined(w, e) && Inv(Apply(w, e))
  {
    var w' := Apply(w, e);
    assert w'.maps == w.maps && w'.observers == w.observers;
    assert forall r :: BuildHolds(w', r) == BuildHolds(w, r);
    QuietHelpers(w, e);
    assert forall r :: Count(w', r) == Count(w, r);
  }

  lemma QuietHelpers(w: World, e: Event)
    requires Inv(w) && Enabled(w, e)
    requires e.Tick? || e.Update? || e.NewHelper? || e.Begin? || e.AttachNull? || e.Adopt?
    ensures Defined(w, e) && HelpersInv(Apply(w, e)) && BuildInv(Apply(w, e))
  {
    if e.Adopt? {
      AdoptHelpers(w, e.h, e.g);
    }
  }

  lemma AdoptHelpers(w: World, h: nat, g: nat)
    requires Inv(w) && Enabled(w, Adopt(h, g))
    ensures HelpersInv(Apply(w, Adopt(h, g))) && BuildInv(Apply(w, Adopt(h, g)))
  {
  }

  lemma AddMapStep(w: World, retain: nat)
    requires Inv(w)
    ensures Inv(Apply(w, AddMap(retain)))
  {
    OnlyMapsChange(w, Apply(w, AddMap(retain)));
  }

  lemma DestroyMapStep(w: World, i: nat)
    requires Inv(w) && i < |w.maps|
    ensures Inv(Apply(w, DestroyMap(i)))
  {
    DestroyKeeps(w.maps[i]);
    OnlyMapsChange(w, Apply(w, DestroyMap(i)));
  }

  // Detaching one entry.

  /** After the detach of one entry, everything but the counts is as before, and the count of that entry
      is one less. */
  lemma DetachRefKeeps(w: World, r: Ref, lifetime: int, owner: nat)
    requires MapsInv(w) && ObserversInv(w) && HelpersInv(w) && BuildInv(w) && CanDetach(w, r)
    ensures var w' := DetachRef(w, r, lifetime, owner);
            && MapsInv(w') && ObserversInv(w') && HelpersInv(w') && BuildInv(w')
            && (forall q :: Count(w', q) == Count(w, q))
            && OneLess(w, w', r)
  {
    DetachRefMaps(w, r, lifetime, owner);
    OnlyMapsChange(w, DetachRef(w, r, lifetime, owner));
  }

  ghost predicate OneLess(w: World, w': World, r: Ref) {
    && |w'.maps| == |w.maps|
    && (forall i :: 0 <= i < |w.maps| ==> w'.maps[i].entries.Keys == w.maps[i].entries.Keys)
    && forall i, x :: 0 <= i < |w.maps| && x in w.maps[i].entries ==>
         w'.maps[i].entries[x].current == w.maps[i].entries[x].current - if Ref(i, x) == r then 1 else 0
  }

  lemma DetachRefMaps(w: World, r: Ref, lifetime: int, owner: nat)
    requires MapsInv(w) && CanDetach(w, r)
    ensures MapsInv(DetachRef(w, r, lifetime, owner)) && OneLess(w, DetachRef(w, r, lifetime, owner), r)
  {
    DetachKeeps(w.maps[r.map_], r.entry, lifetime);
    DetachCounters(w.maps[r.map_], r.entry, lifetime);
  }

  /** Only the phase of one observer changes, and it is not live. */
  ghost predicate Advances(w: World, o: nat, x: Observer) {
    && o < |w.observers| && !w.observers[o].phase.Live? && !x.phase.Live? && x.objects == w.observers[o].objects
    && (x.phase.Dropping? || x.phase.Leaving? ==> x.phase.k <= |x.objects|)
  }

  lemma AdvanceKeeps(w: World, o: nat, x: Observer)
    requires ObserversInv(w) && HelpersInv(w) && BuildInv(w) && MapsInv(w) && Advances(w, o, x)
    ensures var w' := w.(observers := w.observers[o := x]);
            && MapsInv(w') && ObserversInv(w') && HelpersInv(w') && BuildInv(w')
            && forall r :: Count(w', r) + Holds(w.observers[o], r) == Count(w, r) + Holds(x, r)
  {
    var w' := w.(observers := w.observers[o := x]);
    forall r ensures Count(w', r) + Holds(w.observers[o], r) == Count(w, r) + Holds(x, r) {
      HoldUpdate(w.observers, o, x, r);
    }
  }

  /** The part of a duplicate-free list from k on, without its first element. */
  lemma TailWithout(objects: seq<Ref>, k: nat, r: Ref)
    requires k < |objects| && forall i, j :: 0 <= i < j < |objects| ==> objects[i].map_ != objects[j].map_
    ensures r in objects[k..] <==> r in objects[k + 1..] || r == objects[k]
    ensures objects[k] !in objects[k + 1..]
  {
    assert objects[k..] == [objects[k]] + objects[k + 1..];
  }

  /** One turn of a loop that detaches an entry. */
  lemma DetachAndAdvance(w: World, o: nat, x: Observer, r: Ref, lifetime: int)
    requires Inv(w) && CanDetach(w, r) && Advances(w, o, x)
    requires forall q :: Holds(w.observers[o], q) == Holds(x, q) + if q == r then 1 else 0
    ensures var w1 := DetachRef(w, r, lifetime, o); Inv(w1.(observers := w1.observers[o := x]))
  {
    DetachRefKeeps(w, r, lifetime, o);
    var w1 := DetachRef(w, r, lifetime, o);
    AdvanceKeeps(w1, o, x);
    OneLessCounted(w, w1, o, x, r);
  }

  lemma OneLessCounted(w: World, w1: World, o: nat, x: Observer, r: Ref)
    requires CountInv(w) && OneLess(w, w1, r) && w1.observers == w.observers && o < |w.observers|
    requires forall q :: Count(w1, q) == Count(w, q)
    requires forall q :: Holds(w.observers[o], q) == Holds(x, q) + if q == r then 1 else 0
    requires var w' := w1.(observers := w1.observers[o := x]);
             forall q :: Count(w', q) + Holds(w1.observers[o], q) == Count(w1, q) + Holds(x, q)
    ensures CountInv(w1.(observers := w1.observers[o := x]))
  {
    var w' := w1.(observers := w1.observers[o := x]);
    forall i, y | 0 <= i < |w'.maps| && y in w'.maps[i].entries
      ensures w'.maps[i].entries[y].current == Count(w', Ref(i, y))
    {
      assert y in w.maps[i].entries;
      assert Count(w', Ref(i, y)) + Holds(w.observers[o], Ref(i, y)) == Count(w, Ref(i, y)) + Holds(x, Ref(i, y));
    }
  }

  /** One turn of a loop that detaches nothing. */
  lemma AdvanceOnly(w: World, o: nat, x: Observer)
    requires Inv(w) && Advances(w, o, x)
    requires forall q :: Holds(w.observers[o], q) == Holds(x, q)
    ensures Inv(w.(observers := w.observers[o := x]))
  {
    AdvanceKeeps(w, o, x);
    var w' := w.(observers := w.observers[o := x]);
    forall i, y | 0 <= i < |w.maps| && y in w.maps[i].entries
      ensures w'.maps[i].entries[y].current == Count(w', Ref(i, y))
    {
      assert Holds(w.observers[o], Ref(i, y)) == Holds(x, Ref(i, y));
    }
  }

  lemma LeaveHolds(ob: Observer, x: Observer)
    requires ob.phase.Leaving? && ob.phase.k < |ob.objects|
    requires x == ob.(phase := Leaving(ob.phase.k + 1, ob.phase.lifetime))
    requires forall i, j :: 0 <= i < j < |ob.objects| ==> ob.objects[i].map_ != ob.objects[j].map_
    ensures forall r :: Holds(ob, r) == Holds(x, r) + if r == ob.objects[ob.phase.k] then 1 else 0
  {
    forall r ensures Holds(ob, r) == Holds(x, r) + if r == ob.objects[ob.phase.k] then 1 else 0 {
      TailWithout(ob.objects, ob.phase.k, r);
    }
  }

  lemma LeaveStep(w: World, o: nat)
    requires Inv(w) && Enabled(w, LeaveNext(o))
    ensures Defined(w, LeaveNext(o)) && Inv(Apply(w, LeaveNext(o)))
  {
    StepsAreDefined(w, LeaveNext(o));
    var ob := w.observers[o];
    var k := ob.phase.k;
    if k >= |ob.objects| {
      assert ob.objects[k..] == [];
      AdvanceOnly(w, o, ob.(phase := Gone([])));
    } else {
      var x := ob.(phase := Leaving(k + 1, ob.phase.lifetime));
      LeaveHolds(ob, x);
      DetachAndAdvance(w, o, x, ob.objects[k], ob.phase.lifetime);
    }
  }

  lemma DropStep(w: World, o: nat)
    requires Inv(w) && Enabled(w, DropNext(o))
    ensures Defined(w, DropNext(o)) && Inv(Apply(w, DropNext(o)))
  {
    StepsAreDefined(w, DropNext(o));
    var ob := w.observers[o];
    var k := ob.phase.k;
    if k >= |ob.objects| {
      assert ob.objects[k..] == [];
      AdvanceOnly(w, o, ob.(phase := Gone(ob.phase.kept)));
    } else {
      var x := ob.(phase := Dropping(k + 1, ob.phase.kept, ob.phase.credit));
      var kept := ob.objects[k] in ob.phase.kept;
      forall r ensures Holds(ob, r) == Holds(x, r) + if !kept && r == ob.objects[k] then 1 else 0 {
        TailWithout(ob.objects, k, r);
      }
      if kept {
        AdvanceOnly(w, o, x);
      } else {
        DetachAndAdvance(w, o, x, ob.objects[k], ob.phase.credit);
      }
    }
  }

  // Detaching a helper, and the end of getObserver.

  lemma StartLeavingHolds(w: World, ob: Observer, r: Ref)
    requires ob.phase.Live?
    ensures Holds(StartLeaving(w, ob), r) == Holds(ob, r)
  {
    assert ob.objects[0..] == ob.objects;
  }

  /** A live observer, taken from its helper, begins to detach. */
  lemma LeavingKeeps(w: World, h: nat, o: nat)
    requires Inv(w) && h < |w.helpers| && w.helpers[h] == Some(o)
    requires w.building.Some? ==> w.building.value.helper != h
    ensures Inv(w.(observers := w.observers[o := StartLeaving(w, w.observers[o])], helpers := w.helpers[h := None]))
  {
    var x := StartLeaving(w, w.observers[o]);
    var w' := w.(observers := w.observers[o := x], helpers := w.helpers[h := None]);
    LeavingStructure(w, h, o);
    forall i, y | 0 <= i < |w.maps| && y in w.maps[i].entries
      ensures w'.maps[i].entries[y].current == Count(w', Ref(i, y))
    {
      HoldUpdate(w.observers, o, x, Ref(i, y));
      StartLeavingHolds(w, w.observers[o], Ref(i, y));
    }
  }

  lemma LeavingStructure(w: World, h: nat, o: nat)
    requires Inv(w) && h < |w.helpers| && w.helpers[h] == Some(o)
    requires w.building.Some? ==> w.building.value.helper != h
    ensures var w' := w.(observers := w.observers[o := StartLeaving(w, w.observers[o])],
                         helpers := w.helpers[h := None]);
            && MapsInv(w') && ObserversInv(w') && HelpersInv(w') && BuildInv(w')
            && forall r :: BuildHolds(w', r) == BuildHolds(w, r)
  {
  }

  lemma DetachHelperStep(w: World, h: nat)
    requires Inv(w) && Enabled(w, DetachHelper(h))
    ensures Defined(w, DetachHelper(h)) && Inv(Apply(w, DetachHelper(h)))
  {
    LeavingKeeps(w, h, w.helpers[h].value);
  }

  /** `getObserver` found nothing: the observer to replace, if any, is detached. */
  lemma CommitNothing(w: World)
    requires Inv(w) && Enabled(w, Commit) && w.building.value.objects == []
    ensures Defined(w, Commit) && Inv(Apply(w, Commit))
  {
    var b := w.building.value;
    IdleKeeps(w);
    if b.old_.Some? {
      LeavingKeeps(w.(building := None), b.helper, b.old_.value);
      NothingAfter(w);
    } else {
      QuietStep(w.(building := None), AttachNull(b.helper));
      assert Apply(w, Commit) == Apply(w.(building := None), AttachNull(b.helper));
    }
  }

  /** `getObserver` that found nothing holds nothing. */
  lemma IdleKeeps(w: World)
    requires Inv(w) && w.building.Some? && w.building.value.objects == []
    ensures Inv(w.(building := None))
  {
    var idle := w.(building := None);
    assert forall r :: Count(idle, r) == Count(w, r);
  }

  lemma NothingAfter(w: World)
    requires Enabled(w, Commit) && Defined(w, Commit) && w.building.value.objects == [] && w.building.value.old_.Some?
    ensures var b, idle := w.building.value, w.(building := None);
            Apply(w, Commit)
            == idle.(observers := w.observers[b.old_.value := StartLeaving(idle, w.observers[b.old_.value])],
                     helpers := w.helpers[b.helper := None])
  {
  }

  /** A new observer takes over what `getObserver` attached and keeps what the old one had. */
  lemma CommitCounts(w: World, r: Ref)
    requires Inv(w) && Enabled(w, Commit) && w.building.value.objects != []
    ensures Defined(w, Commit) && Count(Apply(w, Commit), r) == Count(w, r)
  {
    var b, w' := w.building.value, Apply(w, Commit);
    var n := |w.observers|;
    if b.old_.Some? {
      ReplaceCounts(w.observers, b.old_.value, StartDropping(w, w.observers[b.old_.value], b.objects),
                    w'.observers[n], r);
    } else {
      HoldAppend(w.observers, w'.observers[n], r);
    }
  }

  /** An observer and the one that replaces it have to detach what either of them has, once. */
  lemma ReplaceCounts(obs: seq<Observer>, o: nat, x: Observer, y: Observer, r: Ref)
    requires o < |obs| && obs[o].phase.Live? && y.phase.Live?
    requires x.objects == obs[o].objects && x.phase.Dropping? && x.phase.k == 0 && x.phase.kept == y.objects
    ensures HoldCount(obs[o := x] + [y], r)
         == HoldCount(obs, r) + if r in y.objects && r !in obs[o].objects then 1 else 0
  {
    assert x.objects[0..] == x.objects;
    HoldUpdate(obs, o, x, r);
    HoldAppend(obs[o := x], y, r);
  }

  /** The observers after a replacement. */
  lemma CommitReplaces(w: World)
    requires Enabled(w, Commit) && Defined(w, Commit) && w.building.value.objects != [] && w.building.value.old_.Some?
    ensures var b := w.building.value;
            var old_ := w.observers[b.old_.value];
            Apply(w, Commit).observers
            == w.observers[b.old_.value := StartDropping(w, old_, b.objects)]
               + [Observer(b.objects, Live, w.now, old_.previousDelay + WatchDelay(w, old_), b.old_, 0)]
  {
  }

  /** A helper has a new observer; old_, if any, is being replaced. */
  ghost predicate Renewed(w: World, h: nat, old_: Option<nat>, objects: seq<Ref>, w': World) {
    var n := |w.observers|;
    && h < |w.helpers| && (old_.Some? ==> old_ == w.helpers[h])
    && w'.helpers == w.helpers[h := Some(n)] && w'.building.None?
    && w'.maps == w.maps && w'.active == w.active
    && |w'.observers| == n + 1 && w'.observers[n].objects == objects && w'.observers[n].phase.Live?
    && forall o :: 0 <= o < n ==>
         && w'.observers[o].objects == w.observers[o].objects
         && if old_ == Some(o) then w'.observers[o].phase.Dropping? && w'.observers[o].phase.k == 0
            else w'.observers[o] == w.observers[o]
  }

  lemma CommitRenews(w: World)
    requires BuildInv(w) && Enabled(w, Commit) && Defined(w, Commit) && w.building.value.objects != []
    ensures var b := w.building.value; Renewed(w, b.helper, b.old_, b.objects, Apply(w, Commit))
  {
  }

  lemma RenewedKeeps(w: World, h: nat, old_: Option<nat>, objects: seq<Ref>, w': World)
    requires Renewed(w, h, old_, objects, w') && ValidRefs(w, objects)
    requires MapsInv(w) && ObserversInv(w) && HelpersInv(w) && BuildInv(w)
    ensures MapsInv(w') && ObserversInv(w') && HelpersInv(w') && BuildInv(w')
  {
    var n := |w.observers|;
    forall o | 0 <= o <= n ensures ValidRefs(w', w'.observers[o].objects) {
      if o < n {
        assert ValidRefs(w, w.observers[o].objects);
      }
    }
    forall g | 0 <= g < |w.helpers| && g != h && w.helpers[g].Some? ensures w.helpers[g] != w.helpers[h] {
    }
  }

  lemma CommitStructure(w: World)
    requires Inv(w) && Enabled(w, Commit) && w.building.value.objects != []
    ensures Defined(w, Commit)
    ensures var w' := Apply(w, Commit); MapsInv(w') && ObserversInv(w') && HelpersInv(w') && BuildInv(w')
  {
    var b := w.building.value;
    CommitRenews(w);
    RenewedKeeps(w, b.helper, b.old_, b.objects, Apply(w, Commit));
  }

  lemma CommitObserver(w: World)
    requires Inv(w) && Enabled(w, Commit) && w.building.value.objects != []
    ensures Defined(w, Commit) && Inv(Apply(w, Commit))
  {
    CommitStructure(w);
    var w' := Apply(w, Commit);
    forall i, x | 0 <= i < |w.maps| && x in w.maps[i].entries
      ensures w'.maps[i].entries[x].current == Count(w', Ref(i, x))
    {
      CommitCounts(w, Ref(i, x));
    }
  }

  // One turn of the loop of getObserver.

  lemma MatchMaps(w: World, accepted: bool, key: Option<string>, newEntry: nat)
    requires MapsInv(w) && Enabled(w, Match(accepted, key, newEntry)) && Defined(w, Match(accepted, key, newEntry))
    ensures var w', b := Apply(w, Match(accepted, key, newEntry)), w.building.value;
            var i := b.todo[0];
            && MapsInv(w') && MapsGrow(w, w') && |w'.maps| == |w.maps| && w'.building.Some?
            && w'.building.value.old_ == b.old_ && w'.building.value.helper == b.helper
            && w'.building.value.todo == b.todo[1..]
            && (w'.building.value.objects == b.objects
                || exists x :: x in w'.maps[i].entries && w'.building.value.objects == b.objects + [Ref(i, x)])
  {
    var w', b := Apply(w, Match(accepted, key, newEntry)), w.building.value;
    var i := b.todo[0];
    var previous := GetEntry(OldObjects(w, b), i);
    GetMatchingKeeps(w.maps[i], accepted, key, previous, newEntry);
    GetMatchingCounters(w.maps[i], accepted, key, previous, newEntry);
    assert b.objects + [] == b.objects;
  }

  lemma MatchRefs(w: World, accepted: bool, key: Option<string>, newEntry: nat)
    requires Inv(w) && Enabled(w, Match(accepted, key, newEntry)) && Defined(w, Match(accepted, key, newEntry))
    ensures var w' := Apply(w, Match(accepted, key, newEntry));
            MapsInv(w') && ObserversInv(w') && HelpersInv(w') && BuildInv(w')
  {
    var w', b := Apply(w, Match(accepted, key, newEntry)), w.building.value;
    MatchMaps(w, accepted, key, newEntry);
    RefsStayAll(w, w');
    RefsStayValid(w, w', b.objects);
    var objects := w'.building.value.objects;
    if objects != b.objects {
      var x :| x in w'.maps[b.todo[0]].entries && objects == b.objects + [Ref(b.todo[0], x)];
      OneMoreRef(w', b.objects, b.todo, x);
    }
  }

  /** The entry found in the first map to look up joins those found before. */
  lemma OneMoreRef(w: World, objects: seq<Ref>, todo: seq<nat>, x: nat)
    requires ValidRefs(w, objects) && Distinct(todo) && todo != [] && todo[0] < |w.maps|
    requires x in w.maps[todo[0]].entries
    requires forall i, j :: 0 <= i < |objects| && 0 <= j < |todo| ==> objects[i].map_ != todo[j]
    ensures var more := objects + [Ref(todo[0], x)];
            ValidRefs(w, more)
            && forall i, j :: 0 <= i < |more| && 0 <= j < |todo[1..]| ==> more[i].map_ != todo[1..][j]
  {
  }

  /** The old observer's only entry in a map is the one `getEntry` gives. */
  lemma OnlyPrevious(w: World, b: Build, i: nat, x: nat)
    requires ValidRefs(w, OldObjects(w, b)) && Ref(i, x) in OldObjects(w, b)
    ensures GetEntry(OldObjects(w, b), i) == Some(x)
  {
    GetEntryFinds(OldObjects(w, b), i);
  }

  /** The entry that this turn of `getObserver` attaches. */
  ghost function NewlyAttached(w: World, accepted: bool, key: Option<string>, newEntry: nat): Option<Ref>
    requires Enabled(w, Match(accepted, key, newEntry)) && Defined(w, Match(accepted, key, newEntry))
  {
    var b := w.building.value;
    var i := b.todo[0];
    var previous := GetEntry(OldObjects(w, b), i);
    var r := GetMatching(w.maps[i], accepted, key, previous, newEntry).0;
    if r.Some? && r != previous then Some(Ref(i, r.value)) else None
  }

  /** How the duties change: what is newly attached is added, and nothing else. */
  lemma MatchCounts(w: World, accepted: bool, key: Option<string>, newEntry: nat, q: Ref)
    requires ObserversInv(w) && HelpersInv(w) && BuildInv(w)
    requires Enabled(w, Match(accepted, key, newEntry)) && Defined(w, Match(accepted, key, newEntry))
    ensures Count(Apply(w, Match(accepted, key, newEntry)), q)
         == Count(w, q) + if NewlyAttached(w, accepted, key, newEntry) == Some(q) then 1 else 0
  {
    var b := w.building.value;
    var i := b.todo[0];
    var old_ := OldObjects(w, b);
    var previous := GetEntry(old_, i);
    var r := GetMatching(w.maps[i], accepted, key, previous, newEntry).0;
    GetEntryFinds(old_, i);
    if r.Some? {
      if Ref(i, r.value) in old_ {
        OnlyPrevious(w, b, i, r.value);
      }
      assert Ref(i, r.value) !in b.objects;
    }
  }

  lemma NewEntryIsFree(w: World, i: nat, x: nat)
    requires ObserversInv(w) && BuildInv(w) && i < |w.maps| && x !in w.maps[i].entries
    ensures Count(w, Ref(i, x)) == 0
  {
    HeldByNone(w.observers, Ref(i, x));
  }

  lemma MatchStep(w: World, accepted: bool, key: Option<string>, newEntry: nat)
    requires Inv(w) && Enabled(w, Match(accepted, key, newEntry))
    ensures Defined(w, Match(accepted, key, newEntry)) && Inv(Apply(w, Match(accepted, key, newEntry)))
  {
    StepsAreDefined(w, Match(accepted, key, newEntry));
    MatchRefs(w, accepted, key, newEntry);
    var w' := Apply(w, Match(accepted, key, newEntry));
    forall j, x | 0 <= j < |w'.maps| && x in w'.maps[j].entries
      ensures w'.maps[j].entries[x].current == Count(w', Ref(j, x))
    {
      MatchCounted(w, accepted, key, newEntry, j, x);
    }
  }

  /** How the counters of an entry change: by one if it is newly attached. */
  lemma MatchCounters(w: World, accepted: bool, key: Option<string>, newEntry: nat, j: nat, x: nat)
    requires MapsInv(w) && Enabled(w, Match(accepted, key, newEntry)) && Defined(w, Match(accepted, key, newEntry))
    requires var w' := Apply(w, Match(accepted, key, newEntry)); j < |w'.maps| && x in w'.maps[j].entries
    ensures var rec := Apply(w, Match(accepted, key, newEntry)).maps[j].entries[x];
            var n := if NewlyAttached(w, accepted, key, newEntry) == Some(Ref(j, x)) then 1 else 0;
            && j < |w.maps|
            && if x in w.maps[j].entries
               then rec.current == w.maps[j].entries[x].current + n && rec.total == w.maps[j].entries[x].total + n
               else rec.current == n && rec.total == n
  {
    var b := w.building.value;
    var i := b.todo[0];
    GetMatchingCounters(w.maps[i], accepted, key, GetEntry(OldObjects(w, b), i), newEntry);
  }

  lemma MatchCounted(w: World, accepted: bool, key: Option<string>, newEntry: nat, j: nat, x: nat)
    requires Inv(w) && Enabled(w, Match(accepted, key, newEntry)) && Defined(w, Match(accepted, key, newEntry))
    requires var w' := Apply(w, Match(accepted, key, newEntry)); j < |w'.maps| && x in w'.maps[j].entries
    ensures var w' := Apply(w, Match(accepted, key, newEntry));
            w'.maps[j].entries[x].current == Count(w', Ref(j, x))
  {
    MatchCounts(w, accepted, key, newEntry, Ref(j, x));
    MatchCounters(w, accepted, key, newEntry, j, x);
    if x !in w.maps[j].entries {
      NewEntryIsFree(w, j, x);
    }
  }

  lemma StepKeeps(w: World, e: Event)
    requires Inv(w) && Enabled(w, e)
    ensures Defined(w, e) && Inv(Apply(w, e))
  {
    match e
    case AddMap(retain) => AddMapStep(w, retain);
    case DestroyMap(i) => DestroyMapStep(w, i);
    case Match(accepted, key, newEntry) => MatchStep(w, accepted, key, newEntry);
    case Commit => if w.building.value.objects == [] { CommitNothing(w); } else { CommitObserver(w); }
    case DropNext(o) => DropStep(w, o);
    case LeaveNext(o) => LeaveStep(w, o);
    case DetachHelper(h) => DetachHelperStep(w, h);
    case _ => QuietStep(w, e);
  }

  /** In every reachable world the maps are well-formed and every attach count is right. */
  lemma {:induction false} InvAlways(es: seq<Event>)
    requires After(es).Some?
    ensures Inv(After(es).value)
    decreases |es|
  {
    if es != [] {
      var k := |es| - 1;
      InvAlways(es[..k]);
      StepKeeps(After(es[..k]).value, es[k]);
    }
  }

  /** Whatever a thread, a callback or the administrator can do next, the code is defined for it. */
  lemma AfterOne(es: seq<Event>, e: Event)
    requires After(es).Some? && Enabled(After(es).value, e)
    ensures Defined(After(es).value, e) && After(es + [e]) == Some(Apply(After(es).value, e))
  {
    InvAlways(es);
    StepKeeps(After(es).value, e);
    assert (es + [e])[..|es|] == es;
  }

  // ---------------------------------------------------------------- attach counts and helpers

  ghost predicate AtRest(w: World) {
    w.building.None? && forall o :: 0 <= o < |w.observers| ==> w.observers[o].phase.Live? || w.observers[o].phase.Gone?
  }

  /** The number of live observers that hold an entry. */
  ghost function LiveHolders(obs: seq<Observer>, r: Ref): nat {
    if obs == [] then 0
    else
      var ob := obs[|obs| - 1];
      LiveHolders(obs[..|obs| - 1], r) + if ob.phase.Live? && r in ob.objects then 1 else 0
  }

  lemma {:induction false} HoldersAtRest(obs: seq<Observer>, r: Ref)
    requires forall o :: 0 <= o < |obs| ==> obs[o].phase.Live? || obs[o].phase.Gone?
    ensures HoldCount(obs, r) == LiveHolders(obs, r)
  {
    if obs != [] {
      HoldersAtRest(obs[..|obs| - 1], r);
    }
  }

  /** When nothing is in progress, each entry's `current` is the number of live observers holding it. */
  lemma CurrentIsLiveHolders(es: seq<Event>, i: nat, x: nat)
    requires After(es).Some? && AtRest(After(es).value)
    requires i < |After(es).value.maps| && x in After(es).value.maps[i].entries
    ensures After(es).value.maps[i].entries[x].current == LiveHolders(After(es).value.observers, Ref(i, x))
  {
    InvAlways(es);
    HoldersAtRest(After(es).value.observers, Ref(i, x));
  }

  ghost predicate OwnedBy(w: World, o: nat) {
    exists h :: 0 <= h < |w.helpers| && w.helpers[h] == Some(o)
  }

  /** Every live observer belongs to a helper, which has the duty to detach it. */
  ghost predicate AllOwned(w: World) {
    forall o :: 0 <= o < |w.observers| && w.observers[o].phase.Live? ==> OwnedBy(w, o)
  }

  /** The helper that the step gives another observer, or none. */
  ghost function Target(w: World, e: Event): Option<nat> {
    match e
    case Adopt(h, _) => Some(h)
    case AttachNull(h) => Some(h)
    case Commit => if w.building.Some? && w.building.value.old_.None? then Some(w.building.value.helper) else None
    case _ => None
  }

  /** A helper's observer is overwritten without being replaced or detached: by `adopt`, also from itself,
      by attaching null, or by attaching what `getObserver` made of no observer. */
  ghost predicate Overwrites(w: World, e: Event) {
    Target(w, e).Some? && Target(w, e).value < |w.helpers| && w.helpers[Target(w, e).value].Some?
  }

  /** The duty is lost exactly in the steps that overwrite, and then by the observer that the helper had. */
  lemma DutyLostIff(w: World, e: Event)
    requires Inv(w) && AllOwned(w) && Enabled(w, e)
    ensures Defined(w, e)
    ensures AllOwned(Apply(w, e)) <==> !Overwrites(w, e)
  {
    StepsAreDefined(w, e);
    if Overwrites(w, e) {
      OverwrittenIsLost(w, e);
    } else {
      DutyKept(w, e);
    }
  }

  lemma OverwrittenIsLost(w: World, e: Event)
    requires HelpersInv(w) && BuildInv(w) && Enabled(w, e) && Defined(w, e) && Overwrites(w, e)
    ensures var o, w' := w.helpers[Target(w, e).value].value, Apply(w, e);
            o < |w'.observers| && w'.observers[o].phase.Live? && !OwnedBy(w', o)
  {
    var h := Target(w, e).value;
    var o, w' := w.helpers[h].value, Apply(w, e);
    forall k | 0 <= k < |w'.helpers| ensures w'.helpers[k] != Some(o) {
      assert k < |w.helpers| && (k != h ==> w.helpers[k] != w.helpers[h]);
    }
  }

  lemma DutyKept(w: World, e: Event)
    requires Inv(w) && AllOwned(w) && Enabled(w, e) && Defined(w, e) && !Overwrites(w, e)
    ensures AllOwned(Apply(w, e))
  {
    if e.Adopt? {
      AdoptOwned(w, e.h, e.g);
    } else if e.Commit? {
      CommitOwned(w);
    } else {
      var w' := Apply(w, e);
      forall o | 0 <= o < |w'.observers| && w'.observers[o].phase.Live? ensures OwnedBy(w', o) {
        assert OwnedBy(w, o);
        var h :| 0 <= h < |w.helpers| && w.helpers[h] == Some(o);
        assert w'.helpers[h] == Some(o);
      }
    }
  }

  lemma AdoptOwned(w: World, h: nat, g: nat)
    requires AllOwned(w) && Enabled(w, Adopt(h, g)) && w.helpers[h].None?
    ensures AllOwned(Apply(w, Adopt(h, g)))
  {
    var w' := Apply(w, Adopt(h, g));
    forall o | 0 <= o < |w.observers| && w.observers[o].phase.Live? ensures OwnedBy(w', o) {
      var k :| 0 <= k < |w.helpers| && w.helpers[k] == Some(o);
      assert w'.helpers[if k == g then h else k] == Some(o);
    }
  }

  lemma CommitOwned(w: World)
    requires HelpersInv(w) && BuildInv(w) && AllOwned(w) && Enabled(w, Commit) && Defined(w, Commit)
    requires !Overwrites(w, Commit)
    ensures AllOwned(Apply(w, Commit))
  {
    var w', b := Apply(w, Commit), w.building.value;
    forall o | 0 <= o < |w'.observers| && w'.observers[o].phase.Live? ensures OwnedBy(w', o) {
      if o == |w.observers| {
        assert w'.helpers[b.helper] == Some(o);
      } else {
        assert OwnedBy(w, o);
        var k :| 0 <= k < |w.helpers| && w.helpers[k] == Some(o);
        assert w'.helpers[k] == Some(o);
      }
    }
  }

  /** A live observer without owner, whose entries are attached. */
  ghost predicate Lost(w: World, o: nat) {
    && o < |w.observers| && w.observers[o].phase.Live? && !OwnedBy(w, o)
    && forall r :: r in w.observers[o].objects ==> CanDetach(w, r)
  }

  lemma LostStep(w: World, e: Event, o: nat)
    requires Inv(w) && Enabled(w, e) && Defined(w, e)
    requires o < |w.observers| && w.observers[o].phase.Live? && !OwnedBy(w, o)
    ensures var w' := Apply(w, e); o < |w'.observers| && w'.observers[o] == w.observers[o] && !OwnedBy(w', o)
  {
    var w' := Apply(w, e);
    forall h | 0 <= h < |w'.helpers| ensures w'.helpers[h] != Some(o) {
      assert forall k :: 0 <= k < |w.helpers| ==> w.helpers[k] != Some(o);
    }
  }

  lemma AfterPrefix(es: seq<Event>, more: seq<Event>)
    requires more != [] && After(es + more).Some?
    ensures var before, e := After(es + more[..|more| - 1]), more[|more| - 1];
            && before.Some? && Enabled(before.value, e) && Defined(before.value, e)
            && After(es + more) == Some(Apply(before.value, e))
  {
    assert (es + more)[..|es + more| - 1] == es + more[..|more| - 1];
  }

  lemma {:induction false} LostStays(es: seq<Event>, more: seq<Event>, o: nat)
    requires After(es).Some? && After(es + more).Some?
    requires o < |After(es).value.observers| && After(es).value.observers[o].phase.Live? && !OwnedBy(After(es).value, o)
    ensures var w' := After(es + more).value;
            o < |w'.observers| && w'.observers[o] == After(es).value.observers[o] && !OwnedBy(w', o)
    decreases |more|
  {
    if more == [] {
      assert es + more == es;
    } else {
      var k := |more| - 1;
      AfterPrefix(es, more);
      LostStays(es, more[..k], o);
      InvAlways(es + more[..k]);
      LostStep(After(es + more[..k]).value, more[k], o);
    }
  }

  /** A lost observer is never detached, whatever happens: its entries stay attached for ever. */
  lemma LostForGood(es: seq<Event>, more: seq<Event>, o: nat)
    requires After(es).Some? && After(es + more).Some?
    requires o < |After(es).value.observers| && After(es).value.observers[o].phase.Live? && !OwnedBy(After(es).value, o)
    ensures Lost(After(es + more).value, o)
    ensures After(es + more).value.observers[o] == After(es).value.observers[o]
  {
    LostStays(es, more, o);
    InvAlways(es + more);
    var w' := After(es + more).value;
    forall r | r in w'.observers[o].objects ensures CanDetach(w', r) {
      HeldCanDetach(w', o, r);
    }
  }

  ghost predicate OverwritesAt(es: seq<Event>, i: nat)
    requires i < |es|
  {
    After(es[..i]).Some? && Overwrites(After(es[..i]).value, es[i])
  }

  ghost predicate NeverOverwrites(es: seq<Event>) {
    forall i :: 0 <= i < |es| ==> !OverwritesAt(es, i)
  }

  lemma OverwritesLast(es: seq<Event>)
    requires es != []
    ensures NeverOverwrites(es) <==> NeverOverwrites(es[..|es| - 1]) && !OverwritesAt(es, |es| - 1)
  {
    var before := es[..|es| - 1];
    forall i | 0 <= i < |before| ensures OverwritesAt(before, i) == OverwritesAt(es, i) {
      assert before[..i] == es[..i];
    }
  }

  /** Over whole runs: every live observer has an owner exactly when no helper's observer was ever
      overwritten. */
  lemma {:induction false} OwnedIff(es: seq<Event>)
    requires After(es).Some?
    ensures AllOwned(After(es).value) <==> NeverOverwrites(es)
    decreases |es|
  {
    if es != [] {
      var k := |es| - 1;
      var w := After(es[..k]).value;
      OwnedIff(es[..k]);
      InvAlways(es[..k]);
      OverwritesLast(es);
      if AllOwned(w) {
        DutyLostIff(w, es[k]);
      } else {
        var o :| 0 <= o < |w.observers| && w.observers[o].phase.Live? && !OwnedBy(w, o);
        LostStep(w, es[k], o);
      }
    }
  }

  /** A run in which a helper gets an observer for a new entry. */
  lemma OneObserver() returns (es: seq<Event>)
    ensures var r := After(es);
            && r.Some? && AtRest(r.value) && r.value.helpers == [Some(0)]
            && |r.value.observers| == 1 && r.value.observers[0].objects == [Ref(0, 0)]
  {
    var es4 := [AddMap(1), Update([0]), NewHelper, Begin(0, true)];
    var es5 := es4 + [Match(true, Some("id"), 0)];
    FirstBegin();
    AfterOne(es4, Match(true, Some("id"), 0));
    AfterOne(es5, Commit);
    es := es5 + [Commit];
  }

  lemma FirstBegin()
    ensures After([AddMap(1), Update([0]), NewHelper, Begin(0, true)])
         == Some(World(1, [NewMap(1)], [0], [], [None], Some(Build(0, None, [0], [])), []))
  {
    var es1 := [] + [AddMap(1)];
    var es2 := es1 + [Update([0])];
    AfterOne([], AddMap(1));
    assert [] + [NewMap<nat>(1)] == [NewMap<nat>(1)];
    var none: Option<nat> := None;
    assert [] + [none] == [none];
    assert After(es1) == Some(InitWorld.(maps := [NewMap(1)]));
    AfterOne(es1, Update([0]));
    AfterOne(es2, NewHelper);
    AfterOne(es2 + [NewHelper], Begin(0, true));
    assert es2 + [NewHelper] + [Begin(0, true)] == [AddMap(1), Update([0]), NewHelper, Begin(0, true)];
  }

  /** What is overwritten is lost, whatever happens later. */
  lemma OverwrittenForGood(es: seq<Event>, e: Event, more: seq<Event>)
    requires After(es).Some? && Enabled(After(es).value, e) && Overwrites(After(es).value, e)
    requires After(es + [e] + more).Some?
    ensures Lost(After(es + [e] + more).value, After(es).value.helpers[Target(After(es).value, e).value].value)
  {
    InvAlways(es);
    AfterOne(es, e);
    OverwrittenIsLost(After(es).value, e);
    LostForGood(es + [e], more, After(es).value.helpers[Target(After(es).value, e).value].value);
  }

  /** Whatever happens after the run, its only observer, with entry 0 of map 0, is lost. */
  ghost predicate LosesAll(es: seq<Event>) {
    && After(es).Some? && AtRest(After(es).value) && After(es).value.helpers == [None]
    && forall more :: After(es + more).Some? ==>
         Lost(After(es + more).value, 0) && After(es + more).value.observers[0].objects == [Ref(0, 0)]
  }

  lemma OverwritingLosesAll(es: seq<Event>, e: Event)
    requires After(es).Some? && AtRest(After(es).value) && After(es).value.helpers == [Some(0)]
    requires |After(es).value.observers| == 1 && After(es).value.observers[0].objects == [Ref(0, 0)]
    requires e == AttachNull(0) || e == Adopt(0, 0)
    ensures LosesAll(es + [e])
  {
    AfterOne(es, e);
    forall more | After(es + [e] + more).Some?
      ensures Lost(After(es + [e] + more).value, 0) && After(es + [e] + more).value.observers[0].objects == [Ref(0, 0)]
    {
      OverwrittenForGood(es, e, more);
      InvAlways(es);
      OverwrittenIsLost(After(es).value, e);
      LostForGood(es + [e], more, 0);
    }
  }

  /** A run in which a helper adopts from itself. */
  lemma AdoptingFromItself() returns (es: seq<Event>)
    ensures es != [] && es[|es| - 1] == Adopt(0, 0) && LosesAll(es)
  {
    var es6 := OneObserver();
    OverwritingLosesAll(es6, Adopt(0, 0));
    es := es6 + [Adopt(0, 0)];
  }

  /** A run in which all maps are disabled, so that the getter returns null, which is attached: no helper
      has an observer and nothing is in progress, but the entry is attached and stays so. */
  lemma DisablingLoses() returns (es: seq<Event>)
    ensures |es| >= 2 && es[|es| - 2..] == [Update([]), AttachNull(0)] && LosesAll(es)
  {
    var es6 := OneObserver();
    AfterOne(es6, Update([]));
    OverwritingLosesAll(es6 + [Update([])], AttachNull(0));
    es := es6 + [Update([])] + [AttachNull(0)];
  }

  /** Observers are made for at least one entry. */
  ghost predicate HaveObjects(w: World) {
    forall o :: 0 <= o < |w.observers| ==> w.observers[o].objects != []
  }

  lemma ObjectsStep(w: World, e: Event)
    requires HaveObjects(w) && Enabled(w, e) && Defined(w, e)
    ensures HaveObjects(Apply(w, e))
  {
  }

  lemma {:induction false} ObjectsAlways(es: seq<Event>)
    requires After(es).Some?
    ensures HaveObjects(After(es).value)
    decreases |es|
  {
    if es != [] {
      var k := |es| - 1;
      ObjectsAlways(es[..k]);
      ObjectsStep(After(es[..k]).value, es[k]);
    }
  }

  ghost predicate NothingAttached(w: World) {
    forall i, x :: 0 <= i < |w.maps| && x in w.maps[i].entries ==> w.maps[i].entries[x].current == 0
  }

  /** When all helpers have let go and the loops are finished, nothing is attached any more exactly when no
      helper's observer was ever overwritten. */
  lemma AllReleasedIff(es: seq<Event>)
    requires After(es).Some? && AtRest(After(es).value)
    requires forall h :: 0 <= h < |After(es).value.helpers| ==> After(es).value.helpers[h].None?
    ensures NothingAttached(After(es).value) <==> NeverOverwrites(es)
  {
    var w := After(es).value;
    OwnedIff(es);
    if NeverOverwrites(es) {
      forall i, x | 0 <= i < |w.maps| && x in w.maps[i].entries ensures w.maps[i].entries[x].current == 0 {
        CurrentIsLiveHolders(es, i, x);
        NoLiveHolders(w.observers, Ref(i, x));
      }
    } else {
      var o :| 0 <= o < |w.observers| && w.observers[o].phase.Live? && !OwnedBy(w, o);
      InvAlways(es);
      ObjectsAlways(es);
      HeldCanDetach(w, o, w.observers[o].objects[0]);
    }
  }

  lemma {:induction false} NoLiveHolders(obs: seq<Observer>, r: Ref)
    requires forall o :: 0 <= o < |obs| ==> !obs[o].phase.Live?
    ensures LiveHolders(obs, r) == 0
  {
    if obs != [] {
      NoLiveHolders(obs[..|obs| - 1], r);
    }
  }

  // ---------------------------------------------------------------- one turn of a loop

  /** The next turn of the observer's loop detaches an entry. */
  ghost predicate Detaches(ob: Observer) {
    && (ob.phase.Dropping? || ob.phase.Leaving?) && ob.phase.k < |ob.objects|
    && (ob.phase.Dropping? ==> ob.objects[ob.phase.k] !in ob.phase.kept)
  }

  ghost function NextCredit(ob: Observer, o: nat): Credit
    requires Detaches(ob)
  {
    Credit(ob.objects[ob.phase.k], if ob.phase.Dropping? then ob.phase.credit else ob.phase.lifetime, o)
  }

  /** The observer after a turn of its loop. */
  ghost function Advanced(ob: Observer): Observer
    requires ob.phase.Dropping? || ob.phase.Leaving?
  {
    var k := ob.phase.k;
    match ob.phase
    case Dropping(_, kept, credit) =>
      ob.(phase := if k < |ob.objects| then Dropping(k + 1, kept, credit) else Gone(kept))
    case Leaving(_, lifetime) =>
      ob.(phase := if k < |ob.objects| then Leaving(k + 1, lifetime) else Gone([]))
  }

  lemma TurnOfLoop(w: World, e: Event, o: nat)
    requires Enabled(w, e) && Defined(w, e) && (e == DropNext(o) || e == LeaveNext(o))
    ensures var w', ob := Apply(w, e), w.observers[o];
            && w'.observers == w.observers[o := Advanced(ob)]
            && w'.credits == w.credits + if Detaches(ob) then [NextCredit(ob, o)] else []
  {
  }

  // ---------------------------------------------------------------- lifetimes

  /** The time on the stopwatches of an observer and of all those it replaced, one after the other. */
  ghost function ChainDelay(obs: seq<Observer>, o: nat): int
    requires o < |obs|
  {
    obs[o].delay + match obs[o].prev
                   case None => 0
                   case Some(p) => if p < o then ChainDelay(obs, p) else 0
  }

  /** An observer's `_previousDelay` is the chain's delay up to it, and the lifetime with which its entries
      are detached is the delay of the whole chain. */
  ghost predicate DelayInv(obs: seq<Observer>) {
    forall o :: 0 <= o < |obs| ==>
      && (obs[o].prev.Some? ==> obs[o].prev.value < o && !obs[obs[o].prev.value].phase.Live?)
      && obs[o].previousDelay + obs[o].delay == ChainDelay(obs, o)
      && (obs[o].phase.Dropping? ==> obs[o].phase.credit == ChainDelay(obs, o))
      && (obs[o].phase.Leaving? ==> obs[o].phase.lifetime == ChainDelay(obs, o))
  }

  /** The chain's delay is settled for observers that are not live. */
  ghost predicate Settled(obs: seq<Observer>, obs': seq<Observer>) {
    && |obs| <= |obs'|
    && forall o :: 0 <= o < |obs| ==>
         && obs'[o].prev == obs[o].prev && obs'[o].previousDelay == obs[o].previousDelay
         && (!obs[o].phase.Live? ==> !obs'[o].phase.Live? && obs'[o].delay == obs[o].delay)
  }

  lemma {:induction false} ChainStable(obs: seq<Observer>, obs': seq<Observer>, o: nat)
    requires DelayInv(obs) && Settled(obs, obs') && o < |obs| && !obs[o].phase.Live?
    ensures ChainDelay(obs', o) == ChainDelay(obs, o)
  {
    if obs[o].prev.Some? {
      ChainStable(obs, obs', obs[o].prev.value);
    }
  }

  /** A change of one observer, which may stop its watch. */
  lemma DelayUpdate(obs: seq<Observer>, o: nat, x: Observer)
    requires DelayInv(obs) && o < |obs| && Settled(obs, obs[o := x])
    requires x.phase.Dropping? ==> x.phase.credit == x.previousDelay + x.delay
    requires x.phase.Leaving? ==> x.phase.lifetime == x.previousDelay + x.delay
    ensures DelayInv(obs[o := x])
  {
    var obs' := obs[o := x];
    forall j | 0 <= j < |obs| ensures obs'[j].previousDelay + obs'[j].delay == ChainDelay(obs', j) {
      if obs[j].prev.Some? {
        ChainStable(obs, obs', obs[j].prev.value);
      }
    }
  }

  lemma DelayAppend(obs: seq<Observer>, x: Observer)
    requires DelayInv(obs) && x.phase.Live?
    requires match x.prev
             case None => x.previousDelay == 0
             case Some(p) => p < |obs| && !obs[p].phase.Live? && x.previousDelay == ChainDelay(obs, p)
    ensures DelayInv(obs + [x])
  {
    var obs' := obs + [x];
    forall j | 0 <= j < |obs'| ensures obs'[j].previousDelay + obs'[j].delay == ChainDelay(obs', j) {
      SameChain(obs, x, j);
      if j == |obs| && x.prev.Some? {
        SameChain(obs, x, x.prev.value);
      }
    }
  }

  lemma {:induction false} SameChain(obs: seq<Observer>, x: Observer, o: nat)
    ensures o < |obs| ==> ChainDelay(obs + [x], o) == ChainDelay(obs, o)
    decreases o
  {
    if o < |obs| && obs[o].prev.Some? && obs[o].prev.value < o {
      SameChain(obs, x, obs[o].prev.value);
    }
  }

  lemma DelayStep(w: World, e: Event)
    requires Inv(w) && DelayInv(w.observers) && Enabled(w, e) && Defined(w, e)
    ensures DelayInv(Apply(w, e).observers) && Settled(w.observers, Apply(w, e).observers)
  {
    match e
    case DropNext(o) => DelayLoop(w, e, o);
    case LeaveNext(o) => DelayLoop(w, e, o);
    case DetachHelper(h) => DelayLeaving(w, w.helpers[h].value);
    case Commit =>
      var b := w.building.value;
      if b.objects == [] {
        if b.old_.Some? {
          DelayLeaving(w, b.old_.value);
        }
      } else if b.old_.None? {
        DelayAppend(w.observers, Observer(b.objects, Live, w.now, 0, None, 0));
      } else {
        DelayCommit(w);
      }
    case _ =>
  }

  lemma DelayLoop(w: World, e: Event, o: nat)
    requires DelayInv(w.observers) && Enabled(w, e) && Defined(w, e) && (e == DropNext(o) || e == LeaveNext(o))
    ensures DelayInv(Apply(w, e).observers) && Settled(w.observers, Apply(w, e).observers)
  {
    TurnOfLoop(w, e, o);
    DelayUpdate(w.observers, o, Advanced(w.observers[o]));
  }

  lemma DelayLeaving(w: World, o: nat)
    requires DelayInv(w.observers) && o < |w.observers| && w.observers[o].phase.Live?
    ensures var obs := w.observers[o := StartLeaving(w, w.observers[o])]; DelayInv(obs) && Settled(w.observers, obs)
  {
    DelayUpdate(w.observers, o, StartLeaving(w, w.observers[o]));
  }

  lemma DelayCommit(w: World)
    requires DelayInv(w.observers) && Enabled(w, Commit) && Defined(w, Commit)
    requires w.building.value.objects != [] && w.building.value.old_.Some?
    requires w.observers[w.building.value.old_.value].phase.Live?
    ensures DelayInv(Apply(w, Commit).observers) && Settled(w.observers, Apply(w, Commit).observers)
  {
    var b := w.building.value;
    CommitReplaces(w);
    DelayReplace(w, b.old_.value, b.objects, Apply(w, Commit).observers);
  }

  /** An observer is replaced by a new one, which goes on from its time. */
  lemma DelayReplace(w: World, o: nat, objects: seq<Ref>, obs: seq<Observer>)
    requires DelayInv(w.observers) && o < |w.observers| && w.observers[o].phase.Live?
    requires var old_ := w.observers[o];
             obs == w.observers[o := StartDropping(w, old_, objects)]
                    + [Observer(objects, Live, w.now, old_.previousDelay + WatchDelay(w, old_), Some(o), 0)]
    ensures DelayInv(obs) && Settled(w.observers, obs)
  {
    DelayDropping(w, o, objects);
    DelayAppend(obs[..|w.observers|], obs[|w.observers|]) by {
      assert obs[..|w.observers|] == w.observers[o := StartDropping(w, w.observers[o], objects)];
    }
    assert obs == obs[..|w.observers|] + [obs[|w.observers|]];
  }

  lemma DelayDropping(w: World, o: nat, kept: seq<Ref>)
    requires DelayInv(w.observers) && o < |w.observers| && w.observers[o].phase.Live?
    ensures var obs := w.observers[o := StartDropping(w, w.observers[o], kept)];
            && DelayInv(obs) && Settled(w.observers, obs)
            && ChainDelay(obs, o) == w.observers[o].previousDelay + WatchDelay(w, w.observers[o])
  {
    DelayUpdate(w.observers, o, StartDropping(w, w.observers[o], kept));
  }

  /** The credits given for an entry. */
  ghost function CreditCount(credits: seq<Credit>, r: Ref): nat {
    if credits == [] then 0
    else CreditCount(credits[..|credits| - 1], r) + if credits[|credits| - 1].ref == r then 1 else 0
  }

  ghost function CreditSum(credits: seq<Credit>, r: Ref): int {
    if credits == [] then 0
    else
      var c := credits[|credits| - 1];
      CreditSum(credits[..|credits| - 1], r) + if c.ref == r then c.lifetime else 0
  }

  lemma CreditAppend(credits: seq<Credit>, c: Credit, r: Ref)
    ensures CreditCount(credits + [c], r) == CreditCount(credits, r) + if c.ref == r then 1 else 0
    ensures CreditSum(credits + [c], r) == CreditSum(credits, r) + if c.ref == r then c.lifetime else 0
  {
    assert (credits + [c])[..|credits|] == credits;
  }

  lemma {:induction false} NoCredits(credits: seq<Credit>, r: Ref)
    requires forall i :: 0 <= i < |credits| ==> credits[i].ref != r
    ensures CreditCount(credits, r) == 0 && CreditSum(credits, r) == 0
  {
    if credits != [] {
      NoCredits(credits[..|credits| - 1], r);
    }
  }

  /** A credit is for an existing entry and is the delay of the whole chain of the observer it was given
      for. */
  ghost predicate CreditOk(w: World, c: Credit) {
    && c.ref.map_ < |w.maps| && c.ref.entry in w.maps[c.ref.map_].entries
    && c.owner < |w.observers| && !w.observers[c.owner].phase.Live?
    && c.lifetime == ChainDelay(w.observers, c.owner)
  }

  ghost predicate CreditsInv(w: World) {
    forall i :: 0 <= i < |w.credits| ==> CreditOk(w, w.credits[i])
  }

  /** Each attach is still current or was credited once, and the lifetime is the sum of the credits. */
  ghost predicate LedgerAt(w: World, i: nat, x: nat)
    requires i < |w.maps| && x in w.maps[i].entries
  {
    && w.maps[i].entries[x].total == w.maps[i].entries[x].current + CreditCount(w.credits, Ref(i, x))
    && w.maps[i].entries[x].totalLifetime == CreditSum(w.credits, Ref(i, x))
  }

  ghost predicate LedgerInv(w: World) {
    forall i, x :: 0 <= i < |w.maps| && x in w.maps[i].entries ==> LedgerAt(w, i, x)
  }

  lemma CreditStays(w: World, w': World, c: Credit)
    requires CreditOk(w, c) && MapsGrow(w, w') && DelayInv(w.observers) && Settled(w.observers, w'.observers)
    ensures CreditOk(w', c)
  {
    assert w.maps[c.ref.map_].entries.Keys <= w'.maps[c.ref.map_].entries.Keys;
    ChainStable(w.observers, w'.observers, c.owner);
  }

  /** The credit that a turn of a loop gives is the delay of the chain. */
  lemma NextCreditOk(w: World, o: nat)
    requires ObserversInv(w) && DelayInv(w.observers) && o < |w.observers| && Detaches(w.observers[o])
    ensures CreditOk(w, NextCredit(w.observers[o], o))
  {
  }

  lemma CreditsGrow(w: World, w': World, c: Credit)
    requires CreditsInv(w) && CreditOk(w, c) && (w'.credits == w.credits || w'.credits == w.credits + [c])
    requires MapsGrow(w, w') && DelayInv(w.observers) && Settled(w.observers, w'.observers)
    ensures CreditsInv(w')
  {
    forall i | 0 <= i < |w'.credits| ensures CreditOk(w', w'.credits[i]) {
      CreditStays(w, w', w'.credits[i]);
    }
  }

  lemma CreditsSame(w: World, w': World)
    requires CreditsInv(w) && w'.credits == w.credits
    requires MapsGrow(w, w') && DelayInv(w.observers) && Settled(w.observers, w'.observers)
    ensures CreditsInv(w')
  {
    forall i | 0 <= i < |w'.credits| ensures CreditOk(w', w'.credits[i]) {
      CreditStays(w, w', w'.credits[i]);
    }
  }

  /** No step but the detach of an entry gives credit, and its lifetime is that of the chain. */
  lemma CreditsStep(w: World, e: Event)
    requires Inv(w) && DelayInv(w.observers) && CreditsInv(w) && Enabled(w, e) && Defined(w, e)
    ensures CreditsInv(Apply(w, e))
  {
    DelayStep(w, e);
    EntriesStay(w, e);
    match e
    case DropNext(o) => CreditsLoop(w, e, o);
    case LeaveNext(o) => CreditsLoop(w, e, o);
    case _ => CreditsSame(w, Apply(w, e));
  }

  lemma CreditsLoop(w: World, e: Event, o: nat)
    requires ObserversInv(w) && DelayInv(w.observers) && CreditsInv(w)
    requires Enabled(w, e) && Defined(w, e) && (e == DropNext(o) || e == LeaveNext(o))
    requires MapsGrow(w, Apply(w, e)) && Settled(w.observers, Apply(w, e).observers)
    ensures CreditsInv(Apply(w, e))
  {
    TurnOfLoop(w, e, o);
    if Detaches(w.observers[o]) {
      NextCreditOk(w, o);
      CreditsGrow(w, Apply(w, e), NextCredit(w.observers[o], o));
    } else {
      CreditsSame(w, Apply(w, e));
    }
  }

  lemma EntriesStay(w: World, e: Event)
    requires Inv(w) && Enabled(w, e) && Defined(w, e)
    ensures MapsGrow(w, Apply(w, e))
  {
    match e
    case Match(accepted, key, newEntry) => MatchMaps(w, accepted, key, newEntry);
    case DropNext(o) => LoopEntries(w, e, o);
    case LeaveNext(o) => LoopEntries(w, e, o);
    case _ =>
  }

  /** What a turn of a loop does to the maps. */
  lemma LoopMaps(w: World, e: Event, o: nat)
    requires Enabled(w, e) && Defined(w, e) && (e == DropNext(o) || e == LeaveNext(o))
    ensures var ob := w.observers[o];
            if Detaches(ob)
            then var c := NextCredit(ob, o);
                 CanDetach(w, c.ref) && Apply(w, e).maps == DetachRef(w, c.ref, c.lifetime, o).maps
            else Apply(w, e).maps == w.maps
  {
  }

  lemma LoopEntries(w: World, e: Event, o: nat)
    requires MapsInv(w) && Enabled(w, e) && Defined(w, e) && (e == DropNext(o) || e == LeaveNext(o))
    ensures MapsGrow(w, Apply(w, e))
  {
    LoopMaps(w, e, o);
    if Detaches(w.observers[o]) {
      var c := NextCredit(w.observers[o], o);
      DetachRefMaps(w, c.ref, c.lifetime, o);
    }
  }

  lemma LedgerDetach(w: World, r: Ref, lifetime: int, owner: nat)
    requires LedgerInv(w) && CanDetach(w, r)
    ensures LedgerInv(DetachRef(w, r, lifetime, owner))
  {
    var w' := DetachRef(w, r, lifetime, owner);
    DetachCounters(w.maps[r.map_], r.entry, lifetime);
    forall i, x | 0 <= i < |w'.maps| && x in w'.maps[i].entries
      ensures LedgerAt(w', i, x)
    {
      assert LedgerAt(w, i, x);
      CreditAppend(w.credits, Credit(r, lifetime, owner), Ref(i, x));
    }
  }

  lemma LedgerMatch(w: World, accepted: bool, key: Option<string>, newEntry: nat)
    requires Inv(w) && CreditsInv(w) && LedgerInv(w)
    requires Enabled(w, Match(accepted, key, newEntry)) && Defined(w, Match(accepted, key, newEntry))
    ensures LedgerInv(Apply(w, Match(accepted, key, newEntry)))
  {
    var b := w.building.value;
    var i := b.todo[0];
    var previous := GetEntry(OldObjects(w, b), i);
    NoCredits(w.credits, Ref(i, newEntry));
    LedgerOneMap(w, i, GetMatching(w.maps[i], accepted, key, previous, newEntry).1) by {
      GetMatchingCounters(w.maps[i], accepted, key, previous, newEntry);
    }
    LedgerSame(w.(maps := w.maps[i := GetMatching(w.maps[i], accepted, key, previous, newEntry).1]),
               Apply(w, Match(accepted, key, newEntry)));
  }

  /** Attaches are counted twice, in `total` and in `current`. */
  lemma LedgerOneMap(w: World, i: nat, m: MapState<nat>)
    requires LedgerInv(w) && i < |w.maps|
    requires forall x :: x in m.entries && x in w.maps[i].entries ==>
               && m.entries[x].total - m.entries[x].current == w.maps[i].entries[x].total - w.maps[i].entries[x].current
               && m.entries[x].totalLifetime == w.maps[i].entries[x].totalLifetime
    requires forall x :: x in m.entries && x !in w.maps[i].entries ==>
               && m.entries[x].total == m.entries[x].current && m.entries[x].totalLifetime == 0
               && CreditCount(w.credits, Ref(i, x)) == 0 && CreditSum(w.credits, Ref(i, x)) == 0
    ensures LedgerInv(w.(maps := w.maps[i := m]))
  {
  }

  /** The ledger is about maps and credits only. */
  lemma LedgerSame(w: World, w': World)
    requires LedgerInv(w) && w'.maps == w.maps && w'.credits == w.credits
    ensures LedgerInv(w')
  {
  }

  lemma LedgerDestroy(w: World, i: nat)
    requires LedgerInv(w) && i < |w.maps|
    ensures LedgerInv(w.(maps := w.maps[i := Destroy(w.maps[i])]))
  {
  }

  lemma LedgerAddMap(w: World, retain: nat)
    requires LedgerInv(w)
    ensures LedgerInv(w.(maps := w.maps + [NewMap(retain)]))
  {
  }

  lemma LedgerLoop(w: World, e: Event, o: nat)
    requires LedgerInv(w) && Enabled(w, e) && Defined(w, e) && (e == DropNext(o) || e == LeaveNext(o))
    ensures LedgerInv(Apply(w, e))
  {
    TurnOfLoop(w, e, o);
    LoopMaps(w, e, o);
    if Detaches(w.observers[o]) {
      var c := NextCredit(w.observers[o], o);
      LedgerDetach(w, c.ref, c.lifetime, o);
      LedgerSame(DetachRef(w, c.ref, c.lifetime, o), Apply(w, e));
    } else {
      LedgerSame(w, Apply(w, e));
    }
  }

  lemma LedgerStep(w: World, e: Event)
    requires Inv(w) && CreditsInv(w) && LedgerInv(w) && Enabled(w, e) && Defined(w, e)
    ensures LedgerInv(Apply(w, e))
  {
    match e
    case Match(accepted, key, newEntry) => LedgerMatch(w, accepted, key, newEntry);
    case DropNext(o) => LedgerLoop(w, e, o);
    case LeaveNext(o) => LedgerLoop(w, e, o);
    case DestroyMap(i) => LedgerDestroy(w, i);
    case AddMap(retain) => LedgerAddMap(w, retain);
    case _ => LedgerSame(w, Apply(w, e));
  }

  /** In every reachable world each attach of an entry is either current or was matched by exactly one
      credit, the lifetimes add up, and each credit is the delay of a whole chain of observers. */
  lemma {:induction false} LifetimesAlways(es: seq<Event>)
    requires After(es).Some?
    ensures var w := After(es).value; DelayInv(w.observers) && CreditsInv(w) && LedgerInv(w)
    decreases |es|
  {
    if es != [] {
      var k := |es| - 1;
      LifetimesAlways(es[..k]);
      InvAlways(es[..k]);
      var w := After(es[..k]).value;
      DelayStep(w, es[k]);
      CreditsStep(w, es[k]);
      LedgerStep(w, es[k]);
    }
  }
}
