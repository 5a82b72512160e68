/**
 * Observers and their helpers as objects (cpp/include/Ice/MetricsObserverI.h and ObserverHelper.h).
 *
 * The methods here are the code of `ObserverT` and `ObserverHelperT`; the calls of `EntryT::detach` that
 * a method makes are returned in order.  `Shows` relates the objects of a program to a `World` of module
 * `Observers`, and each step that touches helpers is shown to do to the objects what the step does to the
 * world.
 */
module ObserverObjects {
  import opened Common
  import opened Metrics
  import opened Observers

  datatype DetachCall = DetachCall(ref: Ref, lifetime: int)

  /** The calls of the loop of `detach`. */
  function LeaveCalls(objects: seq<Ref>, lifetime: int): seq<DetachCall> {
    if objects == [] then [] else [DetachCall(objects[0], lifetime)] + LeaveCalls(objects[1..], lifetime)
  }

  /** The calls of the loop of `init`: what the new observer has is passed over. */
  function DropCalls(objects: seq<Ref>, kept: seq<Ref>, lifetime: int): seq<DetachCall> {
    if objects == [] then []
    else
      (if objects[0] in kept then [] else [DetachCall(objects[0], lifetime)])
      + DropCalls(objects[1..], kept, lifetime)
  }

  // ---------------------------------------------------------------- the classes

  /** `ObserverT`; `started` is when its stopwatch was started, if it runs. */
  class ObserverObject {
    var objects: seq<Ref>
    var previousDelay: int
    var started: Option<nat>

    ghost predicate Is(ob: Observer)
      reads this
    {
      objects == ob.objects && previousDelay == ob.previousDelay && started == Some(ob.started)
    }

    constructor ()
      ensures objects == [] && previousDelay == 0 && started == None
    {
      objects, previousDelay, started := [], 0, None;
    }

    method Attach(now: nat)
      modifies this
      ensures objects == old(objects) && previousDelay == old(previousDelay)
      ensures started == if old(started).None? then Some(now) else old(started)
    {
      if started.None? {
        started := Some(now);
      }
    }

    /** The watch is stopped and every entry is detached with the same lifetime. */
    method Detach(now: nat) returns (calls: seq<DetachCall>)
      requires started.Some?
      modifies this
      ensures objects == old(objects) && previousDelay == old(previousDelay) && started == None
      ensures calls == LeaveCalls(objects, previousDelay + (now - old(started).value))
    {
      var lifetime := previousDelay + (now - started.value);
      started := None;
      calls := [];
      for p := 0 to |objects|
        invariant objects == old(objects) && previousDelay == old(previousDelay) && started == None
        invariant calls + LeaveCalls(objects[p..], lifetime) == LeaveCalls(objects, lifetime)
      {
        assert objects[p..][1..] == objects[p + 1..];
        Regroup(calls, [DetachCall(objects[p], lifetime)], LeaveCalls(objects[p + 1..], lifetime));
        calls := calls + [DetachCall(objects[p], lifetime)];
      }
    }

    /** The observer takes its entries, the time of the one it replaces, and lets go of what only that one
        has. */
    method Init(found: seq<Ref>, previous: ObserverObject?, now: nat) returns (calls: seq<DetachCall>)
      requires previous != this && (previous != null ==> previous.started.Some?)
      modifies this
      ensures objects == found && started == old(started)
      ensures previous == null ==> previousDelay == old(previousDelay) && calls == []
      ensures previous != null ==>
                && previousDelay == previous.previousDelay + (now - previous.started.value)
                && calls == DropCalls(previous.objects, found, previousDelay)
    {
      objects := found;
      calls := [];
      if previous == null {
        return;
      }
      var delay := previous.previousDelay + (now - previous.started.value);
      previousDelay := delay;
      var olds := previous.objects;
      for p := 0 to |olds|
        invariant objects == found && started == old(started) && previousDelay == delay
        invariant calls + DropCalls(olds[p..], found, delay) == DropCalls(olds, found, delay)
      {
        assert olds[p..][1..] == olds[p + 1..];
        if olds[p] !in found {
          Regroup(calls, [DetachCall(olds[p], delay)], DropCalls(olds[p + 1..], found, delay));
          calls := calls + [DetachCall(olds[p], delay)];
        } else {
          assert calls + [] == calls;
        }
      }
    }

    /** The first entry of a map, or none. */
    method FindEntry(i: nat) returns (r: Option<nat>)
      ensures r == GetEntry(objects, i)
    {
      for p := 0 to |objects|
        invariant GetEntry(objects, i) == GetEntry(objects[p..], i)
      {
        if objects[p].map_ == i {
          return Some(objects[p].entry);
        }
        assert objects[p..][1..] == objects[p + 1..];
      }
      return None;
    }
  }

  /** `ObserverHelperT`. */
  class ObserverHelper {
    var observer: ObserverObject?

    constructor ()
      ensures observer == null
    {
      observer := null;
    }

    /** The previous observer is not detached: it is being replaced.  The new one starts its watch. */
    method Attach(o: ObserverObject?, now: nat)
      modifies this, if o == null then {} else {o}
      ensures observer == o
      ensures o != null ==>
                && o.objects == old(o.objects) && o.previousDelay == old(o.previousDelay)
                && o.started == if old(o.started).None? then Some(now) else old(o.started)
    {
      observer := o;
      if observer != null {
        observer.Attach(now);
      }
    }

    /** The duty moves; what this helper held before is dropped, also when both are the same. */
    method AdoptFrom(other: ObserverHelper)
      modifies this, other
      ensures other.observer == null
      ensures other != this ==> observer == old(other.observer)
    {
      observer := other.observer;
      other.observer := null;
    }

    /** The observer, if any, is detached, and the helper gives up its duty. */
    method Detach(now: nat) returns (calls: seq<DetachCall>)
      requires observer != null ==> observer.started.Some?
      modifies this, if observer == null then {} else {observer}
      ensures observer == null
      ensures old(observer) == null ==> calls == []
      ensures old(observer) != null ==>
                var o := old(observer);
                calls == LeaveCalls(old(o.objects), old(o.previousDelay) + (now - old(o.started).value))
    {
      calls := [];
      if observer != null {
        calls := observer.Detach(now);
        observer := null;
      }
    }
  }

  // ---------------------------------------------------------------- objects and worlds

  /** The helpers and observers of a program are those of the world. */
  ghost predicate Shows(hs: seq<ObserverHelper>, os: seq<ObserverObject>, w: World)
    reads hs, os
  {
    && Distinct(hs) && Distinct(os) && |hs| == |w.helpers| && |os| == |w.observers|
    && (forall h :: 0 <= h < |hs| ==>
          if w.helpers[h].Some? then w.helpers[h].value < |os| && hs[h].observer == os[w.helpers[h].value]
          else hs[h].observer == null)
    && forall o :: 0 <= o < |os| && w.observers[o].phase.Live? ==> os[o].Is(w.observers[o])
  }

  /** The same without regard to helper h. */
  ghost predicate ShowsButOne(hs: seq<ObserverHelper>, os: seq<ObserverObject>, h: nat, w: World)
    reads hs, os
  {
    && Distinct(hs) && Distinct(os) && h < |hs| == |w.helpers| && |os| == |w.observers|
    && (forall g :: 0 <= g < |hs| && g != h ==>
          if w.helpers[g].Some? then w.helpers[g].value < |os| && hs[g].observer == os[w.helpers[g].value]
          else hs[g].observer == null)
    && forall o :: 0 <= o < |os| && w.observers[o].phase.Live? ==> os[o].Is(w.observers[o])
  }

  /** `hs[h].adopt(hs[g])`. */
  method AdoptStep(hs: seq<ObserverHelper>, ghost os: seq<ObserverObject>, h: nat, g: nat, ghost w: World)
    requires HelpersInv(w) && Shows(hs, os, w) && Enabled(w, Adopt(h, g))
    modifies hs[h], hs[g]
    ensures Shows(hs, os, Apply(w, Adopt(h, g)))
  {
    hs[h].AdoptFrom(hs[g]);
  }

  /** `hs[h].detach()`, or its destructor. */
  method DetachStep(hs: seq<ObserverHelper>, ghost os: seq<ObserverObject>, h: nat, now: nat, ghost w: World)
    returns (calls: seq<DetachCall>)
    requires HelpersInv(w) && Shows(hs, os, w) && Enabled(w, DetachHelper(h)) && now == w.now
    modifies hs[h], os[w.helpers[h].value]
    ensures Defined(w, DetachHelper(h)) && Shows(hs, os, Apply(w, DetachHelper(h)))
    ensures var o := w.helpers[h].value;
            var ob := Apply(w, DetachHelper(h)).observers[o];
            ob.phase.Leaving? && calls == LeaveCalls(ob.objects, ob.phase.lifetime)
  {
    calls := hs[h].Detach(now);
  }

  /** `hs[h].attach(0)`. */
  method AttachNullStep(hs: seq<ObserverHelper>, ghost os: seq<ObserverObject>, h: nat, now: nat, ghost w: World)
    requires HelpersInv(w) && Shows(hs, os, w) && Enabled(w, AttachNull(h))
    modifies hs[h]
    ensures Shows(hs, os, Apply(w, AttachNull(h)))
  {
    hs[h].Attach(null, now);
  }

  /** The observer that `getObserver` is given to replace. */
  ghost predicate IsPrevious(os: seq<ObserverObject>, old_: Option<nat>, previous: ObserverObject?) {
    if old_.None? then previous == null else old_.value < |os| && previous == os[old_.value]
  }

  /** The end of `getObserver`, whose result is given to `hs[h].attach`, when no entry was found ... */
  method EndWithNothing(hs: seq<ObserverHelper>, ghost os: seq<ObserverObject>, h: nat, previous: ObserverObject?,
                        now: nat, ghost w: World)
    returns (calls: seq<DetachCall>)
    requires HelpersInv(w) && BuildInv(w) && Shows(hs, os, w) && Enabled(w, Commit) && now == w.now
    requires w.building.value.helper == h && w.building.value.objects == []
    requires IsPrevious(os, w.building.value.old_, previous)
    modifies hs[h], if previous == null then {} else {previous}
    ensures Defined(w, Commit) && Shows(hs, os, Apply(w, Commit))
    ensures previous == null ==> calls == []
    ensures previous != null ==>
              var ob := Apply(w, Commit).observers[w.building.value.old_.value];
              ob.phase.Leaving? && calls == LeaveCalls(ob.objects, ob.phase.lifetime)
  {
    calls := [];
    if previous != null {
      calls := previous.Detach(now);
    }
    hs[h].Attach(null, now);
  }

  /** Lines 590-592, and `helper.attach`. */
  method Renew(helper: ObserverHelper, found: seq<Ref>, previous: ObserverObject?, now: nat)
    returns (obsv: ObserverObject, calls: seq<DetachCall>)
    requires previous != null ==> previous.started.Some?
    modifies helper
    ensures fresh(obsv) && helper.observer == obsv && obsv.objects == found && obsv.started == Some(now)
    ensures previous == null ==> obsv.previousDelay == 0 && calls == []
    ensures previous != null ==>
              && obsv.previousDelay == old(previous.previousDelay) + (now - old(previous.started).value)
              && calls == DropCalls(old(previous.objects), found, obsv.previousDelay)
  {
    obsv := new ObserverObject();
    calls := obsv.Init(found, previous, now);
    helper.Attach(obsv, now);
  }

  /** What the end of `getObserver` makes of a world: the new observer goes on from the time of the old one,
      if any, which lets go of what the new one does not have. */
  ghost predicate Replacement(w: World, h: nat, old_: Option<nat>, found: seq<Ref>, w': World) {
    && Renewed(w, h, old_, found, w')
    && w'.observers[|w.observers|].started == w.now
    && (old_.None? ==> w'.observers[|w.observers|].previousDelay == 0)
    && (old_.Some? && old_.value < |w.observers| ==>
          var ob := w.observers[old_.value];
          var delay := ob.previousDelay + (w.now - ob.started);
          && w'.observers[|w.observers|].previousDelay == delay
          && w'.observers[old_.value].phase == Dropping(0, found, delay))
  }

  /** ... and when entries were found. */
  method EndWithObserver(hs: seq<ObserverHelper>, os: seq<ObserverObject>, h: nat, found: seq<Ref>,
                         previous: ObserverObject?, now: nat, ghost w: World, ghost old_: Option<nat>, ghost w': World)
    returns (os': seq<ObserverObject>, calls: seq<DetachCall>)
    requires HelpersInv(w) && Shows(hs, os, w) && h < |hs| && now == w.now
    requires Replacement(w, h, old_, found, w') && IsPrevious(os, old_, previous)
    modifies hs[h]
    ensures Shows(hs, os', w') && os <= os'
    ensures previous == null ==> calls == []
    ensures previous != null ==>
              var ob := w'.observers[old_.value];
              ob.phase.Dropping? && calls == DropCalls(ob.objects, found, ob.phase.credit)
  {
    var obsv;
    obsv, calls := Renew(hs[h], found, previous, now);
    os' := os + [obsv];
    ShowsNewOwner(hs, os, h, obsv, found, w, old_, w');
  }

  lemma ShowsNewOwner(hs: seq<ObserverHelper>, os: seq<ObserverObject>, h: nat, obsv: ObserverObject, found: seq<Ref>,
                      w: World, old_: Option<nat>, w': World)
    requires HelpersInv(w) && ShowsButOne(hs, os, h, w) && Renewed(w, h, old_, found, w')
    requires obsv !in os && hs[h].observer == obsv && obsv.Is(w'.observers[|os|])
    ensures Shows(hs, os + [obsv], w')
  {
  }

  lemma CommitIsReplacement(w: World)
    requires HelpersInv(w) && BuildInv(w) && Enabled(w, Commit) && Defined(w, Commit) && w.building.value.objects != []
    ensures var b := w.building.value; Replacement(w, b.helper, b.old_, b.objects, Apply(w, Commit))
  {
    CommitRenews(w);
  }

  /** The end of either `getObserver`, whose result is given to `hs[h].attach`. */
  method ReplaceStep(hs: seq<ObserverHelper>, os: seq<ObserverObject>, h: nat, found: seq<Ref>,
                     previous: ObserverObject?, now: nat, ghost w: World)
    returns (os': seq<ObserverObject>, calls: seq<DetachCall>)
    requires HelpersInv(w) && BuildInv(w) && Shows(hs, os, w) && Enabled(w, Commit) && now == w.now
    requires w.building.value.helper == h && w.building.value.objects == found
    requires IsPrevious(os, w.building.value.old_, previous)
    modifies hs[h], if previous == null then {} else {previous}
    ensures Defined(w, Commit) && Shows(hs, os', Apply(w, Commit)) && os <= os'
    ensures previous == null ==> calls == []
    ensures previous != null ==>
              var ob := Apply(w, Commit).observers[w.building.value.old_.value];
              if found == [] then ob.phase.Leaving? && calls == LeaveCalls(ob.objects, ob.phase.lifetime)
              else ob.phase.Dropping? && calls == DropCalls(ob.objects, found, ob.phase.credit)
  {
    if found == [] {
      os' := os;
      calls := EndWithNothing(hs, os, h, previous, now, w);
    } else {
      CommitIsReplacement(w);
      os', calls := EndWithObserver(hs, os, h, found, previous, now, w, w.building.value.old_, Apply(w, Commit));
    }
  }

  // ---------------------------------------------------------------- loops and steps

  /** The world after the loop of an observer has run to its end without interruption. */
  ghost function LoopEnd(w: World, o: nat): World
    requires Inv(w) && o < |w.observers| && (w.observers[o].phase.Dropping? || w.observers[o].phase.Leaving?)
    decreases |w.observers[o].objects| - w.observers[o].phase.k
  {
    var e := if w.observers[o].phase.Dropping? then DropNext(o) else LeaveNext(o);
    StepKeeps(w, e);
    TurnOfLoop(w, e, o);
    if w.observers[o].phase.k < |w.observers[o].objects| then LoopEnd(Apply(w, e), o) else Apply(w, e)
  }

  ghost function CreditsOf(calls: seq<DetachCall>, o: nat): seq<Credit> {
    if calls == [] then [] else [Credit(calls[0].ref, calls[0].lifetime, o)] + CreditsOf(calls[1..], o)
  }

  /** The calls that an observer's loop has still to make. */
  ghost function Calls(ob: Observer): seq<DetachCall>
    requires (ob.phase.Dropping? || ob.phase.Leaving?) && ob.phase.k <= |ob.objects|
  {
    match ob.phase
    case Dropping(k, kept, credit) => DropCalls(ob.objects[k..], kept, credit)
    case Leaving(k, lifetime) => LeaveCalls(ob.objects[k..], lifetime)
  }

  lemma NextCall(ob: Observer, o: nat)
    requires (ob.phase.Dropping? || ob.phase.Leaving?) && ob.phase.k < |ob.objects|
    ensures CreditsOf(Calls(ob), o)
         == (if Detaches(ob) then [NextCredit(ob, o)] else []) + CreditsOf(Calls(Advanced(ob)), o)
  {
    var k := ob.phase.k;
    assert ob.objects[k..][1..] == ob.objects[k + 1..];
    if Detaches(ob) {
      assert Calls(ob)[1..] == Calls(Advanced(ob));
    } else {
      assert Calls(ob) == Calls(Advanced(ob));
    }
  }

  /** The turns of a loop, one step of the world each, give the credits for the calls of the method. */
  lemma {:induction false} LoopGives(w: World, o: nat)
    requires Inv(w) && o < |w.observers| && (w.observers[o].phase.Dropping? || w.observers[o].phase.Leaving?)
    ensures LoopEnd(w, o).credits == w.credits + CreditsOf(Calls(w.observers[o]), o)
    ensures o < |LoopEnd(w, o).observers| && LoopEnd(w, o).observers[o].phase.Gone?
    decreases |w.observers[o].objects| - w.observers[o].phase.k
  {
    var ob := w.observers[o];
    var e := if ob.phase.Dropping? then DropNext(o) else LeaveNext(o);
    StepKeeps(w, e);
    TurnOfLoop(w, e, o);
    if ob.phase.k < |ob.objects| {
      NextCall(ob, o);
      LoopGives(Apply(w, e), o);
      Regroup(w.credits, if Detaches(ob) then [NextCredit(ob, o)] else [], CreditsOf(Calls(Advanced(ob)), o));
    } else {
      assert ob.objects[ob.phase.k..] == [];
      assert w.credits + [] == w.credits;
    }
  }
}
