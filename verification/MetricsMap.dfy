/**
 * The IceMX metrics map (cpp/include/Ice/MetricsAdminI.h): `MetricsMapT` with its entries.
 *
 * A map keeps an entry per key, with the number of observers attached to it.  Entries that nobody is
 * attached to are kept in a queue of bounded length with lazy removal: an entry that is attached again
 * stays in the queue until the queue is compressed.  `MapState` is the value of a map, over any type of
 * entry handles; `MapInv` is what `getMatching`, `detach` and `destroy` keep.
 */
module Metrics {
  import opened Common

  /** The fields of an entry.  `pos` is `_detachedPos`, the identity of a list node or None for end();
      `lastDetach` is the moment of its last detach, kept for the proofs only. */
  datatype Rec = Rec(key: string, total: nat, current: int, totalLifetime: int, pos: Option<nat>, lastDetach: nat)

  /** An element of the list `_detachedQueue`; iterators refer to it by its identity. */
  datatype Node<E> = Node(id: nat, entry: E)

  datatype MapState<E> = MapState(retain: nat, destroyed: bool, entries: map<E, Rec>, objects: map<string, E>,
                                      queue: seq<Node<E>>, nextNode: nat, clock: nat)

  ghost function NewMap<E>(retain: nat): MapState<E> {
    MapState(retain, false, map[], map[], [], 0, 1)
  }

  // ---------------------------------------------------------------- operations

  predicate IsDetached(r: Rec) {
    r.current == 0
  }

  /** `EntryT::attach`. */
  ghost function Attach<E>(m: MapState<E>, e: E): MapState<E>
    requires e in m.entries
  {
    var r := m.entries[e];
    m.(entries := m.entries[e := r.(total := r.total + 1, current := r.current + 1)])
  }

  /** `getMatching` has to create an entry: no filter rejects the helper, its key is computed (None when
      that throws), and the key is neither that of the previous entry nor in the map. */
  ghost predicate Creates<E>(m: MapState<E>, accepted: bool, key: Option<string>, previous: Option<E>)
    requires previous.Some? ==> previous.value in m.entries
  {
    && accepted && key.Some? && !m.destroyed && key.value !in m.objects
    && !(previous.Some? && m.entries[previous.value].key == key.value)
  }

  /** `getMatching` when it creates nothing. */
  ghost function Lookup<E>(m: MapState<E>, accepted: bool, key: Option<string>, previous: Option<E>)
    : (Option<E>, MapState<E>)
    requires previous.Some? ==> previous.value in m.entries
    requires forall k :: k in m.objects ==> m.objects[k] in m.entries
  {
    if !accepted || key.None? || m.destroyed then (None, m)
    else if previous.Some? && m.entries[previous.value].key == key.value then (previous, m)
    else if key.value in m.objects then (Some(m.objects[key.value]), Attach(m, m.objects[key.value]))
    else (None, m)
  }

  /** `getMatching`; `newEntry` is the entry that is allocated if one is. */
  ghost function GetMatching<E>(m: MapState<E>, accepted: bool, key: Option<string>, previous: Option<E>, newEntry: E)
    : (Option<E>, MapState<E>)
    requires previous.Some? ==> previous.value in m.entries
    requires forall k :: k in m.objects ==> m.objects[k] in m.entries
  {
    if Creates(m, accepted, key, previous) then
      (Some(newEntry), Attach(Insert(m, key.value, newEntry), newEntry))
    else Lookup(m, accepted, key, previous)
  }

  ghost function Insert<E>(m: MapState<E>, key: string, e: E): MapState<E> {
    m.(entries := m.entries[e := Rec(key, 0, 0, 0, None, 0)], objects := m.objects[key := e])
  }

  /** The nodes of the queue whose entries are detached. */
  ghost function Compressed<E>(queue: seq<Node<E>>, entries: map<E, Rec>): seq<Node<E>>
    requires forall i :: 0 <= i < |queue| ==> queue[i].entry in entries
  {
    if queue == [] then []
    else
      var n := |queue| - 1;
      Compressed(queue[..n], entries) + if IsDetached(entries[queue[n].entry]) then [queue[n]] else []
  }

  /** The entries once `_detachedPos` is reset in those that compressing removes from the queue. */
  ghost function Unqueued<E>(queue: seq<Node<E>>, entries: map<E, Rec>): map<E, Rec>
    requires forall i :: 0 <= i < |queue| ==> queue[i].entry in entries
  {
    map e | e in entries ::
      if !IsDetached(entries[e]) && InQueue(queue, e) then entries[e].(pos := None) else entries[e]
  }

  ghost predicate InQueue<E>(queue: seq<Node<E>>, e: E) {
    exists i :: 0 <= i < |queue| && queue[i].entry == e
  }

  /** The first index of the node with this identity, or the length of the queue. */
  ghost function IndexOf<E>(queue: seq<Node<E>>, id: nat): (i: nat)
    ensures i <= |queue|
    ensures i < |queue| ==> queue[i].id == id
    ensures forall j :: 0 <= j < i ==> queue[j].id != id
  {
    if queue == [] || queue[0].id == id then 0 else 1 + IndexOf(queue[1..], id)
  }

  ghost function MovedToBack<E>(queue: seq<Node<E>>, i: nat): seq<Node<E>>
    requires i < |queue|
  {
    queue[..i] + queue[i + 1..] + [queue[i]]
  }

  /** `compress`: done only when the queue is full. */
  ghost function Compress<E>(m: MapState<E>): MapState<E>
    requires forall i :: 0 <= i < |m.queue| ==> m.queue[i].entry in m.entries
  {
    if |m.queue| == m.retain then
      m.(queue := Compressed(m.queue, m.entries), entries := Unqueued(m.queue, m.entries))
    else m
  }

  /** Removal of the oldest entry, when the queue is still full. */
  ghost function Evict<E>(m: MapState<E>): MapState<E>
    requires m.retain > 0 && forall i :: 0 <= i < |m.queue| ==> m.queue[i].entry in m.entries
  {
    if |m.queue| == m.retain then
      m.(objects := m.objects - {m.entries[m.queue[0].entry].key}, queue := m.queue[1..])
    else m
  }

  ghost function Append<E>(m: MapState<E>, e: E): MapState<E>
    requires e in m.entries
  {
    m.(queue := m.queue + [Node(m.nextNode, e)], nextNode := m.nextNode + 1,
       entries := m.entries[e := m.entries[e].(pos := Some(m.nextNode))])
  }

  /** `detached`. */
  ghost function Detached<E>(m: MapState<E>, e: E): MapState<E>
    requires e in m.entries && forall i :: 0 <= i < |m.queue| ==> m.queue[i].entry in m.entries
    requires m.entries[e].pos.Some? && m.retain > 0 && !m.destroyed ==>
               IndexOf(m.queue, m.entries[e].pos.value) < |m.queue|
  {
    if m.retain == 0 || m.destroyed then m
    else if m.entries[e].pos.Some? then m.(queue := MovedToBack(m.queue, IndexOf(m.queue, m.entries[e].pos.value)))
    else
      CompressedIn(m.queue, m.entries);
      Append(Evict(Compress(m)), e)
  }

  /** The decrement in `EntryT::detach`. */
  ghost function Leave<E>(m: MapState<E>, e: E, lifetime: int): MapState<E>
    requires e in m.entries
  {
    var r := m.entries[e];
    m.(entries := m.entries[e := r.(totalLifetime := r.totalLifetime + lifetime, current := r.current - 1,
                                    lastDetach := if r.current == 1 then m.clock else r.lastDetach)],
       clock := m.clock + 1)
  }

  /** `EntryT::detach`. */
  ghost function Detach<E>(m: MapState<E>, e: E, lifetime: int): MapState<E>
    requires MapInv(m) && e in m.entries && m.entries[e].current > 0
  {
    var m' := Leave(m, e, lifetime);
    if m'.entries[e].current == 0 then
      PositionIsInQueue(m, e);
      Detached(m', e)
    else m'
  }

  /** `destroy`. */
  ghost function Destroy<E>(m: MapState<E>): MapState<E> {
    m.(destroyed := true, objects := map[], queue := [])
  }

  // ---------------------------------------------------------------- the invariant

  ghost predicate Owns<E>(m: MapState<E>, e: E) {
    e in m.entries && m.entries[e].key in m.objects && m.objects[m.entries[e].key] == e
  }

  /** An entry that someone is attached to is in the map under its own key. */
  ghost predicate AttachedInv<E>(m: MapState<E>) {
    forall e :: e in m.entries ==>
      && 0 <= m.entries[e].current <= m.entries[e].total && m.entries[e].total > 0
      && (!m.destroyed && m.entries[e].current > 0 ==> Owns(m, e))
  }

  /** Objects are stored under their own key; with retention, those nobody is attached to are queued. */
  ghost predicate ObjectsInv<E>(m: MapState<E>) {
    && (m.destroyed ==> m.objects == map[])
    && forall k :: k in m.objects ==>
         && m.objects[k] in m.entries && m.entries[m.objects[k]].key == k
         && (m.retain > 0 && IsDetached(m.entries[m.objects[k]]) ==> m.entries[m.objects[k]].pos.Some?)
  }

  ghost predicate DistinctIds<E>(queue: seq<Node<E>>) {
    forall i, j :: 0 <= i < j < |queue| ==> queue[i].id != queue[j].id
  }

  /** The queue is bounded, holds objects of the map, and the positions of its entries are right. */
  ghost predicate QueueInv<E>(m: MapState<E>) {
    && (m.destroyed ==> m.queue == [])
    && |m.queue| <= m.retain
    && DistinctIds(m.queue)
    && forall i :: 0 <= i < |m.queue| ==>
         && Owns(m, m.queue[i].entry)
         && m.entries[m.queue[i].entry].pos == Some(m.queue[i].id) && m.queue[i].id < m.nextNode
  }

  /** An object has a position exactly when it is in the queue. */
  ghost predicate PositionInv<E>(m: MapState<E>) {
    forall k :: k in m.objects && m.objects[k] in m.entries ==>
      (m.entries[m.objects[k]].pos.Some? <==> InQueue(m.queue, m.objects[k]))
  }

  /** The queue is ordered by the last detach. */
  ghost predicate OrderInv<E>(m: MapState<E>) {
    && m.clock > 0 && (forall e :: e in m.entries ==> m.entries[e].lastDetach < m.clock)
    && InOrder(m.queue, m.entries)
  }

  ghost predicate InOrder<E>(queue: seq<Node<E>>, entries: map<E, Rec>) {
    && (forall i :: 0 <= i < |queue| ==> queue[i].entry in entries)
    && forall i, j :: 0 <= i < j < |queue| ==>
         entries[queue[i].entry].lastDetach < entries[queue[j].entry].lastDetach
  }

  ghost predicate MapInv<E>(m: MapState<E>) {
    AttachedInv(m) && ObjectsInv(m) && QueueInv(m) && PositionInv(m) && OrderInv(m)
  }

  // ---------------------------------------------------------------- looking up

  lemma PositionIsInQueue<E>(m: MapState<E>, e: E)
    requires MapInv(m) && e in m.entries && m.entries[e].current > 0
    ensures m.entries[e].pos.Some? && !m.destroyed ==>
              var i := IndexOf(m.queue, m.entries[e].pos.value); i < |m.queue| && m.queue[i].entry == e
  {
    if m.entries[e].pos.Some? && !m.destroyed {
      assert Owns(m, e);
      var j :| 0 <= j < |m.queue| && m.queue[j].entry == e;
      assert m.queue[j].id == m.entries[e].pos.value;
    }
  }

  lemma {:induction false} CompressedIn<E>(queue: seq<Node<E>>, entries: map<E, Rec>)
    requires forall i :: 0 <= i < |queue| ==> queue[i].entry in entries
    ensures |Compressed(queue, entries)| <= |queue|
    ensures forall i :: 0 <= i < |Compressed(queue, entries)| ==>
              && Compressed(queue, entries)[i] in queue
              && IsDetached(entries[Compressed(queue, entries)[i].entry])
  {
    if queue != [] {
      var n := |queue| - 1;
      CompressedIn(queue[..n], entries);
      assert forall x :: x in queue[..n] ==> x in queue;
    }
  }

  lemma {:induction false} CompressedKeeps<E>(queue: seq<Node<E>>, entries: map<E, Rec>, i: nat)
    requires forall i :: 0 <= i < |queue| ==> queue[i].entry in entries
    requires i < |queue| && IsDetached(entries[queue[i].entry])
    ensures queue[i] in Compressed(queue, entries)
  {
    var n := |queue| - 1;
    if i < n {
      CompressedKeeps(queue[..n], entries, i);
    }
  }

  /** Compressing keeps the order, and with it that nodes differ. */
  lemma {:induction false} CompressedInOrder<E>(queue: seq<Node<E>>, entries: map<E, Rec>)
    requires InOrder(queue, entries)
    requires DistinctIds(queue)
    ensures InOrder(Compressed(queue, entries), entries)
    ensures DistinctIds(Compressed(queue, entries))
  {
    if queue != [] {
      var n := |queue| - 1;
      CompressedIn(queue[..n], entries);
      CompressedInOrder(queue[..n], entries);
      CompressedIn(queue, entries);
    }
  }

  // ---------------------------------------------------------------- getMatching keeps the invariant

  lemma AttachKeeps<E>(m: MapState<E>, e: E)
    requires MapInv(m) && Owns(m, e)
    ensures MapInv(Attach(m, e))
  {
    var m' := Attach(m, e);
    assert forall x :: x in m.entries ==> m'.entries[x].pos == m.entries[x].pos && m'.entries[x].key == m.entries[x].key
                                          && m'.entries[x].lastDetach == m.entries[x].lastDetach;
    assert forall x :: Owns(m, x) ==> Owns(m', x);
  }

  lemma InsertEffect<E>(m: MapState<E>, key: string, e: E)
    requires MapInv(m) && !m.destroyed && e !in m.entries && key !in m.objects
    ensures var m' := Attach(Insert(m, key, e), e);
            && m'.entries == m.entries[e := Rec(key, 1, 1, 0, None, 0)] && m'.objects == m.objects[key := e]
            && (forall x :: Owns(m, x) ==> x != e && Owns(m', x)) && Owns(m', e)
            && !InQueue(m.queue, e)
  {
  }

  lemma CreateKeeps<E>(m: MapState<E>, key: string, e: E)
    requires MapInv(m) && !m.destroyed && e !in m.entries && key !in m.objects
    ensures MapInv(Attach(Insert(m, key, e), e))
  {
    var m' := Attach(Insert(m, key, e), e);
    InsertEffect(m, key, e);
    assert AttachedInv(m') && ObjectsInv(m');
    assert QueueInv(m');
    assert PositionInv(m');
  }

  /** `getMatching` keeps the invariant, its assertion at line 468 holds, and it returns an entry of the
      map that someone is attached to, with the key asked for. */
  lemma GetMatchingKeeps<E>(m: MapState<E>, accepted: bool, key: Option<string>, previous: Option<E>, newEntry: E)
    requires MapInv(m) && newEntry !in m.entries
    requires previous.Some? ==> previous.value in m.entries && m.entries[previous.value].current > 0
    ensures var (r, m') := GetMatching(m, accepted, key, previous, newEntry);
            && MapInv(m')
            && (r.Some? ==> key.Some? && Owns(m', r.value) && m'.entries[r.value].key == key.value
                            && m'.entries[r.value].current > 0)
    ensures !m.destroyed && previous.Some? && key == Some(m.entries[previous.value].key) ==>
              key.value in m.objects && m.objects[key.value] == previous.value
  {
    if previous.Some? && !m.destroyed {
      assert Owns(m, previous.value);
    }
    if accepted && key.Some? && !m.destroyed && !(previous.Some? && m.entries[previous.value].key == key.value) {
      if key.value in m.objects {
        AttachKeeps(m, m.objects[key.value]);
      } else {
        CreateKeeps(m, key.value, newEntry);
      }
    }
  }

  lemma PreviousIsOwned<E>(m: MapState<E>, e: E)
    requires MapInv(m) && !m.destroyed && e in m.entries && m.entries[e].current > 0
    ensures Owns(m, e)
  {
  }

  lemma DestroyKeeps<E>(m: MapState<E>)
    requires MapInv(m)
    ensures MapInv(Destroy(m))
  {
  }

  // ---------------------------------------------------------------- detach keeps the invariant

  /** The state between the decrement and the end of `detached`, for an entry that is not queued: all is
      well except that e, detached last of all, has no position yet. */
  ghost predicate Settling<E>(m: MapState<E>, e: E) {
    && m.retain > 0 && !m.destroyed && Owns(m, e) && IsDetached(m.entries[e]) && m.entries[e].pos.None?
    && AttachedInv(m) && QueueInv(m) && PositionInv(m) && OrderInv(m)
    && (forall k :: k in m.objects ==> m.objects[k] in m.entries && m.entries[m.objects[k]].key == k)
    && (forall k :: k in m.objects && m.objects[k] != e && IsDetached(m.entries[m.objects[k]]) ==>
          m.entries[m.objects[k]].pos.Some?)
    && (forall i :: 0 <= i < |m.queue| ==> m.entries[m.queue[i].entry].lastDetach < m.entries[e].lastDetach)
  }

  /** When the queue is full, everything in it is detached. */
  ghost predicate FullIsDetached<E>(m: MapState<E>) {
    |m.queue| == m.retain ==>
      forall i :: 0 <= i < |m.queue| ==> m.queue[i].entry in m.entries && IsDetached(m.entries[m.queue[i].entry])
  }

  lemma LeaveKeeps<E>(m: MapState<E>, e: E, lifetime: int)
    requires MapInv(m) && e in m.entries && m.entries[e].current > 1
    ensures MapInv(Leave(m, e, lifetime))
  {
    var m' := Leave(m, e, lifetime);
    assert forall x :: Owns(m, x) <==> Owns(m', x);
  }

  lemma LeaveKeepsUnretained<E>(m: MapState<E>, e: E, lifetime: int)
    requires MapInv(m) && e in m.entries && m.entries[e].current == 1 && (m.retain == 0 || m.destroyed)
    ensures MapInv(Leave(m, e, lifetime))
  {
    var m' := Leave(m, e, lifetime);
    assert forall x :: Owns(m, x) <==> Owns(m', x);
    assert m.queue == [];
  }

  lemma LeaveSettles<E>(m: MapState<E>, e: E, lifetime: int)
    requires MapInv(m) && e in m.entries && m.entries[e].current == 1 && m.retain > 0 && !m.destroyed
    requires m.entries[e].pos.None?
    ensures Settling(Leave(m, e, lifetime), e)
  {
    var m' := Leave(m, e, lifetime);
    assert Owns(m, e);
    assert forall x :: Owns(m, x) <==> Owns(m', x);
    assert !InQueue(m.queue, e);
    forall i | 0 <= i < |m.queue| ensures m.queue[i].entry != e {
    }
  }

  lemma CompressKeeps<E>(m: MapState<E>, e: E)
    requires Settling(m, e)
    ensures Settling(Compress(m), e) && FullIsDetached(Compress(m))
  {
    if |m.queue| == m.retain {
      CompressKeepsObjects(m, e);
      CompressKeepsPositions(m, e);
      CompressKeepsQueue(m, e);
      CompressKeepsOrder(m, e);
    }
  }

  lemma CompressKeepsObjects<E>(m: MapState<E>, e: E)
    requires Settling(m, e) && |m.queue| == m.retain
    ensures var m' := Compress(m);
            && Owns(m', e) && IsDetached(m'.entries[e]) && m'.entries[e].pos.None?
            && (forall k :: k in m'.objects ==> m'.objects[k] in m'.entries && m'.entries[m'.objects[k]].key == k)
            && (forall k :: k in m'.objects && m'.objects[k] != e && IsDetached(m'.entries[m'.objects[k]]) ==>
                  m'.entries[m'.objects[k]].pos.Some?)
  {
    CompressedPositions(m, e);
  }

  lemma CompressKeepsPositions<E>(m: MapState<E>, e: E)
    requires Settling(m, e) && |m.queue| == m.retain
    ensures AttachedInv(Compress(m)) && PositionInv(Compress(m))
  {
    var m' := Compress(m);
    CompressedPositions(m, e);
    assert forall x :: Owns(m, x) <==> Owns(m', x);
  }

  lemma CompressKeepsQueue<E>(m: MapState<E>, e: E)
    requires Settling(m, e) && |m.queue| == m.retain
    ensures QueueInv(Compress(m)) && FullIsDetached(Compress(m))
  {
    var m' := Compress(m);
    CompressedIn(m.queue, m.entries);
    CompressedInOrder(m.queue, m.entries);
    CompressedPositions(m, e);
    assert forall x :: Owns(m, x) <==> Owns(m', x);
  }

  lemma CompressKeepsOrder<E>(m: MapState<E>, e: E)
    requires Settling(m, e) && |m.queue| == m.retain
    ensures var m' := Compress(m);
            && OrderInv(m')
            && (forall i :: 0 <= i < |m'.queue| ==> m'.entries[m'.queue[i].entry].lastDetach < m'.entries[e].lastDetach)
  {
    CompressedIn(m.queue, m.entries);
    CompressedInOrder(m.queue, m.entries);
    CompressedPositions(m, e);
  }

  /** After compressing, an entry has a position exactly when it is still queued. */
  lemma CompressedPositions<E>(m: MapState<E>, e: E)
    requires Settling(m, e)
    ensures var q, es := Compressed(m.queue, m.entries), Unqueued(m.queue, m.entries);
            && (forall x :: x in m.entries ==> (InQueue(q, x) <==> InQueue(m.queue, x) && IsDetached(m.entries[x])))
            && (forall x :: x in m.entries ==> es[x] == if InQueue(m.queue, x) && !IsDetached(m.entries[x])
                                                         then m.entries[x].(pos := None) else m.entries[x])
  {
    var q := Compressed(m.queue, m.entries);
    CompressedIn(m.queue, m.entries);
    forall x | x in m.entries ensures InQueue(q, x) <==> InQueue(m.queue, x) && IsDetached(m.entries[x]) {
      if InQueue(q, x) {
        var i :| 0 <= i < |q| && q[i].entry == x;
        assert q[i] in m.queue;
      }
      if InQueue(m.queue, x) && IsDetached(m.entries[x]) {
        var i :| 0 <= i < |m.queue| && m.queue[i].entry == x;
        CompressedKeeps(m.queue, m.entries, i);
      }
    }
  }

  /** Eviction removes the front of the queue from the map and changes nothing else. */
  lemma EvictEffect<E>(m: MapState<E>, e: E)
    requires Settling(m, e) && FullIsDetached(m) && |m.queue| == m.retain
    ensures var m', x := Evict(m), m.queue[0].entry;
            && Owns(m, x) && x != e && m'.entries == m.entries
            && (forall y :: Owns(m', y) <==> Owns(m, y) && y != x)
            && (forall k :: k in m'.objects <==> k in m.objects && m.objects[k] != x)
            && (forall k :: k in m'.objects ==> m'.objects[k] == m.objects[k])
            && (forall y :: y != x ==> (InQueue(m'.queue, y) <==> InQueue(m.queue, y)))
  {
    assert Owns(m, m.queue[0].entry);
    FrontOut(m.queue);
  }

  lemma FrontOut<E>(queue: seq<Node<E>>)
    requires queue != []
    ensures forall y :: y != queue[0].entry ==> (InQueue(queue[1..], y) <==> InQueue(queue, y))
  {
    forall y | y != queue[0].entry ensures InQueue(queue[1..], y) <==> InQueue(queue, y) {
      if InQueue(queue, y) {
        var i :| 0 <= i < |queue| && queue[i].entry == y;
        assert queue[1..][i - 1].entry == y;
      }
      if InQueue(queue[1..], y) {
        var i :| 0 <= i < |queue[1..]| && queue[1..][i].entry == y;
        assert queue[i + 1].entry == y;
      }
    }
  }

  lemma EvictKeeps<E>(m: MapState<E>, e: E)
    requires Settling(m, e) && FullIsDetached(m)
    ensures Settling(Evict(m), e) && |Evict(m).queue| < m.retain
  {
    if |m.queue| == m.retain {
      var m', x := Evict(m), m.queue[0].entry;
      EvictEffect(m, e);
      EvictKeepsQueue(m, e);
      assert AttachedInv(m') && PositionInv(m');
    }
  }

  lemma EvictKeepsQueue<E>(m: MapState<E>, e: E)
    requires Settling(m, e) && FullIsDetached(m) && |m.queue| == m.retain
    ensures QueueInv(Evict(m)) && OrderInv(Evict(m))
  {
    var m' := Evict(m);
    EvictEffect(m, e);
    forall i | 0 <= i < |m'.queue| ensures Owns(m', m'.queue[i].entry) {
      assert m'.queue[i] == m.queue[i + 1] && Owns(m, m.queue[i + 1].entry);
    }
  }

  lemma AppendEffect<E>(m: MapState<E>, e: E)
    requires Settling(m, e)
    ensures var m' := Append(m, e);
            && m'.objects == m.objects
            && (forall x :: Owns(m, x) <==> Owns(m', x)) && !InQueue(m.queue, e)
            && (forall x :: InQueue(m'.queue, x) <==> InQueue(m.queue, x) || x == e)
  {
    var m' := Append(m, e);
    assert m'.queue[|m.queue|].entry == e;
    forall x | InQueue(m.queue, x) ensures InQueue(m'.queue, x) {
      var i :| 0 <= i < |m.queue| && m.queue[i].entry == x;
      assert m'.queue[i].entry == x;
    }
  }

  lemma AppendKeeps<E>(m: MapState<E>, e: E)
    requires Settling(m, e) && |m.queue| < m.retain
    ensures MapInv(Append(m, e))
  {
    var m' := Append(m, e);
    AppendEffect(m, e);
    AppendKeepsQueue(m, e);
    AppendKeepsOrder(m, e);
    assert AttachedInv(m') && ObjectsInv(m') && PositionInv(m');
  }

  lemma NotQueued<E>(m: MapState<E>, e: E)
    requires Settling(m, e)
    ensures forall i :: 0 <= i < |m.queue| ==> m.queue[i].entry != e
  {
  }

  lemma AppendKeepsQueue<E>(m: MapState<E>, e: E)
    requires Settling(m, e) && |m.queue| < m.retain
    ensures QueueInv(Append(m, e))
  {
    AppendEffect(m, e);
    NotQueued(m, e);
  }

  lemma AppendKeepsOrder<E>(m: MapState<E>, e: E)
    requires Settling(m, e) && |m.queue| < m.retain
    ensures OrderInv(Append(m, e))
  {
    NotQueued(m, e);
  }

  // The entry is still queued from an earlier detach: its node moves to the back.

  ghost function MovedFrom(n: nat, i: nat, j: nat): (k: nat)
    requires i < n && j < n
    ensures k < n && (j < n - 1 ==> k != i) && (j == n - 1 ==> k == i)
  {
    if j == n - 1 then i else if j < i then j else j + 1
  }

  lemma MoveEffect<E>(q: seq<Node<E>>, i: nat)
    requires i < |q|
    ensures var q' := MovedToBack(q, i);
            && |q'| == |q| && (forall x :: InQueue(q', x) <==> InQueue(q, x))
            && (forall j :: 0 <= j < |q| ==> q'[j] == q[MovedFrom(|q|, i, j)])
  {
    var q' := MovedToBack(q, i);
    forall x ensures InQueue(q', x) <==> InQueue(q, x) {
      if InQueue(q, x) {
        var j :| 0 <= j < |q| && q[j].entry == x;
        assert q'[if j < i then j else if j == i then |q| - 1 else j - 1].entry == x;
      }
    }
  }

  lemma MoveKeepsIds<E>(q: seq<Node<E>>, i: nat)
    requires i < |q| && DistinctIds(q)
    ensures DistinctIds(MovedToBack(q, i))
  {
    var q' := MovedToBack(q, i);
    MoveEffect(q, i);
    forall j, k | 0 <= j < k < |q'| ensures q'[j].id != q'[k].id {
      var j', k' := MovedFrom(|q|, i, j), MovedFrom(|q|, i, k);
      assert j' != k' && q'[j] == q[j'] && q'[k] == q[k'];
    }
  }

  lemma MoveKeeps<E>(m: MapState<E>, e: E, lifetime: int)
    requires MapInv(m) && e in m.entries && m.entries[e].current == 1 && m.retain > 0 && !m.destroyed
    requires m.entries[e].pos.Some?
    ensures MapInv(Detach(m, e, lifetime))
  {
    var m' := Detach(m, e, lifetime);
    var i := IndexOf(m.queue, m.entries[e].pos.value);
    PositionIsInQueue(m, e);
    PreviousIsOwned(m, e);
    MoveMoves(m, e, lifetime, i);
    MoveKeepsObjects(m, e, i, m');
    MoveKeepsQueue(m, e, i, m');
    MoveKeepsOrder(m, e, i, m');
  }

  /** What the decrement and the move change. */
  ghost predicate Moves<E>(m: MapState<E>, e: E, i: nat, m': MapState<E>) {
    && MapInv(m) && Owns(m, e) && i < |m.queue| && m.queue[i].entry == e
    && m'.queue == MovedToBack(m.queue, i) && m'.objects == m.objects && m'.nextNode == m.nextNode
    && m'.retain == m.retain && !m'.destroyed && m'.clock == m.clock + 1 && m'.entries.Keys == m.entries.Keys
    && forall x :: x in m.entries ==>
         && m'.entries[x].key == m.entries[x].key && m'.entries[x].pos == m.entries[x].pos
         && m'.entries[x].total == m.entries[x].total
         && (if x == e then 0 == m'.entries[x].current <= m.entries[x].current
             else m'.entries[x].current == m.entries[x].current)
         && m'.entries[x].lastDetach == if x == e then m.clock else m.entries[x].lastDetach
  }

  lemma MoveMoves<E>(m: MapState<E>, e: E, lifetime: int, i: nat)
    requires MapInv(m) && Owns(m, e) && m.entries[e].current == 1 && m.retain > 0 && !m.destroyed
    requires m.entries[e].pos.Some? && i == IndexOf(m.queue, m.entries[e].pos.value)
    requires i < |m.queue| && m.queue[i].entry == e
    ensures Moves(m, e, i, Detach(m, e, lifetime))
  {
    assert Detach(m, e, lifetime) == Leave(m, e, lifetime).(queue := MovedToBack(m.queue, i));
  }

  lemma MoveKeepsObjects<E>(m: MapState<E>, e: E, i: nat, m': MapState<E>)
    requires Moves(m, e, i, m')
    ensures AttachedInv(m') && ObjectsInv(m') && PositionInv(m')
  {
    assert forall x :: Owns(m, x) <==> Owns(m', x);
    MoveEffect(m.queue, i);
  }

  lemma MoveKeepsQueue<E>(m: MapState<E>, e: E, i: nat, m': MapState<E>)
    requires Moves(m, e, i, m')
    ensures QueueInv(m')
  {
    MoveEffect(m.queue, i);
    MoveKeepsIds(m.queue, i);
    forall j | 0 <= j < |m.queue|
      ensures Owns(m', m'.queue[j].entry) && m'.entries[m'.queue[j].entry].pos == Some(m'.queue[j].id)
      ensures m'.queue[j].id < m'.nextNode
    {
      assert Owns(m, m.queue[MovedFrom(|m.queue|, i, j)].entry);
    }
  }

  lemma MoveKeepsOrder<E>(m: MapState<E>, e: E, i: nat, m': MapState<E>)
    requires Moves(m, e, i, m')
    ensures OrderInv(m')
  {
    var n := |m.queue|;
    MoveEffect(m.queue, i);
    forall j | 0 <= j < n && j != i ensures m.queue[j].entry != e {
    }
    forall j, k | 0 <= j < k < n
      ensures m'.entries[m'.queue[j].entry].lastDetach < m'.entries[m'.queue[k].entry].lastDetach
    {
      var j', k' := MovedFrom(n, i, j), MovedFrom(n, i, k);
      assert j' != i && m'.queue[j] == m.queue[j'] && m'.queue[k] == m.queue[k'];
      if k < n - 1 {
        assert j' < k' && k' != i;
      }
    }
  }

  /** `detach` keeps the invariant; in particular the assertion at line 507 holds. */
  lemma DetachKeeps<E>(m: MapState<E>, e: E, lifetime: int)
    requires MapInv(m) && e in m.entries && m.entries[e].current > 0
    ensures MapInv(Detach(m, e, lifetime))
  {
    if m.entries[e].current > 1 {
      LeaveKeeps(m, e, lifetime);
    } else if m.retain == 0 || m.destroyed {
      LeaveKeepsUnretained(m, e, lifetime);
    } else if m.entries[e].pos.Some? {
      MoveKeeps(m, e, lifetime);
    } else {
      var m1 := Leave(m, e, lifetime);
      LeaveSettles(m, e, lifetime);
      CompressKeeps(m1, e);
      EvictKeeps(Compress(m1), e);
      AppendKeeps(Evict(Compress(m1)), e);
    }
  }

  /** What `detach` does to the counters: only the entry's own change. */
  lemma DetachCounters<E>(m: MapState<E>, e: E, lifetime: int)
    requires MapInv(m) && e in m.entries && m.entries[e].current > 0
    ensures var m' := Detach(m, e, lifetime);
            && m'.entries.Keys == m.entries.Keys
            && forall x :: x in m.entries ==>
                 && m'.entries[x].total == m.entries[x].total
                 && m'.entries[x].current == m.entries[x].current - (if x == e then 1 else 0)
                 && m'.entries[x].totalLifetime == m.entries[x].totalLifetime + (if x == e then lifetime else 0)
  {
    var m1 := Leave(m, e, lifetime);
    if m1.entries[e].current == 0 {
      PositionIsInQueue(m, e);
      DetachedCounters(m1, e);
    }
  }

  lemma DetachedCounters<E>(m: MapState<E>, e: E)
    requires e in m.entries && forall i :: 0 <= i < |m.queue| ==> m.queue[i].entry in m.entries
    requires m.entries[e].pos.Some? && m.retain > 0 && !m.destroyed ==>
               IndexOf(m.queue, m.entries[e].pos.value) < |m.queue|
    ensures var m' := Detached(m, e);
            && m'.entries.Keys == m.entries.Keys
            && forall x :: x in m.entries ==>
                 && m'.entries[x].total == m.entries[x].total && m'.entries[x].current == m.entries[x].current
                 && m'.entries[x].totalLifetime == m.entries[x].totalLifetime
  {
    CompressedIn(m.queue, m.entries);
  }

  /** What `getMatching` does to the counters: an entry other than the previous one is attached. */
  lemma GetMatchingCounters<E>(m: MapState<E>, accepted: bool, key: Option<string>, previous: Option<E>, newEntry: E)
    requires MapInv(m) && newEntry !in m.entries
    requires previous.Some? ==> previous.value in m.entries && m.entries[previous.value].current > 0
    ensures var (r, m') := GetMatching(m, accepted, key, previous, newEntry);
            var attached := r.Some? && r != previous;
            && m'.entries.Keys == m.entries.Keys + (if Creates(m, accepted, key, previous) then {newEntry} else {})
            && (r.Some? ==> r.value in m'.entries && (r.value !in m.entries ==> r.value == newEntry))
            && (forall x :: x in m.entries ==>
                  && m'.entries[x].total == m.entries[x].total + (if attached && r.value == x then 1 else 0)
                  && m'.entries[x].current == m.entries[x].current + (if attached && r.value == x then 1 else 0)
                  && m'.entries[x].totalLifetime == m.entries[x].totalLifetime)
            && (Creates(m, accepted, key, previous) ==>
                  r == Some(newEntry) && attached
                  && m'.entries[newEntry].total == 1 && m'.entries[newEntry].current == 1
                  && m'.entries[newEntry].totalLifetime == 0)
  {
  }

  /** One more observer is attached to x, and to no other of these entries. */
  ghost predicate OneMore<E>(m: MapState<E>, m': MapState<E>, x: E) {
    && x in m.entries && m'.entries.Keys == m.entries.Keys
    && forall y :: y in m.entries ==>
         && m'.entries[y].current == m.entries[y].current + (if y == x then 1 else 0)
         && m'.entries[y].total == m.entries[y].total + (if y == x then 1 else 0)
  }

  /** `getMatching` returns an entry exactly when the helper is accepted, has a key, and the map is not
      destroyed.  It is the entry stored under the key, which gains an observer unless the previous one has
      it already; when none is stored it is the new one, which is stored then and has one observer. */
  lemma GetMatchingFinds<E>(m: MapState<E>, accepted: bool, key: Option<string>, previous: Option<E>, newEntry: E)
    requires MapInv(m) && newEntry !in m.entries
    requires previous.Some? ==> previous.value in m.entries && m.entries[previous.value].current > 0
    ensures var (r, m') := GetMatching(m, accepted, key, previous, newEntry);
            && (r.Some? <==> accepted && key.Some? && !m.destroyed)
            && (r.None? ==> m' == m)
            && (r.Some? && key.value in m.objects ==>
                  && r.value == m.objects[key.value] && m'.objects == m.objects
                  && if r == previous then m' == m else OneMore(m, m', r.value))
            && (r.Some? && key.value !in m.objects ==>
                  && r.value == newEntry && m'.objects == m.objects[key.value := newEntry]
                  && m'.entries.Keys == m.entries.Keys + {newEntry}
                  && m'.entries[newEntry].current == 1 && m'.entries[newEntry].total == 1
                  && forall x :: x in m.entries ==> m'.entries[x] == m.entries[x])
  {
    if previous.Some? && !m.destroyed {
      PreviousIsOwned(m, previous.value);
    }
  }

  /** Two observers with one key that are not related share an entry, which counts both. */
  lemma SameKeySharesEntry<E>(m: MapState<E>, key: string, e1: E, e2: E)
    requires MapInv(m) && !m.destroyed && e1 !in m.entries && e2 !in m.entries && e1 != e2
    ensures var (r1, m1) := GetMatching(m, true, Some(key), None, e1);
            MapInv(m1)
            && var (r2, m2) := GetMatching(m1, true, Some(key), None, e2);
            && r1.Some? && r2 == r1 && r1.value in m1.entries && r1.value in m2.entries
            && m2.entries[r1.value].current == m1.entries[r1.value].current + 1
  {
    GetMatchingKeeps(m, true, Some(key), None, e1);
    GetMatchingFinds(m, true, Some(key), None, e1);
    GetMatchingFinds(GetMatching(m, true, Some(key), None, e1).1, true, Some(key), None, e2);
  }

  /** A map that is not retaining, or is destroyed, drops nothing and queues nothing. */
  lemma UnretainedDropsNothing<E>(m: MapState<E>, e: E, lifetime: int)
    requires MapInv(m) && e in m.entries && m.entries[e].current > 0 && (m.retain == 0 || m.destroyed)
    ensures var m' := Detach(m, e, lifetime); m'.objects == m.objects && m'.queue == [] && m.queue == []
  {
  }

  /** Once destroyed, a map stays so: it holds nothing, gives out nothing, and what was attached can still be
      detached and is counted. */
  lemma DestroyedForGood<E>(m: MapState<E>)
    requires MapInv(m)
    ensures var d := Destroy(m);
            && MapInv(d) && d.destroyed && d.objects == map[] && d.queue == [] && d.entries == m.entries
            && (forall accepted, key: Option<string>, newEntry ::
                  GetMatching(d, accepted, key, None, newEntry) == (None, d))
            && forall e, lifetime | e in d.entries && d.entries[e].current > 0 ::
                 Detach(d, e, lifetime).destroyed && Detach(d, e, lifetime).objects == map[]
  {
    DestroyKeeps(m);
  }

  // ---------------------------------------------------------------- what is evicted

  /** The entries of the map that nobody is attached to. */
  ghost function DetachedSet<E>(m: MapState<E>): set<E> {
    set e | e in m.entries && Owns(m, e) && IsDetached(m.entries[e])
  }

  ghost function QueueSet<E>(queue: seq<Node<E>>): set<E> {
    set i | 0 <= i < |queue| :: queue[i].entry
  }

  lemma {:induction false} QueueSetSize<E>(queue: seq<Node<E>>)
    requires forall i, j :: 0 <= i < j < |queue| ==> queue[i].entry != queue[j].entry
    ensures |QueueSet(queue)| == |queue|
  {
    if queue != [] {
      var n := |queue| - 1;
      QueueSetSize(queue[..n]);
      assert QueueSet(queue) == QueueSet(queue[..n]) + {queue[n].entry};
    }
  }

  lemma {:induction false} SubsetSize<T>(a: set<T>, b: set<T>)
    requires a <= b
    ensures |a| <= |b| && (|a| == |b| ==> a == b)
  {
    if x :| x in a {
      SubsetSize(a - {x}, b - {x});
      assert a == a - {x} + {x} && b == b - {x} + {x};
    }
  }

  lemma OrderedDiffer<E>(queue: seq<Node<E>>, entries: map<E, Rec>)
    requires InOrder(queue, entries)
    ensures |QueueSet(queue)| == |queue|
  {
    forall i, j | 0 <= i < j < |queue| ensures queue[i].entry != queue[j].entry {
      assert entries[queue[i].entry].lastDetach < entries[queue[j].entry].lastDetach;
    }
    QueueSetSize(queue);
  }

  /** All detached entries of a map with retention are queued, so there are never more than `retain`. */
  lemma DetachedAreQueued<E>(m: MapState<E>)
    requires MapInv(m) && m.retain > 0 && !m.destroyed
    ensures DetachedSet(m) <= QueueSet(m.queue) && |DetachedSet(m)| <= m.retain
  {
    forall e | e in DetachedSet(m) ensures e in QueueSet(m.queue) {
      assert m.entries[e].key in m.objects && InQueue(m.queue, e);
    }
    OrderedDiffer(m.queue, m.entries);
    SubsetSize(DetachedSet(m), QueueSet(m.queue));
  }

  ghost predicate IsOldest<E>(m: MapState<E>, x: E) {
    && x in DetachedSet(m)
    && forall y :: y in DetachedSet(m) && y != x ==> m.entries[x].lastDetach < m.entries[y].lastDetach
  }

  /** The simple form of retention: after the decrement, if more than `retain` entries are detached, the
      one detached longest ago is dropped, and nothing else is. */
  ghost predicate DropsOldest<E>(m: MapState<E>, objects: map<string, E>) {
    if |DetachedSet(m)| <= m.retain then objects == m.objects
    else exists x :: x in m.entries && IsOldest(m, x) && objects == m.objects - {m.entries[x].key}
  }

  /** The lazily compressed queue does what the simple form does. */
  lemma LazyQueueDropsOldest<E>(m: MapState<E>, e: E, lifetime: int)
    requires MapInv(m) && e in m.entries && m.entries[e].current > 0 && m.retain > 0 && !m.destroyed
    ensures DropsOldest(Leave(m, e, lifetime), Detach(m, e, lifetime).objects)
  {
    var m1 := Leave(m, e, lifetime);
    assert forall x :: Owns(m, x) <==> Owns(m1, x);
    if m.entries[e].current > 1 {
      assert DetachedSet(m1) == DetachedSet(m);
      DetachedAreQueued(m);
    } else if m.entries[e].pos.Some? {
      PositionIsInQueue(m, e);
      DetachedAreQueued(m);
      OrderedDiffer(m.queue, m.entries);
      assert DetachedSet(m1) <= QueueSet(m.queue);
      SubsetSize(DetachedSet(m1), QueueSet(m.queue));
    } else {
      LeaveSettles(m, e, lifetime);
      CompressKeeps(m1, e);
      SettlingDropsOldest(m1, e);
    }
  }

  lemma SettlingDropsOldest<E>(m: MapState<E>, e: E)
    requires Settling(m, e) && Settling(Compress(m), e) && FullIsDetached(Compress(m))
    ensures DropsOldest(m, Append(Evict(Compress(m)), e).objects)
  {
    var c := Compress(m);
    CompressedSet(m, e);
    OrderedDiffer(c.queue, c.entries);
    SettlingSet(c, e);
    assert c.objects == m.objects && Append(Evict(c), e).objects == Evict(c).objects;
    if |c.queue| == c.retain {
      FrontIsOldest(c, e);
      assert IsOldest(m, c.queue[0].entry);
    }
  }

  lemma CompressedSet<E>(m: MapState<E>, e: E)
    requires Settling(m, e)
    ensures var c := Compress(m);
            && DetachedSet(c) == DetachedSet(m)
            && forall x :: x in m.entries ==>
                 && x in c.entries
                 && c.entries[x].lastDetach == m.entries[x].lastDetach && c.entries[x].key == m.entries[x].key
  {
    var c := Compress(m);
    assert forall x :: Owns(m, x) <==> Owns(c, x);
  }

  lemma SettlingSet<E>(m: MapState<E>, e: E)
    requires Settling(m, e) && FullIsDetached(m)
    ensures |DetachedSet(m)| <= |m.queue| + 1
    ensures |m.queue| == m.retain ==> DetachedSet(m) == QueueSet(m.queue) + {e} && |DetachedSet(m)| == m.retain + 1
  {
    OrderedDiffer(m.queue, m.entries);
    var d, q := DetachedSet(m), QueueSet(m.queue);
    assert !InQueue(m.queue, e);
    assert e !in q;
    forall x | x in d && x != e ensures x in q {
      assert InQueue(m.queue, x);
    }
    SubsetSize(d, q + {e});
    if |m.queue| == m.retain {
      forall i | 0 <= i < |m.queue| ensures m.queue[i].entry in d {
        assert Owns(m, m.queue[i].entry);
      }
      assert d == q + {e};
    }
  }

  lemma FrontIsOldest<E>(m: MapState<E>, e: E)
    requires Settling(m, e) && FullIsDetached(m) && |m.queue| == m.retain
    ensures IsOldest(m, m.queue[0].entry)
  {
    SettlingSet(m, e);
    var x := m.queue[0].entry;
    assert x in QueueSet(m.queue);
    forall y | y in DetachedSet(m) && y != x ensures m.entries[x].lastDetach < m.entries[y].lastDetach {
      if y != e {
        var i :| 0 <= i < |m.queue| && m.queue[i].entry == y;
      }
    }
  }

  // ---------------------------------------------------------------- the objects

  /** `EntryT` with the counters of its metrics object. */
  class Entry {
    const key: string
    var total: nat
    var current: int
    var totalLifetime: int
    var detachedPos: Option<nat>
    ghost var lastDetach: nat

    constructor (key: string)
      ensures Value() == Rec(key, 0, 0, 0, None, 0)
    {
      this.key := key;
      total, current, totalLifetime := 0, 0, 0;
      detachedPos, lastDetach := None, 0;
    }

    ghost function Value(): Rec
      reads this
    {
      Rec(key, total, current, totalLifetime, detachedPos, lastDetach)
    }
  }

  function OptionOf(e: Entry?): Option<Entry> {
    if e == null then None else Some(e)
  }

  class MetricsMap {
    const retain: nat
    var destroyed: bool
    var objects: map<string, Entry>
    var detachedQueue: seq<Node<Entry>>
    var nextNode: nat
    ghost var clock: nat

    /** All entries that were created for this map. */
    ghost var created: set<Entry>

    ghost function State(): MapState<Entry>
      reads this, created
    {
      MapState(retain, destroyed, map e | e in created :: e.Value(), objects, detachedQueue, nextNode, clock)
    }

    ghost predicate Valid()
      reads this, created
    {
      MapInv(State())
    }

    constructor (retain: nat)
      ensures State() == NewMap(retain) && Valid() && created == {}
    {
      this.retain := retain;
      destroyed := false;
      objects := map[];
      detachedQueue := [];
      nextNode := 0;
      clock := 1;
      created := {};
    }

    // The writes to one entry, as changes of the state.

    method AttachTo(e: Entry)
      requires e in created
      modifies e
      ensures State() == Attach(old(State()), e)
    {
      ghost var m := State();
      e.total := e.total + 1;
      e.current := e.current + 1;
      assert State().entries == Attach(m, e).entries;
    }

    method Decrement(e: Entry, lifetime: int)
      requires e in created
      modifies e, this`clock
      ensures State() == Leave(old(State()), e, lifetime)
    {
      ghost var m := State();
      e.totalLifetime := e.totalLifetime + lifetime;
      e.current := e.current - 1;
      e.lastDetach := if e.current == 0 then clock else e.lastDetach;
      clock := clock + 1;
      assert e.Value() == Leave(m, e, lifetime).entries[e];
      assert State().entries == Leave(m, e, lifetime).entries;
    }

    method SetPosition(e: Entry, pos: Option<nat>)
      requires e in created
      modifies e`detachedPos
      ensures State() == old(State()).(entries := old(State()).entries[e := old(e.Value()).(pos := pos)])
    {
      ghost var m := State();
      e.detachedPos := pos;
      assert State().entries == m.entries[e := e.Value()];
    }

    /** `getMatching`, from the outcome of the filters and the computed key. */
    method GetMatchingEntry(accepted: bool, key: Option<string>, previous: Entry?) returns (r: Entry?)
      requires Valid()
      requires previous != null ==> previous in created && previous.current > 0
      modifies this`objects, this`created, created
      ensures Valid()
      ensures var m, prev := old(State()), OptionOf(previous);
              if old(Creates(State(), accepted, key, prev)) then
                r != null && fresh(r) && created == old(created) + {r}
                && (Some(r), State()) == GetMatching(m, accepted, key, prev, r)
              else
                created == old(created) && (OptionOf(r), State()) == Lookup(m, accepted, key, prev)
    {
      ghost var m := State();
      if !accepted || key.None? {
        return null;
      }
      if destroyed {
        return null;
      }
      if previous != null && previous.key == key.value {
        PreviousIsOwned(m, previous);
        assert objects[key.value] == previous;
        return previous;
      }
      if key.value !in objects {
        r := CreateEntry(key.value);
        CreateKeeps(m, key.value, r);
      } else {
        r := objects[key.value];
        AttachKeeps(m, r);
      }
      AttachTo(r);
    }

    method CreateEntry(key: string) returns (e: Entry)
      modifies this`objects, this`created
      ensures fresh(e) && created == old(created) + {e}
      ensures State() == Insert(old(State()), key, e)
    {
      ghost var m := State();
      e := new Entry(key);
      objects := objects[key := e];
      created := created + {e};
      assert State().entries == Insert(m, key, e).entries;
    }

    /** `destroy`. */
    method DestroyMap()
      requires Valid()
      modifies this`destroyed, this`objects, this`detachedQueue
      ensures Valid() && State() == Destroy(old(State()))
    {
      DestroyKeeps(State());
      destroyed := true;
      objects := map[];
      detachedQueue := [];
    }

    /** `EntryT::detach`. */
    method DetachEntry(e: Entry, lifetime: int)
      requires Valid() && e in created && e.current > 0
      modifies this, created
      ensures Valid() && created == old(created)
      ensures State() == Detach(old(State()), e, lifetime)
    {
      ghost var m := State();
      DetachKeeps(m, e, lifetime);
      PositionIsInQueue(m, e);
      Decrement(e, lifetime);
      if e.current == 0 {
        DetachedEntry(e);
      }
    }

    /** `detached`. */
    method DetachedEntry(e: Entry)
      requires e in created && forall i :: 0 <= i < |detachedQueue| ==> detachedQueue[i].entry in created
      requires DistinctIds(detachedQueue)
      requires e.detachedPos.Some? && retain > 0 && !destroyed ==>
                 IndexOf(detachedQueue, e.detachedPos.value) < |detachedQueue|
      modifies this`objects, this`detachedQueue, this`nextNode, created
      ensures State() == Detached(old(State()), e)
    {
      ghost var m := State();
      if retain == 0 || destroyed {
        return;
      }
      if e.detachedPos.Some? {
        MoveToBack(e.detachedPos.value);
        return;
      }
      if |detachedQueue| == retain {
        CompressQueue();
      }
      assert State() == Compress(m);
      CompressedIn(m.queue, m.entries);
      MakeRoomAndAppend(e);
    }

    method MakeRoomAndAppend(e: Entry)
      requires e in created && retain > 0
      requires forall i :: 0 <= i < |detachedQueue| ==> detachedQueue[i].entry in created
      modifies this`objects, this`detachedQueue, this`nextNode, e`detachedPos
      ensures State() == Append(Evict(old(State())), e)
    {
      if |detachedQueue| == retain {
        EvictFront();
      }
      AppendToQueue(e);
    }

    /** The splice of one node to the end of the list. */
    method MoveToBack(id: nat)
      requires DistinctIds(detachedQueue) && IndexOf(detachedQueue, id) < |detachedQueue|
      modifies this`detachedQueue
      ensures detachedQueue == MovedToBack(old(detachedQueue), IndexOf(old(detachedQueue), id))
    {
      var q := detachedQueue;
      if q[|q| - 1].id != id {
        var i := 0;
        while q[i].id != id
          invariant i < |q| && forall j :: 0 <= j < i ==> q[j].id != id
          decreases |q| - i
        {
          i := i + 1;
        }
        detachedQueue := q[..i] + q[i + 1..] + [q[i]];
      } else {
        OnlyAtEnd(q, id);
      }
    }

    method AppendToQueue(e: Entry)
      requires e in created
      modifies this`detachedQueue, this`nextNode, e`detachedPos
      ensures State() == Append(old(State()), e)
    {
      detachedQueue := detachedQueue + [Node(nextNode, e)];
      SetPosition(e, Some(nextNode));
      nextNode := nextNode + 1;
    }

    /** `_detachedPos` is reset and the node erased. */
    method EraseAt(p: nat)
      requires p < |detachedQueue| && detachedQueue[p].entry in created
      modifies this`detachedQueue, created
      ensures State() == Erased(old(State()), p)
    {
      SetPosition(detachedQueue[p].entry, None);
      detachedQueue := detachedQueue[..p] + detachedQueue[p + 1..];
    }

    /** Removal of the oldest entry from the map and of its node. */
    method EvictFront()
      requires |detachedQueue| == retain > 0
      requires forall i :: 0 <= i < |detachedQueue| ==> detachedQueue[i].entry in created
      modifies this`objects, this`detachedQueue
      ensures State() == Evict(old(State()))
    {
      objects := objects - {detachedQueue[0].entry.key};
      detachedQueue := detachedQueue[1..];
    }

    /** The loop that removes the entries which are no longer detached. */
    method CompressQueue()
      requires forall i :: 0 <= i < |detachedQueue| ==> detachedQueue[i].entry in created
      modifies this`detachedQueue, created
      ensures State() == old(State()).(queue := Compressed(old(State()).queue, old(State()).entries),
                                       entries := Unqueued(old(State()).queue, old(State()).entries))
    {
      ghost var m, j := State(), 0;
      var p := 0;
      PartlyCompressedStart(m);
      while p != |detachedQueue|
        invariant j <= |m.queue| && p + |m.queue| == |detachedQueue| + j
        invariant State() == PartlyCompressed(m, j)
        decreases |m.queue| - j
      {
        p := VisitNode(p, m, j);
        j := j + 1;
      }
      PartlyCompressedEnd(m);
    }

    /** The body of the loop. */
    method VisitNode(p0: nat, ghost m: MapState<Entry>, ghost j: nat) returns (p: nat)
      requires j < |m.queue| && forall i :: 0 <= i < |m.queue| ==> m.queue[i].entry in m.entries
      requires State() == PartlyCompressed(m, j) && p0 + |m.queue| == |detachedQueue| + j
      modifies this`detachedQueue, created
      ensures State() == PartlyCompressed(m, j + 1) && p + |m.queue| == |detachedQueue| + j + 1
    {
      PartlyCompressedStep(m, j, p0);
      p := p0;
      if detachedQueue[p].entry.current != 0 {
        EraseAt(p);
      } else {
        p := p + 1;
      }
    }
  }

  /** The state of the loop when j nodes of the original queue have been visited. */
  ghost function PartlyCompressed<E>(m: MapState<E>, j: nat): MapState<E>
    requires j <= |m.queue| && forall i :: 0 <= i < |m.queue| ==> m.queue[i].entry in m.entries
  {
    m.(queue := Compressed(m.queue[..j], m.entries) + m.queue[j..], entries := Unqueued(m.queue[..j], m.entries))
  }

  ghost function Erased<E>(m: MapState<E>, p: nat): MapState<E>
    requires p < |m.queue| && m.queue[p].entry in m.entries
  {
    var e := m.queue[p].entry;
    m.(queue := m.queue[..p] + m.queue[p + 1..], entries := m.entries[e := m.entries[e].(pos := None)])
  }

  lemma PartlyCompressedStart<E>(m: MapState<E>)
    requires forall i :: 0 <= i < |m.queue| ==> m.queue[i].entry in m.entries
    ensures PartlyCompressed(m, 0) == m
  {
    assert m.queue[..0] == [] && m.queue[0..] == m.queue;
    assert Unqueued([], m.entries) == m.entries;
  }

  lemma PartlyCompressedEnd<E>(m: MapState<E>)
    requires forall i :: 0 <= i < |m.queue| ==> m.queue[i].entry in m.entries
    ensures PartlyCompressed(m, |m.queue|)
         == m.(queue := Compressed(m.queue, m.entries), entries := Unqueued(m.queue, m.entries))
  {
    assert m.queue[..|m.queue|] == m.queue;
  }

  lemma PartlyCompressedStep<E>(m: MapState<E>, j: nat, p: nat)
    requires j < |m.queue| && forall i :: 0 <= i < |m.queue| ==> m.queue[i].entry in m.entries
    requires p + |m.queue| == |PartlyCompressed(m, j).queue| + j
    ensures var s, e := PartlyCompressed(m, j), m.queue[j].entry;
            && p < |s.queue| && s.queue[p].entry == e && s.entries.Keys == m.entries.Keys
            && PartlyCompressed(m, j + 1) == (if IsDetached(s.entries[e]) then s else Erased(s, p))
  {
    CompressStep(m.queue, m.entries, j);
    Middle(Compressed(m.queue[..j], m.entries), m.queue[j..]);
  }

  lemma Middle<T>(a: seq<T>, b: seq<T>)
    requires b != []
    ensures (a + b)[|a|] == b[0]
    ensures (a + b)[..|a|] + (a + b)[|a| + 1..] == a + b[1..]
    ensures a + b == a + [b[0]] + b[1..]
  {
  }

  lemma CompressStep<E>(q: seq<Node<E>>, entries: map<E, Rec>, j: nat)
    requires j < |q| && forall i :: 0 <= i < |q| ==> q[i].entry in entries
    ensures var e, es := q[j].entry, Unqueued(q[..j], entries);
            && Compressed(q[..j + 1], entries)
            == Compressed(q[..j], entries) + (if IsDetached(entries[e]) then [q[j]] else [])
            && Unqueued(q[..j + 1], entries)
            == (if IsDetached(entries[e]) then es else es[e := es[e].(pos := None)])
            && es[e].current == entries[e].current
  {
    assert q[..j + 1][..j] == q[..j];
    OneMoreQueued(q, j);
  }

  lemma OneMoreQueued<E>(q: seq<Node<E>>, j: nat)
    requires j < |q|
    ensures forall x :: InQueue(q[..j + 1], x) <==> InQueue(q[..j], x) || x == q[j].entry
  {
    forall x ensures InQueue(q[..j + 1], x) <==> InQueue(q[..j], x) || x == q[j].entry {
      if InQueue(q[..j], x) {
        var i :| 0 <= i < j && q[..j][i].entry == x;
        assert q[..j + 1][i].entry == x;
      }
      assert q[..j + 1][j] == q[j];
    }
  }

  lemma OnlyAtEnd<E>(q: seq<Node<E>>, id: nat)
    requires q != [] && q[|q| - 1].id == id && DistinctIds(q)
    ensures MovedToBack(q, IndexOf(q, id)) == q
  {
  }
}
