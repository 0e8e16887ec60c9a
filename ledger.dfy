/** The deduplicating, insertion-ordered counting ledger of the traffic monitor.
    The source keeps an intrusive list of nodes in first-insertion order beside a hash
    map from key to node. Here the list is a sequence of nodes, and the map sends a key to
    its node's position in that sequence. This module gives the meaning of the ledger
    without the map (a linear search), says when a map indexes a sequence, and proves
    what a run of observations leaves in the ledger. */
module Ledger {
  import opened Vehicles

  datatype Option<T> = None | Some(value: T)

  /** One line of the ledger: the identity and category first seen under a key,
      and how many times that key has passed. */
  datatype VehicleNode = VehicleNode(id: string, kind: string, count: nat)

  function NodeKey(n: VehicleNode): string { KeyOf(n.id, n.kind) }

  function VehicleKey(v: Vehicle): string { KeyOf(v.id, v.kind) }

  /** The keys of the ledger, in ledger order. */
  function Keys(entries: seq<VehicleNode>): seq<string>
  {
    seq(|entries|, i requires 0 <= i < |entries| => NodeKey(entries[i]))
  }

  /** The ledger invariant: no key appears twice and every count is at least one. */
  ghost predicate Wf(entries: seq<VehicleNode>)
  {
    (forall i, j :: 0 <= i < j < |entries| ==> NodeKey(entries[i]) != NodeKey(entries[j]))
    && (forall i :: 0 <= i < |entries| ==> entries[i].count >= 1)
  }

  /** If the index holds key k, it sends k to a position whose node is under k. */
  ghost predicate IndexesKey(index: map<string, nat>, entries: seq<VehicleNode>, k: string)
  {
    k in index ==> index[k] < |entries| && NodeKey(entries[index[k]]) == k
  }

  /** The node at position i is indexed under its key, at i. */
  ghost predicate IndexesPosition(index: map<string, nat>, entries: seq<VehicleNode>, i: int)
  {
    0 <= i < |entries| ==> NodeKey(entries[i]) in index && index[NodeKey(entries[i])] == i
  }

  /** `index` holds exactly the keys of `entries`, each at its node's position. */
  ghost predicate Indexed(index: map<string, nat>, entries: seq<VehicleNode>)
  {
    (forall k :: IndexesKey(index, entries, k)) && (forall i :: IndexesPosition(index, entries, i))
  }

  /** The position of the first node with the given key, by linear search. */
  function Find(entries: seq<VehicleNode>, key: string): (r: Option<nat>)
    ensures r.Some? ==> r.value < |entries| && NodeKey(entries[r.value]) == key
    ensures r.Some? ==> forall j :: 0 <= j < r.value ==> NodeKey(entries[j]) != key
    ensures r.None? ==> forall j :: 0 <= j < |entries| ==> NodeKey(entries[j]) != key
  {
    if entries == [] then None
    else if NodeKey(entries[0]) == key then Some(0)
    else match Find(entries[1..], key)
      case None => None
      case Some(i) => Some(i + 1)
  }

  /** The ledger with one more pass counted on the node at position i. */
  function Bumped(entries: seq<VehicleNode>, i: nat): seq<VehicleNode>
    requires i < |entries|
  {
    entries[i := entries[i].(count := entries[i].count + 1)]
  }

  /** What one accepted observation does to the ledger: the node already under the
      vehicle's key counts one more pass, or a new node with count 1 goes at the end. */
  function Record(entries: seq<VehicleNode>, v: Vehicle): seq<VehicleNode>
  {
    match Find(entries, VehicleKey(v))
    case Some(i) => Bumped(entries, i)
    case None => entries + [VehicleNode(v.id, v.kind, 1)]
  }

  /** A map that indexes the ledger answers exactly as the linear search does. */
  lemma IndexedFind(index: map<string, nat>, entries: seq<VehicleNode>, key: string)
    requires Indexed(index, entries)
    ensures Find(entries, key) == if key in index then Some(index[key]) else None
  {
    assert IndexesKey(index, entries, key);
    if Find(entries, key).Some? {
      var i := Find(entries, key).value;
      assert IndexesPosition(index, entries, i);
    }
  }

  /** Raising the count of an indexed node keeps the index and the ledger invariant. */
  lemma IndexedBump(index: map<string, nat>, entries: seq<VehicleNode>, i: nat)
    requires Wf(entries) && Indexed(index, entries) && i < |entries|
    ensures Wf(Bumped(entries, i)) && Indexed(index, Bumped(entries, i))
  {
    var bumped := Bumped(entries, i);
    assert forall j :: 0 <= j < |entries| ==> NodeKey(bumped[j]) == NodeKey(entries[j]);
    forall k ensures IndexesKey(index, bumped, k) {
      assert IndexesKey(index, entries, k);
    }
    forall j ensures IndexesPosition(index, bumped, j) {
      assert IndexesPosition(index, entries, j);
    }
  }

  /** Appending a node under a key the index does not hold, and indexing it at its
      position, keeps the index and the ledger invariant. */
  lemma IndexedAppend(index: map<string, nat>, entries: seq<VehicleNode>, n: VehicleNode)
    requires Wf(entries) && Indexed(index, entries)
    requires NodeKey(n) !in index && n.count >= 1
    ensures Wf(entries + [n]) && Indexed(index[NodeKey(n) := |entries|], entries + [n])
  {
    var grown, grownIndex := entries + [n], index[NodeKey(n) := |entries|];
    assert forall j :: 0 <= j < |entries| ==> grown[j] == entries[j];
    forall j | 0 <= j < |entries|
      ensures NodeKey(entries[j]) != NodeKey(n)
    {
      assert IndexesPosition(index, entries, j);
    }
    forall k ensures IndexesKey(grownIndex, grown, k) {
      assert IndexesKey(index, entries, k);
    }
    forall j ensures IndexesPosition(grownIndex, grown, j) {
      assert IndexesPosition(index, entries, j);
    }
  }

  /** Under an index, recording an observation raises the count of the indexed node,
      or appends a new node when the index does not hold the key. */
  lemma IndexedRecord(index: map<string, nat>, entries: seq<VehicleNode>, v: Vehicle)
    requires Indexed(index, entries)
    ensures VehicleKey(v) in index ==>
              var i := index[VehicleKey(v)];
              i < |entries| && Record(entries, v) == Bumped(entries, i)
    ensures VehicleKey(v) !in index ==> Record(entries, v) == entries + [VehicleNode(v.id, v.kind, 1)]
  {
    IndexedFind(index, entries, VehicleKey(v));
  }

  /** A key is found exactly when it is one of the ledger's keys. */
  lemma FindKeys(entries: seq<VehicleNode>, key: string)
    ensures Find(entries, key).Some? <==> key in Keys(entries)
  {
    if key in Keys(entries) {
      var i :| 0 <= i < |entries| && Keys(entries)[i] == key;
      assert NodeKey(entries[i]) == key;
    }
    if Find(entries, key).Some? {
      assert Keys(entries)[Find(entries, key).value] == key;
    }
  }

  /** The search depends only on the keys, in order. */
  lemma FindSameKeys(entries: seq<VehicleNode>, other: seq<VehicleNode>, key: string)
    requires Keys(entries) == Keys(other)
    ensures Find(entries, key) == Find(other, key)
  {
    assert |entries| == |other|;
    assert forall j :: 0 <= j < |entries| ==> NodeKey(entries[j]) == Keys(entries)[j] == NodeKey(other[j]);
  }

  /** Recording an observation keeps the ledger invariant. */
  lemma RecordWf(entries: seq<VehicleNode>, v: Vehicle)
    requires Wf(entries)
    ensures Wf(Record(entries, v))
  {
  }

  /** Recording never reorders, removes or lowers a node: earlier nodes keep their
      place, their identity and category, and a count at least as high. */
  ghost predicate Extends(later: seq<VehicleNode>, earlier: seq<VehicleNode>)
  {
    |earlier| <= |later|
    && forall i :: 0 <= i < |earlier| ==>
         later[i].id == earlier[i].id && later[i].kind == earlier[i].kind && later[i].count >= earlier[i].count
  }

  lemma RecordExtends(entries: seq<VehicleNode>, v: Vehicle)
    ensures Extends(Record(entries, v), entries)
  {
  }

  /** The ledger that a run of accepted observations builds from an empty one. */
  function Replay(obs: seq<Vehicle>): seq<VehicleNode>
  {
    if obs == [] then [] else Record(Replay(obs[..|obs| - 1]), obs[|obs| - 1])
  }

  /** How many of the observations carry the given key. */
  function Occurrences(obs: seq<Vehicle>, key: string): nat
  {
    if obs == [] then 0
    else Occurrences(obs[..|obs| - 1], key) + (if VehicleKey(obs[|obs| - 1]) == key then 1 else 0)
  }

  /** The distinct keys of the observations, in the order each was first seen. */
  function FirstSeen(obs: seq<Vehicle>): seq<string>
  {
    if obs == [] then []
    else
      var seen := FirstSeen(obs[..|obs| - 1]);
      var key := VehicleKey(obs[|obs| - 1]);
      if key in seen then seen else seen + [key]
  }

  /** One observation adds its key at the end of the key order if it is new,
      and leaves the key order as it was otherwise. */
  lemma RecordKeys(entries: seq<VehicleNode>, v: Vehicle)
    ensures Keys(Record(entries, v))
            == if VehicleKey(v) in Keys(entries) then Keys(entries) else Keys(entries) + [VehicleKey(v)]
  {
    var r, key := Record(entries, v), VehicleKey(v);
    FindKeys(entries, key);
    if key in Keys(entries) {
      assert forall j :: 0 <= j < |entries| ==> NodeKey(r[j]) == NodeKey(entries[j]);
    } else {
      assert Keys(r) == Keys(entries) + [key];
    }
  }

  /** One observation raises by one the count of the node under its key (a new node
      counts from zero), and leaves every other count as it was. */
  lemma RecordCounts(entries: seq<VehicleNode>, v: Vehicle, i: nat)
    requires Wf(entries) && i < |Record(entries, v)|
    ensures Record(entries, v)[i].count
            == (if i < |entries| then entries[i].count else 0)
               + (if NodeKey(Record(entries, v)[i]) == VehicleKey(v) then 1 else 0)
  {
  }

  /** After a run of observations, the ledger is well formed and lists each distinct
      key once, in the order of first observation; a key is listed exactly when some
      observation carries it. */
  lemma {:induction false} ReplayKeys(obs: seq<Vehicle>)
    ensures Wf(Replay(obs))
    ensures Keys(Replay(obs)) == FirstSeen(obs)
    ensures forall key :: Occurrences(obs, key) > 0 <==> key in FirstSeen(obs)
  {
    if obs != [] {
      var pre, v := obs[..|obs| - 1], obs[|obs| - 1];
      ReplayKeys(pre);
      RecordWf(Replay(pre), v);
      RecordKeys(Replay(pre), v);
    }
  }

  /** After a run of observations, each node counts the observations under its key. */
  lemma {:induction false} ReplayCounts(obs: seq<Vehicle>)
    ensures forall i :: 0 <= i < |Replay(obs)| ==>
              Replay(obs)[i].count == Occurrences(obs, NodeKey(Replay(obs)[i]))
  {
    if obs != [] {
      var pre, v := obs[..|obs| - 1], obs[|obs| - 1];
      ReplayCounts(pre);
      ReplayKeys(pre);
      var e := Replay(pre);
      forall i | 0 <= i < |Replay(obs)|
        ensures Replay(obs)[i].count == Occurrences(obs, NodeKey(Replay(obs)[i]))
      {
        RecordCounts(e, v, i);
        RecordKeys(e, v);
        if i == |e| {
          // a new node: its key was never observed before
          assert Keys(Replay(obs))[i] == VehicleKey(v) && VehicleKey(v) !in FirstSeen(pre);
        } else {
          assert Keys(Replay(obs))[i] == Keys(e)[i];
        }
      }
    }
  }
}
