/** The crossroad traffic monitor: a lifecycle state machine with an error counter,
    gating a deduplicating, insertion-ordered counting ledger.
    `Step` and `Run` give the monitor's behaviour as a function of the commands it
    receives; the class `CrossroadTrafficMonitoring` updates its fields in place, as the
    source does, and each of its methods is tied to `Step` through `Snap()`. */
module Monitor {
  import opened Vehicles
  import opened Ledger

  datatype State = Init | Active | Error | Stopped

  /** What an observation did, in place of the console message the source prints. */
  datatype Observation = Rejected | Inserted | Incremented(count: nat)

  /** The calls that drive the monitor. FaultSignal is the argument-less signal. */
  datatype Command =
    | StartCommand
    | StopCommand
    | ResetCommand
    | FaultSignal
    | VehicleSignal(vehicle: Vehicle)

  /** The monitor's observable state: lifecycle state, error counter and ledger. */
  datatype Snapshot = Snapshot(state: State, errorCount: nat, entries: seq<VehicleNode>)

  /** The transition table: each command from each state. */
  function Step(m: Snapshot, c: Command): Snapshot
  {
    match c
    case StartCommand => if m.state == Init then m.(state := Active) else m
    case StopCommand => if m.state == Active then m.(state := Stopped) else m
    case ResetCommand => Snapshot(Active, 0, [])
    case FaultSignal =>
      if m.state == Active || m.state == Init then m.(state := Error)
      else if m.state == Error then m.(errorCount := m.errorCount + 1)
      else m
    case VehicleSignal(v) =>
      if m.state == Active then m.(entries := Record(m.entries, v)) else m
  }

  /** The result an observation reports. */
  function Outcome(m: Snapshot, v: Vehicle): Observation
  {
    if m.state != Active then Rejected
    else match Find(m.entries, VehicleKey(v))
      case Some(i) => Incremented(m.entries[i].count + 1)
      case None => Inserted
  }

  /** The monitor after a sequence of commands, applied first to last. */
  function Run(m: Snapshot, cs: seq<Command>): Snapshot
  {
    if cs == [] then m else Step(Run(m, cs[..|cs| - 1]), cs[|cs| - 1])
  }

  /** How many argument-less fault signals the commands hold. */
  function Faults(cs: seq<Command>): nat
  {
    if cs == [] then 0 else Faults(cs[..|cs| - 1]) + (if cs[|cs| - 1].FaultSignal? then 1 else 0)
  }

  predicate NoReset(cs: seq<Command>)
  {
    forall i :: 0 <= i < |cs| ==> !cs[i].ResetCommand?
  }

  /** The observations as vehicle-signal commands. */
  function Signals(obs: seq<Vehicle>): seq<Command>
  {
    seq(|obs|, i requires 0 <= i < |obs| => VehicleSignal(obs[i]))
  }

  /** Every command keeps the ledger invariant. */
  lemma {:induction false} RunWf(m: Snapshot, cs: seq<Command>)
    requires Wf(m.entries)
    ensures Wf(Run(m, cs).entries)
  {
    if cs != [] {
      var last := cs[|cs| - 1];
      RunWf(m, cs[..|cs| - 1]);
      if last.VehicleSignal? {
        RecordWf(Run(m, cs[..|cs| - 1]).entries, last.vehicle);
      }
    }
  }

  /** Stopped is left only by a reset: start, stop, faults and observations change nothing. */
  lemma {:induction false} StoppedAbsorbs(m: Snapshot, cs: seq<Command>)
    requires m.state == Stopped && NoReset(cs)
    ensures Run(m, cs) == m
  {
    if cs != [] {
      StoppedAbsorbs(m, cs[..|cs| - 1]);
    }
  }

  /** Error is left only by a reset: there each fault adds one to the error counter,
      and nothing else changes state, counter or ledger. */
  lemma {:induction false} ErrorSticky(m: Snapshot, cs: seq<Command>)
    requires m.state == Error && NoReset(cs)
    ensures Run(m, cs) == m.(errorCount := m.errorCount + Faults(cs))
  {
    if cs != [] {
      ErrorSticky(m, cs[..|cs| - 1]);
    }
  }

  /** Between resets the error counter never decreases, and the ledger only grows:
      nodes keep their place, identity and category, and counts never decrease. */
  lemma {:induction false} MonotoneBetweenResets(m: Snapshot, cs: seq<Command>)
    requires NoReset(cs)
    ensures Run(m, cs).errorCount >= m.errorCount
    ensures Extends(Run(m, cs).entries, m.entries)
  {
    if cs != [] {
      var pre := cs[..|cs| - 1];
      MonotoneBetweenResets(m, pre);
      var last := cs[|cs| - 1];
      if last.VehicleSignal? {
        RecordExtends(Run(m, pre).entries, last.vehicle);
      }
    }
  }

  /** A reset followed by observations leaves the monitor active, with no errors, and
      with the ledger those observations build from empty. */
  lemma {:induction false} ReplayAfterReset(m: Snapshot, obs: seq<Vehicle>)
    ensures Run(m, [ResetCommand] + Signals(obs)) == Snapshot(Active, 0, Replay(obs))
  {
    var cs := [ResetCommand] + Signals(obs);
    if obs == [] {
      assert cs[..|cs| - 1] == [];
    } else {
      var pre := obs[..|obs| - 1];
      assert cs[..|cs| - 1] == [ResetCommand] + Signals(pre);
      ReplayAfterReset(m, pre);
    }
  }

  /** The statistics after a reset and a run of observations: each distinct key once,
      in first-observation order, with the number of times it was observed. */
  lemma StatisticsAfterReset(m: Snapshot, obs: seq<Vehicle>)
    ensures var r := Run(m, [ResetCommand] + Signals(obs));
      r.state == Active && r.errorCount == 0 && Wf(r.entries)
      && Keys(r.entries) == FirstSeen(obs)
      && forall i :: 0 <= i < |r.entries| ==> r.entries[i].count == Occurrences(obs, NodeKey(r.entries[i]))
  {
    ReplayAfterReset(m, obs);
    ReplayKeys(obs);
    ReplayCounts(obs);
  }

  /** The same vehicle observed twice while active yields one new node with count 2:
      the first observation inserts it, the second increments it. */
  lemma RepeatedObservation(m: Snapshot, v: Vehicle)
    requires m.state == Active && Find(m.entries, VehicleKey(v)).None?
    ensures Outcome(m, v) == Inserted
    ensures Outcome(Step(m, VehicleSignal(v)), v) == Incremented(2)
    ensures Run(m, [VehicleSignal(v), VehicleSignal(v)])
            == m.(entries := m.entries + [VehicleNode(v.id, v.kind, 2)])
  {
    var c := VehicleSignal(v);
    var once := m.entries + [VehicleNode(v.id, v.kind, 1)];
    var twice := m.entries + [VehicleNode(v.id, v.kind, 2)];
    assert Step(m, c) == m.(entries := once);
    assert Find(once, VehicleKey(v)) == Some(|m.entries|) by {
      assert NodeKey(once[|m.entries|]) == VehicleKey(v);
    }
    assert Record(once, v) == twice;
    assert [c, c][..1] == [c];
    assert [c][..0] == [];
    assert Run(m, [c]) == Step(m, c);
  }

  /** The tag an accepted observation reports agrees with what it did to the ledger:
      Inserted exactly when the ledger grew by one node, which is now found under the
      vehicle's key with count 1; Incremented exactly when the ledger kept its length, and
      its count is the one now found under the key. */
  lemma OutcomeReportsRecord(m: Snapshot, v: Vehicle)
    requires m.state == Active
    ensures var e := Step(m, VehicleSignal(v)).entries;
      (Outcome(m, v) == Inserted <==> |e| == |m.entries| + 1)
      && (Outcome(m, v).Incremented? <==> |e| == |m.entries|)
      && Find(e, VehicleKey(v)).Some?
      && e[Find(e, VehicleKey(v)).value].count == (if Outcome(m, v).Incremented? then Outcome(m, v).count else 1)
  {
    var e, key := Step(m, VehicleSignal(v)).entries, VehicleKey(v);
    match Find(m.entries, key)
    case Some(i) =>
      assert e == Bumped(m.entries, i);
      assert Keys(e) == Keys(m.entries);
      FindSameKeys(e, m.entries, key);
    case None =>
      assert NodeKey(e[|m.entries|]) == key;
  }

  /** The monitor of the source. `entries` is the ordered node list and `index` maps
      a key to the position of its node, where the source stores a node pointer. */
  class CrossroadTrafficMonitoring {
    var state: State
    const period: int
    var errorCount: nat
    var entries: seq<VehicleNode>
    var index: map<string, nat>

    ghost predicate Valid()
      reads this
    {
      Wf(entries) && Indexed(index, entries)
    }

    function Snap(): Snapshot
      reads this
    {
      Snapshot(state, errorCount, entries)
    }

    constructor (period: int)
      ensures Valid()
      ensures state == Init && errorCount == 0 && entries == [] && index == map[]
      ensures this.period == period
    {
      state := Init;
      this.period := period;
      errorCount := 0;
      entries := [];
      index := map[];
    }

    /** Init becomes Active; every other state is left as it is. */
    method Start()
      requires Valid()
      modifies this
      ensures Valid()
      ensures state == (if old(state) == Init then Active else old(state))
      ensures errorCount == old(errorCount) && entries == old(entries) && index == old(index)
      ensures Snap() == Step(old(Snap()), StartCommand)
    {
      if state == Init {
        state := Active;
      }
    }

    /** Active becomes Stopped; every other state is left as it is. */
    method Stop()
      requires Valid()
      modifies this
      ensures Valid()
      ensures state == (if old(state) == Active then Stopped else old(state))
      ensures errorCount == old(errorCount) && entries == old(entries) && index == old(index)
      ensures Snap() == Step(old(Snap()), StopCommand)
    {
      if state == Active {
        state := Stopped;
      }
    }

    /** From any state: Active, no errors, and an empty ledger and index. */
    method Reset()
      modifies this
      ensures Valid()
      ensures state == Active && errorCount == 0 && entries == [] && index == map[]
      ensures Snap() == Step(old(Snap()), ResetCommand)
    {
      state := Active;
      errorCount := 0;
      entries := [];
      index := map[];
    }

    /** The argument-less fault signal. Init and Active become Error with the counter
        unchanged; in Error the counter goes up by one; in Stopped nothing happens.
        The ledger is never touched. */
    method OnSignal()
      requires Valid()
      modifies this
      ensures Valid()
      ensures old(state) == Init || old(state) == Active ==> state == Error && errorCount == old(errorCount)
      ensures old(state) == Error ==> state == Error && errorCount == old(errorCount) + 1
      ensures old(state) == Stopped ==> state == Stopped && errorCount == old(errorCount)
      ensures entries == old(entries) && index == old(index)
      ensures Snap() == Step(old(Snap()), FaultSignal)
    {
      if state == Active || state == Init {
        state := Error;
      } else if state == Error {
        errorCount := errorCount + 1;
      }
    }

    /** A vehicle observation. Outside Active it is rejected and nothing changes.
        In Active, a known key has its node's count raised by one, and a new key gets
        a node with count 1 at the end of the ledger, indexed at that position. */
    method OnVehicleSignal(vehicle: Vehicle) returns (o: Observation)
      requires Valid()
      modifies this
      ensures Valid()
      ensures state == old(state) && errorCount == old(errorCount)
      ensures old(state) != Active ==> o == Rejected && entries == old(entries) && index == old(index)
      ensures old(state) == Active && VehicleKey(vehicle) in old(index) ==>
                var i := old(index)[VehicleKey(vehicle)];
                i < |old(entries)|
                && o == Incremented(old(entries)[i].count + 1)
                && entries == Bumped(old(entries), i)
                && index == old(index)
      ensures old(state) == Active && VehicleKey(vehicle) !in old(index) ==>
                o == Inserted
                && entries == old(entries) + [VehicleNode(vehicle.id, vehicle.kind, 1)]
                && index == old(index)[VehicleKey(vehicle) := |old(entries)|]
      ensures Snap() == Step(old(Snap()), VehicleSignal(vehicle))
      ensures o == Outcome(old(Snap()), vehicle)
    {
      if state == Active {
        var key := KeyOf(vehicle.id, vehicle.kind);
        IndexedFind(index, entries, key);
        IndexedRecord(index, entries, vehicle);
        if key in index {
          var i := index[key];
          IndexedBump(index, entries, i);
          o := Incremented(entries[i].count + 1);
          entries := Bumped(entries, i);
        } else {
          var node := VehicleNode(vehicle.id, vehicle.kind, 1);
          IndexedAppend(index, entries, node);
          index := index[key := |entries|];
          entries := entries + [node];
          o := Inserted;
        }
      } else {
        o := Rejected;
      }
    }

    method GetErrorCount() returns (n: nat)
      ensures n == errorCount
    {
      n := errorCount;
    }

    /** The ledger, walked in first-insertion order. */
    method GetStatistics() returns (stats: seq<VehicleNode>)
      requires Valid()
      ensures stats == entries
      ensures Wf(stats)
    {
      stats := [];
      var i := 0;
      while i < |entries|
        invariant 0 <= i <= |entries|
        invariant stats == entries[..i]
      {
        stats := stats + [entries[i]];
        i := i + 1;
      }
    }
  }

  /** The first half of the source's demonstration run: a new monitor is started, three
      vehicles with distinct keys are observed, then a fault arrives. */
  method DemoFirstHalf(a: Vehicle, b: Vehicle, c: Vehicle)
    returns (monitor: CrossroadTrafficMonitoring, outcomes: seq<Observation>, stats: seq<VehicleNode>, errors: nat)
    requires VehicleKey(a) != VehicleKey(b) && VehicleKey(a) != VehicleKey(c) && VehicleKey(b) != VehicleKey(c)
    ensures fresh(monitor) && monitor.Valid() && monitor.state == Error
    ensures outcomes == [Inserted, Inserted, Inserted]
    ensures stats == [VehicleNode(a.id, a.kind, 1), VehicleNode(b.id, b.kind, 1), VehicleNode(c.id, c.kind, 1)]
    ensures errors == 0
  {
    var na, nb, nc := VehicleNode(a.id, a.kind, 1), VehicleNode(b.id, b.kind, 1), VehicleNode(c.id, c.kind, 1);
    monitor := new CrossroadTrafficMonitoring(10);
    monitor.Start();
    var oa := monitor.OnVehicleSignal(a);
    assert monitor.entries == [na];
    var ob := monitor.OnVehicleSignal(b);
    assert monitor.entries == [na, nb];
    var oc := monitor.OnVehicleSignal(c);
    monitor.OnSignal();
    stats := monitor.GetStatistics();
    errors := monitor.GetErrorCount();
    outcomes := [oa, ob, oc];
  }

  /** The source's demonstration run, for any three vehicles with distinct keys:
      all three are inserted while active, a fault moves the monitor to Error without
      counting, the statistics list the three in observation order; after a reset the
      second and third are inserted afresh and the counter is back to zero. */
  method DemoRun(a: Vehicle, b: Vehicle, c: Vehicle)
    returns (outcomes: seq<Observation>, firstStats: seq<VehicleNode>, firstErrors: nat,
             secondStats: seq<VehicleNode>, secondErrors: nat)
    requires VehicleKey(a) != VehicleKey(b) && VehicleKey(a) != VehicleKey(c) && VehicleKey(b) != VehicleKey(c)
    ensures outcomes == [Inserted, Inserted, Inserted, Inserted, Inserted]
    ensures firstStats == [VehicleNode(a.id, a.kind, 1), VehicleNode(b.id, b.kind, 1), VehicleNode(c.id, c.kind, 1)]
    ensures firstErrors == 0
    ensures secondStats == [VehicleNode(b.id, b.kind, 1), VehicleNode(c.id, c.kind, 1)]
    ensures secondErrors == 0
  {
    var monitor, firstOutcomes;
    monitor, firstOutcomes, firstStats, firstErrors := DemoFirstHalf(a, b, c);
    monitor.Reset();
    var nb := VehicleNode(b.id, b.kind, 1);
    var ob := monitor.OnVehicleSignal(b);
    assert monitor.entries == [nb];
    var oc := monitor.OnVehicleSignal(c);
    secondStats := monitor.GetStatistics();
    secondErrors := monitor.GetErrorCount();
    outcomes := firstOutcomes + [ob, oc];
  }

  /** The demonstration run with the source's own vehicles. */
  method MainScenario()
    returns (outcomes: seq<Observation>, firstStats: seq<VehicleNode>, firstErrors: nat,
             secondStats: seq<VehicleNode>, secondErrors: nat)
    ensures outcomes == [Inserted, Inserted, Inserted, Inserted, Inserted]
    ensures firstStats == [VehicleNode("ABC-011", "Bicycle", 1), VehicleNode("ABC-012", "Car", 1),
                           VehicleNode("ABC-014", "Scooter", 1)]
    ensures firstErrors == 0
    ensures secondStats == [VehicleNode("ABC-012", "Car", 1), VehicleNode("ABC-014", "Scooter", 1)]
    ensures secondErrors == 0
  {
    var a, b, c := Bicycle("ABC-011"), Car("ABC-012"), Scooter("ABC-014");
    var ka, kb, kc := VehicleKey(a), VehicleKey(b), VehicleKey(c);
    // the three keys differ in the last digit of the identity
    assert ka != kb by { assert ka[6] != kb[6]; }
    assert ka != kc by { assert ka[6] != kc[6]; }
    assert kb != kc by { assert kb[6] != kc[6]; }
    outcomes, firstStats, firstErrors, secondStats, secondErrors := DemoRun(a, b, c);
  }
}
