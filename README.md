# Crossroad traffic monitoring, modelled in Dafny

This project models `CrossroadTrafficMonitoring`, the monitor of a crossroad's traffic. The monitor has two parts that share one object:

- **A lifecycle state machine** with the states `Init`, `Active`, `Error` and `Stopped`. `Start`, `Stop` and `Reset` change the state. A fault signal without arguments (`OnSignal()`) moves the monitor into `Error`, and counts repeated faults in `errorCount`.
- **A deduplicating counting ledger.** It is fed by vehicle observations, which are accepted only while the monitor is `Active`. Each distinct key `id + "-" + type` gets one node `{id, type, count}`. Nodes are kept in first-insertion order, and a hash map from key to node sits beside them. A repeated key raises its node's count; a new key appends a node with count 1. `GetStatistics` walks the nodes in order.

The project has three modules:

- `Vehicles` (vehicles.dfy). A vehicle is an identity and a category name. The source's classes `Bicycle`, `Car` and `Scooter` only return a constant name, so they become three functions that fill in that name. This module also defines the ledger key and proves when the key determines the vehicle.
- `Ledger` (ledger.dfy). The node list becomes a `seq<VehicleNode>`. The map from key to node pointer becomes a `map<string, nat>` from key to position.
  - `Find`, a linear search, and `Record` give the ledger's meaning without the map.
  - `Indexed` says when a map indexes the sequence, and `IndexedFind` proves that such a map answers exactly as `Find` does.
  - `Replay`, `Occurrences` and `FirstSeen` describe a whole run of observations. The lemmas about them show that the ledger lists each distinct key once, in first-observation order, with the number of times it was observed.
- `Monitor` (monitor.dfy). `Step` is the transition table for each command and `Run` applies a sequence of commands. The lemmas over `Run` cover the invariant, `Stopped` and `Error` being left only by `Reset`, monotonicity between resets, and the statistics after a reset. The class `CrossroadTrafficMonitoring` updates its fields in place, as the source does. Each method states its new state outright and is tied to `Step` through `Snap()`. `DemoRun` and `MainScenario` replay the call sequence of the source's `main`.

## Model

| member | source | states |
|---|---|---|
| `Vehicles.KeyInjective` | traffic_monitoring.cpp:98 | When neither category name contains a hyphen, two keys `id + "-" + type` are equal exactly when both identities and both categories are equal (both directions). |
| `Vehicles.KeyCollision` | traffic_monitoring.cpp:98 | Without that condition, two different vehicles, `("A-B", "C")` and `("A", "B-C")`, share one key. |
| `Vehicles.CategoriesHaveNoHyphen` | traffic_monitoring.cpp:28-44 | The three category names of the source contain no hyphen, so keys of the source's vehicles determine identity and category. |
| `Ledger.Find` | traffic_monitoring.cpp:101-102 | The reference lookup: `Some(i)` is the first position whose node is under the key; `None` means no node is under the key. |
| `Ledger.IndexedFind` | traffic_monitoring.cpp:101-102 | A map that indexes the ledger answers as the reference lookup does: the key is present exactly when `Find` finds it, at the position `Find` returns. |
| `Ledger.IndexedBump` | traffic_monitoring.cpp:101-104 | Raising the count of the node reached through the map keeps the ledger invariant and the index. |
| `Ledger.IndexedAppend` | traffic_monitoring.cpp:112-119 | Appending a node under a key the map lacks, and mapping that key to the new position, keeps the ledger invariant and the index. |
| `Ledger.IndexedRecord` | traffic_monitoring.cpp:101-122 | Under an index, an accepted observation raises the count of the node at the indexed position, or appends `{id, type, 1}` when the key is not indexed. |
| `Ledger.RecordWf` | traffic_monitoring.cpp:98-122 | An accepted observation keeps the ledger invariant: no key twice and every count at least 1. |
| `Ledger.RecordExtends` | traffic_monitoring.cpp:101-122 | An accepted observation never removes or reorders a node, never changes its identity or category, and never lowers its count. |
| `Ledger.RecordKeys` | traffic_monitoring.cpp:101-122 | The key order after an observation: a new key goes at the end, and a known key leaves the order unchanged. |
| `Ledger.RecordCounts` | traffic_monitoring.cpp:101-122 | After an observation, the node under the observed key counts one more pass (a new node counts 1), and every other count is unchanged. |
| `Ledger.ReplayKeys` | traffic_monitoring.cpp:129-134 | After any run of observations, the statistics are well formed and list each distinct key once, in first-observation order; a key is listed exactly when some observation carries it. |
| `Ledger.ReplayCounts` | traffic_monitoring.cpp:101-122 | After any run of observations, each node's count is the number of observations under its key. |
| `Monitor.RunWf` | traffic_monitoring.cpp:62-123 | Every sequence of lifecycle calls, faults and observations keeps the ledger invariant. |
| `Monitor.StoppedAbsorbs` | traffic_monitoring.cpp:62-95 | From `Stopped`, any commands without a reset change nothing: state, counter and ledger stay as they were. |
| `Monitor.ErrorSticky` | traffic_monitoring.cpp:81-95 | From `Error`, any commands without a reset leave the state `Error` and the ledger unchanged, and add to the counter exactly the number of faults. |
| `Monitor.MonotoneBetweenResets` | traffic_monitoring.cpp:62-123 | Between resets, the error counter never decreases and the ledger only grows: nodes keep their place, identity and category, and counts never decrease. |
| `Monitor.ReplayAfterReset` | traffic_monitoring.cpp:74-123 | A reset followed by observations leaves the monitor `Active`, with counter 0, holding the ledger those observations build from empty. |
| `Monitor.StatisticsAfterReset` | traffic_monitoring.cpp:74-134 | After a reset and any observations, the statistics list each distinct key once, in first-observation order, with its number of observations. |
| `Monitor.RepeatedObservation` | traffic_monitoring.cpp:101-122 | The same new vehicle observed twice while `Active` is first reported `Inserted` and then `Incremented(2)`, and leaves one new node with count 2 at the end. |
| `Monitor.OutcomeReportsRecord` | traffic_monitoring.cpp:101-110 | The reported tag agrees with the ledger. `Inserted` exactly when the ledger grew by one node, which now holds count 1 under the key. `Incremented` exactly when its length is unchanged, carrying the count now under the key. |
| `Monitor.CrossroadTrafficMonitoring.constructor` | traffic_monitoring.cpp:59-60 | A new monitor is in `Init` with counter 0 and an empty ledger and index, and keeps the given period. |
| `Monitor.CrossroadTrafficMonitoring.Start` | traffic_monitoring.cpp:62-66 | `Init` becomes `Active`; every other state is kept; counter, ledger and index are unchanged. |
| `Monitor.CrossroadTrafficMonitoring.Stop` | traffic_monitoring.cpp:68-72 | `Active` becomes `Stopped`; every other state is kept; counter, ledger and index are unchanged. |
| `Monitor.CrossroadTrafficMonitoring.Reset` | traffic_monitoring.cpp:74-79 | From any state: `Active`, counter 0, an empty ledger and an empty index. |
| `Monitor.CrossroadTrafficMonitoring.OnSignal` | traffic_monitoring.cpp:81-88 | `Init` and `Active` become `Error` with the counter unchanged. `Error` stays `Error` with the counter up by exactly 1. `Stopped` is unchanged. The ledger and index are never touched. |
| `Monitor.CrossroadTrafficMonitoring.OnVehicleSignal` | traffic_monitoring.cpp:90-123 | Outside `Active`: reports `Rejected` and changes nothing. Known key: that node's count rises by 1 and nothing else changes. New key: `{id, type, 1}` is appended and indexed at its position. The invariant and index are kept. |
| `Monitor.CrossroadTrafficMonitoring.GetErrorCount` | traffic_monitoring.cpp:125-127 | Returns the current error counter. |
| `Monitor.CrossroadTrafficMonitoring.GetStatistics` | traffic_monitoring.cpp:129-134 | The loop yields the ledger's nodes exactly, in first-insertion order, with no key twice. |
| `Monitor.DemoRun` | traffic_monitoring.cpp:149-169 | `main`'s call sequence for any three vehicles with distinct keys. Five `Inserted` results. Statistics of the three in order with count 1, and counter 0, after the fault. The two fresh nodes, and counter 0, after the reset. |
| `Monitor.MainScenario` | traffic_monitoring.cpp:148-177 | The same run with `main`'s own vehicles `ABC-011` (Bicycle), `ABC-012` (Car) and `ABC-014` (Scooter), with the concrete statistics and error counts. |

## Left out

- Console output is not modelled: the messages at traffic_monitoring.cpp:86, 93, 105-110 and 130-132. `OnVehicleSignal` instead returns an `Observation` tag (`Rejected`, `Inserted` or `Incremented(count)`), and `GetStatistics` returns the nodes instead of printing them.
- Manual memory management is not modelled: `clear_and_dispose`, the `unique_ptr` hand-over and the destructor (traffic_monitoring.cpp:77, 113-121, 136-138). Dafny values and objects need no disposal.
- The virtual `Vehicle` hierarchy (traffic_monitoring.cpp:17-44) is replaced by a category field. Its only behaviour is returning a constant name.
- Dafny has no method overloading. The vehicle overload `OnSignal(const Vehicle&)` is therefore named `OnVehicleSignal`.
- `period` is kept as a constant field, as in the source, where nothing reads it.
- Monitor.CrossroadTrafficMonitoring.OnSignal: `errorCount` is a C++ `int`. It is modelled as an unbounded `nat`, so wrap-around after 2^31 - 1 repeated faults is not modelled.
- Monitor.CrossroadTrafficMonitoring.OnVehicleSignal: a node's `count` is a C++ `int`. It is modelled as an unbounded `nat`, so overflow after 2^31 - 1 passes of one key is not modelled.
- The hash map's constant-time lookup is not modelled, only its contents: the index is a Dafny `map` kept equal in meaning to a linear search.
- Concurrency is not modelled; the source is single-threaded.
