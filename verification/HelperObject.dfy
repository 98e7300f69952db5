/** The helper as an object with fields (src/bin/viper-helper.rs). Its handlers run as statements, one at a time;
    each is proved to compute the step of HelperRuns that the theorems over whole runs are about, and so keeps what
    those steps keep. The gauges it reports are bounded over every run. */
module HelperObject {
  import opened Collections
  import opened Outcomes
  import opened Admission
  import opened HelperModel
  import opened HelperRuns

  const U64: nat := 0x1_0000_0000_0000_0000

  function AddU64(a: nat, b: nat): nat {
    (a + b) % U64
  }

  datatype Metrics = Metrics(activeBoxes: nat, queuedBoxes: nat, cpuQuotaPercent: nat, memoryLimitBytes: nat)

  /** Statuses answered without asking `systemctl`. */
  datatype StatusReply = Known(status: Status) | AskSystemd(unit: string)

  // ---- sums over Boxes ----

  ghost function Total(weights: map<BoxId, nat>): nat
    decreases weights.Keys
  {
    if weights == map[] then 0
    else
      var id :| id in weights;
      weights[id] + Total(weights - {id})
  }

  lemma {:induction false} TotalSplit(weights: map<BoxId, nat>, id: BoxId)
    requires id in weights
    ensures Total(weights) == weights[id] + Total(weights - {id})
    decreases weights.Keys
  {
    var first :| first in weights && Total(weights) == weights[first] + Total(weights - {first});
    if first != id {
      TotalSplit(weights - {first}, id);
      TotalSplit(weights - {id}, first);
      assert weights - {first} - {id} == weights - {id} - {first};
    }
  }

  lemma {:induction false} TotalBound(weights: map<BoxId, nat>, bound: nat)
    requires forall id :: id in weights ==> weights[id] <= bound
    ensures Total(weights) <= bound * |weights|
    decreases weights.Keys
  {
    if weights != map[] {
      var id :| id in weights;
      TotalSplit(weights, id);
      TotalBound(weights - {id}, bound);
      assert (weights - {id}).Keys == weights.Keys - {id};
      assert |weights - {id}| == |weights| - 1;
      Distribute(bound, |weights| - 1);
    }
  }

  lemma Distribute(b: nat, n: nat)
    ensures b * (n + 1) == b * n + b
  {
  }

  ghost function CpuShares(states: States, ids: set<BoxId>): map<BoxId, nat> {
    map id | id in states && id in ids && states[id].status == STARTING :: states[id].cpu
  }

  ghost function MemoryShares(states: States, ids: set<BoxId>): map<BoxId, nat> {
    map id | id in states && id in ids && states[id].status == STARTING :: states[id].memory
  }

  /** Taking one Box out of the sums. */
  lemma OneShareLess(states: States, ids: set<BoxId>, id: BoxId)
    requires id in states && id in ids
    ensures var starting := states[id].status == STARTING;
            && Total(CpuShares(states, ids))
               == (if starting then states[id].cpu else 0) + Total(CpuShares(states, ids - {id}))
            && Total(MemoryShares(states, ids))
               == (if starting then states[id].memory else 0) + Total(MemoryShares(states, ids - {id}))
  {
    var cpu, memory := CpuShares(states, ids), MemoryShares(states, ids);
    if states[id].status == STARTING {
      TotalSplit(cpu, id);
      TotalSplit(memory, id);
      assert cpu - {id} == CpuShares(states, ids - {id});
      assert memory - {id} == MemoryShares(states, ids - {id});
    } else {
      assert cpu == CpuShares(states, ids - {id});
      assert memory == MemoryShares(states, ids - {id});
    }
  }

  /** The per-spawn bounds and the capacity invariant bound both gauges. */
  lemma GaugesBounded(h: Helper)
    requires Linked(h)
    ensures Total(CpuShares(h.states, h.states.Keys)) <= 100 * h.control.limit
    ensures Total(MemoryShares(h.states, h.states.Keys)) <= MAX_MEMORY * h.control.limit
  {
    var cpu, memory := CpuShares(h.states, h.states.Keys), MemoryShares(h.states, h.states.Keys);
    assert cpu.Keys == Starting(h) && memory.Keys == Starting(h);
    StartingHoldSlots(h);
    SubsetSize(Starting(h), h.control.active);
    forall id | id in h.states ensures h.states[id].cpu <= 100 && h.states[id].memory <= MAX_MEMORY {
      assert Entry(h, id);
    }
    TotalBound(cpu, 100);
    TotalBound(memory, MAX_MEMORY);
  }

  /** Over any run: each gauge is the exact sum over STARTING Boxes and fits a u64 below 2^14 slots. */
  lemma GaugesNeverOverflow(limit: nat, gateways: map<string, string>, events: seq<Event>)
    requires 0 < limit < 0x4000
    ensures var h := Run(Booted(limit, gateways), events);
            && Total(CpuShares(h.states, h.states.Keys)) < U64
            && Total(MemoryShares(h.states, h.states.Keys)) < U64
  {
    EveryRunKeeps(limit, gateways, events);
    LimitIsFixed(Booted(limit, gateways), events);
    GaugesBounded(Run(Booted(limit, gateways), events));
  }

  /** The u64 sums so far, with the records of `rest` still to come. */
  ghost predicate GaugesSoFar(states: States, rest: set<BoxId>, cpu: nat, memory: nat) {
    && cpu < U64 && memory < U64
    && Reaches(cpu, Total(CpuShares(states, rest)), Total(CpuShares(states, states.Keys)))
    && Reaches(memory, Total(MemoryShares(states, rest)), Total(MemoryShares(states, states.Keys)))
  }

  lemma GaugeTurn(states: States, rest: set<BoxId>, id: BoxId, cpu: nat, memory: nat)
    requires GaugesSoFar(states, rest, cpu, memory) && id in rest && id in states
    ensures var starting := states[id].status == STARTING;
            GaugesSoFar(states, rest - {id},
                        if starting then AddU64(cpu, states[id].cpu) else cpu,
                        if starting then AddU64(memory, states[id].memory) else memory)
  {
    OneShareLess(states, rest, id);
    if states[id].status == STARTING {
      var others := rest - {id};
      WrapOnce(cpu, states[id].cpu, Total(CpuShares(states, others)), Total(CpuShares(states, states.Keys)));
      WrapOnce(memory, states[id].memory,
               Total(MemoryShares(states, others)), Total(MemoryShares(states, states.Keys)));
    }
  }

  /** `sofar`, with `rest` still to be added in u64 arithmetic, ends at `total` modulo 2^64. */
  ghost predicate Reaches(sofar: nat, rest: nat, total: nat) {
    (sofar + rest) % U64 == total % U64
  }

  lemma WrapOnce(a: nat, b: nat, rest: nat, total: nat)
    requires Reaches(a, b + rest, total)
    ensures Reaches(AddU64(a, b), rest, total)
  {
  }

  lemma GaugesDone(h: Helper, cpu: nat, memory: nat)
    requires Linked(h) && GaugesSoFar(h.states, {}, cpu, memory)
    ensures cpu == Total(CpuShares(h.states, h.states.Keys)) % 0x1_0000_0000_0000_0000
    ensures memory == Total(MemoryShares(h.states, h.states.Keys)) % 0x1_0000_0000_0000_0000
    ensures h.control.limit < 0x4000 ==>
              && cpu == Total(CpuShares(h.states, h.states.Keys)) <= 100 * h.control.limit
              && memory == Total(MemoryShares(h.states, h.states.Keys)) <= MAX_MEMORY * h.control.limit
  {
    assert CpuShares(h.states, {}) == map[] && MemoryShares(h.states, {}) == map[];
    GaugesBounded(h);
  }

  // ---- the drain loop ----

  /** After `sofar`, draining `h` to the end gives `all`. */
  ghost predicate Draining(h: Helper, sofar: seq<DrainEntry>, hosts: BoxId -> Host, all: (Helper, seq<DrainEntry>)) {
    all == (DrainQueue(h, hosts).0, sofar + DrainQueue(h, hosts).1)
  }

  lemma DrainStarts(h: Helper, hosts: BoxId -> Host)
    ensures Draining(h, [], hosts, DrainQueue(h, hosts))
  {
    var (h1, entries) := DrainQueue(h, hosts);
    assert [] + entries == entries;
    assert DrainQueue(h, hosts) == (h1, [] + entries);
  }

  lemma DrainUnfolds(h: Helper, popped: Helper, id: BoxId, hosts: BoxId -> Host)
    requires Popped(h, popped, id)
    ensures var (h1, first) := Launch(popped, id, hosts(id));
            DrainQueue(h, hosts) == (DrainQueue(h1, hosts).0, first + DrainQueue(h1, hosts).1)
  {
  }

  lemma DrainTurn(h: Helper, popped: Helper, id: BoxId, sofar: seq<DrainEntry>, hosts: BoxId -> Host,
                  all: (Helper, seq<DrainEntry>))
    requires Draining(h, sofar, hosts, all) && Popped(h, popped, id)
    ensures Draining(Launch(popped, id, hosts(id)).0, sofar + Launch(popped, id, hosts(id)).1, hosts, all)
  {
    var (h1, first) := Launch(popped, id, hosts(id));
    DrainUnfolds(h, popped, id, hosts);
    assert sofar + (first + DrainQueue(h1, hosts).1) == sofar + first + DrainQueue(h1, hosts).1;
  }

  lemma DrainEnds(h: Helper, sofar: seq<DrainEntry>, hosts: BoxId -> Host, all: (Helper, seq<DrainEntry>))
    requires Draining(h, sofar, hosts, all) && h.control.StartNext().1.None?
    ensures all == (h, sofar)
  {
    assert sofar + [] == sofar;
  }

  class ViperHelper {
    const gateways: map<string, string>
    const controller: AdmissionController
    var pending: map<BoxId, SpawnParams>
    var states: States
    var watchdogs: multiset<BoxId>

    function Value(): Helper
      reads this, controller
    {
      Helper(gateways, controller.Value(), pending, states, watchdogs)
    }

    ghost predicate Valid()
      reads this, controller
    {
      Linked(Value()) && Conserving(Value())
    }

    constructor (limit: nat, gateways: map<string, string>)
      requires 0 < limit
      ensures Valid() && Value() == Booted(limit, gateways) && fresh(controller)
    {
      this.gateways := gateways;
      controller := new AdmissionController(limit);
      pending := map[];
      states := map[];
      watchdogs := multiset{};
      new;
      BootedKeeps(limit, gateways);
    }

    /** Starts the unit and its TTL thread; a failed start changes nothing. */
    method StartBox(p: SpawnParams, host: Host) returns (r: Result<(UnitState, NetworkPlan), string>)
      modifies this
      ensures r == SpawnBox(p, old(states), gateways, host)
      ensures Value() == if r.Success? then Record(old(Value()), p.Id(), r.value.0) else old(Value())
    {
      r := SpawnBox(p, states, gateways, host);
      if r.Success? {
        states := states[p.Id() := r.value.0];
        watchdogs := watchdogs + multiset{p.Id()};
      }
    }

    method HandleSpawn(p: SpawnParams, live: set<string>, host: Host) returns (reply: Result<SpawnReply, string>)
      requires Valid()
      modifies this, controller
      ensures Valid()
      ensures (Value(), reply) == AdmitSpawn(old(Value()), p, live, host)
    {
      SpawnKeeps(Value(), p, live, host);
      SpawnConserves(Value(), p, live, host);
      var queueable := QueueableSpawn(p, states, gateways, live);
      if queueable.Failure? {
        return Failure(queueable.error);
      }
      var decision := controller.Admit(p.Id());
      match decision
      case Failure(_) => reply := Failure("ERR_DUPLICATE_BOX");
      case Success(Start) =>
        var r := StartBox(p, host);
        if r.Success? {
          reply := Success(Started(p.Id(), r.value.0.unit, r.value.1));
        } else {
          var _ := controller.Release(p.Id());
          reply := Failure(r.error);
        }
      case Success(Queued(position)) =>
        pending := pending[p.Id() := p];
        states := states[p.Id() := UnitState(queueable.value, QUEUED, "", 0, 0)];
        reply := Success(Waiting(p.Id(), queueable.value, position));
    }

    /** One turn of the drain loop for a Box whose slot is reserved. */
    method LaunchBox(id: BoxId, host: Host) returns (entries: seq<DrainEntry>)
      modifies this, controller
      ensures (Value(), entries) == Launch(old(Value()), id, host)
    {
      if id !in pending {
        return [];
      }
      var params := pending[id];
      pending := pending - {id};
      states := states - {id};
      var r := StartBox(params, host);
      if r.Success? {
        return [Launched(params.Id())];
      }
      var _ := controller.Release(id);
      return [RejectedFromQueue(id, r.error)];
    }

    /** The drain loop: reserve, take the parameters, drop the queued record, start or give the slot back. */
    method DrainLoop(hosts: BoxId -> Host) returns (started: seq<DrainEntry>)
      modifies this, controller
      ensures (Value(), started) == DrainQueue(old(Value()), hosts)
    {
      started := [];
      ghost var all := DrainQueue(Value(), hosts);
      DrainStarts(Value(), hosts);
      while true
        invariant Draining(Value(), started, hosts, all)
        decreases |controller.queued|
      {
        ghost var before := Value();
        var next := controller.StartNext();
        if next.None? {
          DrainEnds(before, started, hosts, all);
          return;
        }
        ghost var popped := Value();
        var entries := LaunchBox(next.value, hosts(next.value));
        DrainTurn(before, popped, next.value, started, hosts, all);
        started := started + entries;
      }
    }

    method HandleDrain(hosts: BoxId -> Host) returns (started: seq<DrainEntry>)
      requires Valid()
      modifies this, controller
      ensures Valid()
      ensures (Value(), started) == DrainQueue(old(Value()), hosts)
    {
      DrainKeeps(Value(), hosts);
      started := DrainLoop(hosts);
    }

    /** The scan of `states` for a unit, optionally only among queued records. */
    method Find(unit: string, onlyQueued: bool) returns (r: Option<BoxId>)
      ensures r.Some? ==> Names(states, unit, r.value) && (onlyQueued ==> NamesQueued(states, unit, r.value))
      ensures r.None? ==> forall id :: !(if onlyQueued then NamesQueued(states, unit, id) else Names(states, unit, id))
    {
      var rest := states.Keys;
      while rest != {}
        invariant rest <= states.Keys
        invariant forall id :: id !in rest ==>
                    !(if onlyQueued then NamesQueued(states, unit, id) else Names(states, unit, id))
        decreases |rest|
      {
        var id :| id in rest;
        if states[id].unit == unit && (onlyQueued ==> states[id].status == QUEUED) {
          return Some(id);
        }
        rest := rest - {id};
      }
      return None;
    }

    /** Under the links between the structures a handle names at most one Box, so the scan's order is moot. */
    method FindOnly(unit: string, onlyQueued: bool) returns (r: Option<BoxId>)
      requires Valid()
      ensures r == if onlyQueued then FindQueued(states, unit) else FindUnit(states, unit)
    {
      r := Find(unit, onlyQueued);
      ghost var expected := if onlyQueued then FindQueued(states, unit) else FindUnit(states, unit);
      if r.Some? && expected.Some? {
        OneBoxPerUnit(Value(), unit, r.value, expected.value);
      }
    }

    method CancelBox(id: BoxId) returns (found: bool)
      modifies this, controller
      ensures Value() == CancelQueuedBox(old(Value()), id)
      ensures found <==> id in old(controller.queued)
    {
      found := controller.CancelQueued(id);
      pending := pending - {id};
      states := states - {id};
    }

    method End(id: BoxId, status: Status, hosts: BoxId -> Host) returns (started: seq<DrainEntry>)
      modifies this, controller
      ensures (Value(), started) == EndBox(old(Value()), id, status, hosts)
    {
      if id in states {
        states := states[id := states[id].(status := status)];
      }
      var held := controller.Release(id);
      started := [];
      if held {
        started := DrainLoop(hosts);
      }
    }

    method HandleKill(handle: string, stopped: bool, hosts: BoxId -> Host) returns (reply: Result<StopReply, string>)
      requires Valid()
      modifies this, controller
      ensures Valid()
      ensures (Value(), reply) == Kill(old(Value()), handle, stopped, hosts)
    {
      KillStep(Value(), handle, stopped, hosts);
      var unit := UnitOf(handle);
      if unit.None? {
        return Failure("ERR_HANDLE_UNKNOWN");
      }
      var queued := FindOnly(unit.value, true);
      if queued.Some? {
        var found := CancelBox(queued.value);
        return Success(Cancelled(queued.value, found));
      }
      var known := FindOnly(unit.value, false);
      if known.None? {
        return Failure("ERR_HANDLE_UNKNOWN");
      }
      if !stopped {
        return Failure("ERR_KILL_FAILED");
      }
      var started := End(known.value, KILLED, hosts);
      return Success(Stopped(started));
    }

    method HandleCleanup(handle: string, reset: bool, removed: bool, hosts: BoxId -> Host)
      returns (reply: Result<StopReply, string>)
      requires Valid()
      modifies this, controller
      ensures Valid()
      ensures (Value(), reply) == Cleanup(old(Value()), handle, reset, removed, hosts)
    {
      CleanUpStep(Value(), CleanUp(handle, reset, removed, hosts));
      var unit := UnitOf(handle);
      if unit.None? {
        return Failure("ERR_HANDLE_UNKNOWN");
      }
      var queued := FindOnly(unit.value, true);
      if queued.Some? {
        var found := CancelBox(queued.value);
        return Success(Cancelled(queued.value, found));
      }
      var known := FindOnly(unit.value, false);
      if known.None? {
        return Failure("ERR_HANDLE_UNKNOWN");
      }
      if !reset || !removed {
        return Failure("ERR_CLEANUP_FAILED");
      }
      states := Without(states, unit.value);
      var started := DrainLoop(hosts);
      return Success(Stopped(started));
    }

    /** The TTL thread of `id` fires. */
    method FireWatchdog(id: BoxId, hosts: BoxId -> Host)
      requires Valid()
      modifies this, controller
      ensures Valid()
      ensures Value() == Expire(old(Value()), id, hosts)
    {
      ExpireStep(Value(), id, hosts);
      if id in watchdogs {
        watchdogs := watchdogs - multiset{id};
        if id in states && (states[id].status == STARTING || states[id].status == ACTIVE) {
          var _ := End(id, TIMED_OUT, hosts);
        }
      }
    }

    /** `systemctl show` is asked exactly about Boxes that are known and neither queued nor timed out. */
    method HandleStatus(handle: string) returns (reply: Result<StatusReply, string>)
      requires Valid()
      ensures reply.Failure? <==> UnitOf(handle).None? || FindUnit(states, UnitOf(handle).value).None?
      ensures reply.Success? ==>
                var status := states[FindUnit(states, UnitOf(handle).value).value].status;
                reply.value == if status == QUEUED || status == TIMED_OUT then Known(status)
                               else AskSystemd(UnitOf(handle).value)
    {
      var unit := UnitOf(handle);
      if unit.None? {
        return Failure("ERR_HANDLE_UNKNOWN");
      }
      var known := FindOnly(unit.value, false);
      if known.Some? && states[known.value].status == QUEUED {
        return Success(Known(QUEUED));
      }
      if known.None? {
        return Failure("ERR_HANDLE_UNKNOWN");
      }
      if states[known.value].status == TIMED_OUT {
        return Success(Known(TIMED_OUT));
      }
      return Success(AskSystemd(unit.value));
    }

    /** The gauges, summed in u64 over every record that is not queued, killed or timed out. */
    method RuntimeMetrics() returns (m: Metrics)
      requires Valid()
      ensures m.activeBoxes == |controller.active| && m.queuedBoxes == |controller.queued|
      ensures m.cpuQuotaPercent == Total(CpuShares(states, states.Keys)) % 0x1_0000_0000_0000_0000
      ensures m.memoryLimitBytes == Total(MemoryShares(states, states.Keys)) % 0x1_0000_0000_0000_0000
      ensures controller.limit < 0x4000 ==>
                && m.cpuQuotaPercent == Total(CpuShares(states, states.Keys)) <= 100 * controller.limit
                && m.memoryLimitBytes == Total(MemoryShares(states, states.Keys)) <= MAX_MEMORY * controller.limit
    {
      var cpu: nat, memory: nat := 0, 0;
      var rest := states.Keys;
      while rest != {}
        invariant rest <= states.Keys
        invariant GaugesSoFar(states, rest, cpu, memory)
        decreases |rest|
      {
        var id :| id in rest;
        var u := states[id];
        assert Entry(Value(), id);
        GaugeTurn(states, rest, id, cpu, memory);
        rest := rest - {id};
        if u.status != QUEUED && u.status != KILLED && u.status != TIMED_OUT {
          cpu := AddU64(cpu, u.cpu);
          memory := AddU64(memory, u.memory);
        }
      }
      GaugesDone(Value(), cpu, memory);
      m := Metrics(|controller.active|, |controller.queued|, cpu, memory);
    }
  }
}
