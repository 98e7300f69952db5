/** What every run of the helper keeps, with handlers and watchdog firings atomic. */
module HelperRuns {
  import opened Collections
  import opened Outcomes
  import opened Admission
  import opened HelperModel

  function EntryId(e: DrainEntry): BoxId {
    e.boxId
  }

  function EntryIds(entries: seq<DrainEntry>): seq<BoxId> {
    if entries == [] then [] else [EntryId(entries[0])] + EntryIds(entries[1..])
  }

  /** The helper after `start_next` has moved `id` from the queue into the active set. */
  ghost predicate Popped(h0: Helper, h: Helper, id: BoxId) {
    h0.control.StartNext().1 == Some(id) && h == h0.(control := h0.control.StartNext().0)
  }

  ghost predicate NoTrace(h: Helper, id: BoxId) {
    id !in h.control.active && id !in h.control.queued && id !in h.pending && id !in h.states
  }

  lemma PoppedFacts(h0: Helper, h: Helper, id: BoxId)
    requires Linked(h0) && Popped(h0, h, id)
    ensures h.control.Valid() && id in h.pending && h.pending[id].Id() == id && HasStatus(h, id, QUEUED)
    ensures h.control.active == h0.control.active + {id} && id !in h0.control.active
    ensures forall other :: other in h0.control.queued <==> other == id || other in h.control.queued
    ensures id !in h.control.queued
  {
    StartNextKeepsValid(h0.control);
    assert h0.control.queued == [id] + h.control.queued;
    assert id in h0.control.queued && Entry(h0, id);
  }

  /** With atomic handlers the missing-parameters arm of the drain loop is never taken; a Box is started or
      leaves no trace. HelperPending has the case of interleaved handlers. */
  lemma LaunchSettles(h0: Helper, h: Helper, id: BoxId, host: Host)
    requires Linked(h0) && Popped(h0, h, id)
    ensures var (h1, entries) := Launch(h, id, host);
            |entries| == 1 && entries[0].boxId == id && Settled(h1, entries[0])
  {
    PoppedFacts(h0, h, id);
  }

  lemma LaunchKeeps(h0: Helper, h: Helper, id: BoxId, host: Host)
    requires Linked(h0) && Popped(h0, h, id)
    ensures Linked(Launch(h, id, host).0)
  {
    PoppedFacts(h0, h, id);
    ReleaseKeepsValid(h.control, id);
    var h1 := Launch(h, id, host).0;
    forall other ensures Entry(h1, other) {
      assert Entry(h0, other);
    }
  }

  /** Boxes outside `ids` are as they were. */
  ghost predicate Same(h: Helper, h1: Helper, id: BoxId) {
    && (id in h1.states <==> id in h.states)
    && (id in h.states ==> h1.states[id] == h.states[id])
    && (id in h1.control.active <==> id in h.control.active)
    && (id in h1.pending <==> id in h.pending)
  }

  ghost predicate SameOutside(h: Helper, h1: Helper, ids: seq<BoxId>) {
    forall id :: id !in ids ==> Same(h, h1, id)
  }

  lemma LaunchTouchesOnlyItsBox(h0: Helper, h: Helper, id: BoxId, host: Host)
    requires Linked(h0) && Popped(h0, h, id)
    ensures SameOutside(h0, Launch(h, id, host).0, h0.control.queued)
  {
    PoppedFacts(h0, h, id);
  }

  lemma LaunchLeaksNothing(h0: Helper, h: Helper, id: BoxId, host: Host)
    requires Linked(h0) && Popped(h0, h, id)
    ensures Leaked(Launch(h, id, host).0) == Leaked(h0)
  {
    PoppedFacts(h0, h, id);
  }

  /** What one drain achieves, from `h` to `h1` with `entries`. */
  ghost predicate Drained(h: Helper, h1: Helper, entries: seq<DrainEntry>) {
    && |entries| <= |h.control.queued|
    && EntryIds(entries) == h.control.queued[..|entries|]
    && h1.control.queued == h.control.queued[|entries|..]
    && h1.control.limit == h.control.limit
    && Conserving(h1)
    && SameOutside(h, h1, h.control.queued)
    && (forall e :: e in entries ==> Settled(h1, e))
  }

  /** A rejected Box has left no trace; a launched one is STARTING. */
  ghost predicate Settled(h: Helper, e: DrainEntry) {
    if e.Launched? then HasStatus(h, e.boxId, STARTING) else NoTrace(h, e.boxId)
  }

  /** For all outcomes of unit starts, a drain takes exactly a prefix of the queue, in order, and stops
      only when the queue is empty or every slot is taken. */
  lemma {:induction false} DrainKeeps(h: Helper, hosts: BoxId -> Host)
    requires Linked(h)
    ensures Linked(DrainQueue(h, hosts).0)
    ensures Drained(h, DrainQueue(h, hosts).0, DrainQueue(h, hosts).1)
    ensures Leaked(DrainQueue(h, hosts).0) == Leaked(h)
    decreases |h.control.queued|
  {
    StartNextKeepsValid(h.control);
    var (control, next) := h.control.StartNext();
    if next.Some? {
      var h' := h.(control := control);
      var (h1, first) := Launch(h', next.value, hosts(next.value));
      LaunchKeeps(h, h', next.value, hosts(next.value));
      LaunchSettles(h, h', next.value, hosts(next.value));
      LaunchLeaksNothing(h, h', next.value, hosts(next.value));
      LaunchTouchesOnlyItsBox(h, h', next.value, hosts(next.value));
      DrainKeeps(h1, hosts);
      DrainedOneMore(h, h1, DrainQueue(h1, hosts).0, first, DrainQueue(h1, hosts).1);
    }
  }

  lemma DrainedOneMore(h: Helper, h1: Helper, h2: Helper, first: seq<DrainEntry>, rest: seq<DrainEntry>)
    requires Distinct(h.control.queued)
    requires h.control.queued != [] && h1.control.queued == h.control.queued[1..]
    requires h1.control.limit == h.control.limit && SameOutside(h, h1, h.control.queued)
    requires |first| == 1 && first[0].boxId == h.control.queued[0] && Settled(h1, first[0])
    requires Drained(h1, h2, rest)
    ensures Drained(h, h2, first + rest)
  {
    var queued, id := h.control.queued, first[0].boxId;
    assert (first + rest)[1..] == rest;
    assert queued[..1 + |rest|] == [id] + h1.control.queued[..|rest|];
    assert id !in h1.control.queued && queued == [id] + h1.control.queued;
    assert h2.control.queued == queued[1 + |rest|..];
    SettledStays(h1, h2, first[0]);
    forall other | other !in queued ensures Same(h, h2, other) {
      assert Same(h, h1, other) && Same(h1, h2, other);
    }
  }

  lemma SettledStays(h1: Helper, h2: Helper, e: DrainEntry)
    requires Settled(h1, e) && e.boxId !in h1.control.queued && SameOutside(h1, h2, h1.control.queued)
    requires forall id :: id in h2.control.queued ==> id in h1.control.queued
    ensures Settled(h2, e)
  {
    assert Same(h1, h2, e.boxId);
  }

  // ---- one step ----

  lemma RecordKeeps(h: Helper, id: BoxId, u: UnitState)
    requires Linked(h) && h.control.Admit(id).1 == Success(Start)
    requires id !in h.states && Sound(id, u) && u.status == STARTING
    ensures var h1 := Record(h.(control := h.control.Admit(id).0), id, u);
            Linked(h1) && Leaked(h1) == Leaked(h)
  {
    AdmitKeepsValid(h.control, id);
    var h1 := Record(h.(control := h.control.Admit(id).0), id, u);
    forall other ensures Entry(h1, other) {
      assert Entry(h, other);
    }
  }

  function Enqueued(h: Helper, p: SpawnParams): Helper {
    h.(control := h.control.Admit(p.Id()).0,
       pending := h.pending[p.Id() := p],
       states := h.states[p.Id() := UnitState(UnitName(p.Id()), QUEUED, "", 0, 0)])
  }

  lemma EnqueueKeeps(h: Helper, p: SpawnParams, position: nat)
    requires Linked(h) && h.control.Admit(p.Id()).1 == Success(Queued(position)) && p.Id() !in h.states
    ensures Linked(Enqueued(h, p)) && Leaked(Enqueued(h, p)) == Leaked(h)
  {
    AdmitKeepsValid(h.control, p.Id());
    var h1 := Enqueued(h, p);
    forall other ensures Entry(h1, other) {
      assert Entry(h, other);
      assert other in h1.control.queued <==> other == p.Id() || other in h.control.queued;
    }
    assert h1.control.active == h.control.active;
    assert p.Id() !in Starting(h) && p.Id() !in Starting(h1);
    assert Starting(h1) == Starting(h);
  }

  /** An admitted Box whose start fails gives its slot back, and nothing else has changed. */
  lemma AdmitUndone(c: Control, id: BoxId)
    requires c.Valid() && c.Admit(id).1 == Success(Start)
    ensures c.Admit(id).0.Release(id) == c
  {
    AdmitKeepsValid(c, id);
    assert c.active + {id} - {id} == c.active;
  }

  /** Every answer to a spawn: refused requests and failed starts leave the helper as it was. */
  lemma SpawnKeeps(h: Helper, p: SpawnParams, live: set<string>, host: Host)
    requires Linked(h)
    ensures var (h1, reply) := AdmitSpawn(h, p, live, host);
            && Linked(h1) && Leaked(h1) == Leaked(h) && (reply.Failure? ==> h1 == h)
  {
    if QueueableSpawn(p, h.states, h.gateways, live).Success? {
      var decision := h.control.Admit(p.Id()).1;
      if decision == Success(Start) {
        var r := SpawnBox(p, h.states, h.gateways, host);
        if r.Success? {
          RecordKeeps(h, p.Id(), r.value.0);
        } else {
          AdmitUndone(h.control, p.Id());
        }
      } else if decision.Success? {
        EnqueueKeeps(h, p, decision.value.position);
      }
    }
  }

  /** What the client is told is where the Box is. */
  lemma SpawnReplyIsTrue(h: Helper, p: SpawnParams, live: set<string>, host: Host)
    requires Linked(h) && AdmitSpawn(h, p, live, host).1.Success?
    ensures var (h1, reply) := AdmitSpawn(h, p, live, host);
            match reply.value
            case Started(id, unit, _) => HasStatus(h1, id, STARTING) && id in h1.control.active && unit == UnitName(id)
            case Waiting(id, unit, position) =>
              HasStatus(h1, id, QUEUED) && h1.control.queued[position - 1..] == [id] && unit == UnitName(id)
  {
    AdmitKeepsValid(h.control, p.Id());
  }

  lemma SpawnConserves(h: Helper, p: SpawnParams, live: set<string>, host: Host)
    requires h.control.Valid() && Conserving(h)
    ensures Conserving(AdmitSpawn(h, p, live, host).0)
  {
    AdmitKeepsValid(h.control, p.Id());
  }

  function Marked(h: Helper, id: BoxId, status: Status): Helper
    requires id in h.states
  {
    h.(states := h.states[id := h.states[id].(status := status)], control := h.control.Release(id))
  }

  /** A Box with a record that is not queued holds a slot exactly while it is STARTING. */
  lemma MarkEnded(h: Helper, id: BoxId, status: Status)
    requires Linked(h) && id in h.states && h.states[id].status != QUEUED
    requires status == KILLED || status == TIMED_OUT
    ensures Linked(Marked(h, id, status)) && Leaked(Marked(h, id, status)) == Leaked(h)
    ensures id !in h.control.active ==> Marked(h, id, status).control == h.control
  {
    ReleaseKeepsValid(h.control, id);
    var h1 := Marked(h, id, status);
    assert Entry(h, id);
    forall other ensures Entry(h1, other) {
      assert Entry(h, other);
    }
    assert Starting(h1) == Starting(h) - {id};
    assert id in h.control.active ==> id in Starting(h);
    if id !in h.control.active {
      assert h.control.active - {id} == h.control.active;
    }
  }

  lemma EndKeeps(h: Helper, id: BoxId, status: Status, hosts: BoxId -> Host)
    requires Linked(h) && Conserving(h) && id in h.states && h.states[id].status != QUEUED
    requires status == KILLED || status == TIMED_OUT
    ensures var h1 := EndBox(h, id, status, hosts).0;
            Linked(h1) && Conserving(h1) && Leaked(h1) == Leaked(h) && HasStatus(h1, id, status)
    ensures var (h1, started) := EndBox(h, id, status, hosts);
            if id in h.control.active then Drained(Marked(h, id, status), h1, started)
            else h1 == Marked(h, id, status) && started == []
  {
    MarkEnded(h, id, status);
    var h1 := Marked(h, id, status);
    DrainKeeps(h1, hosts);
    assert Entry(h, id);
    assert HasStatus(h1, id, status);
    assert Same(h1, DrainQueue(h1, hosts).0, id);
  }

  lemma CancelKeeps(h: Helper, id: BoxId)
    requires Linked(h) && HasStatus(h, id, QUEUED)
    ensures Linked(CancelQueuedBox(h, id)) && NoTrace(CancelQueuedBox(h, id), id)
    ensures Leaked(CancelQueuedBox(h, id)) == Leaked(h)
    ensures Conserving(h) ==> Conserving(CancelQueuedBox(h, id))
  {
    CancelKeepsValid(h.control, id);
    assert Entry(h, id);
    var h1 := CancelQueuedBox(h, id);
    forall other ensures Entry(h1, other) {
      assert Entry(h, other);
    }
  }

  lemma StartingHoldSlots(h: Helper)
    requires Linked(h)
    ensures Starting(h) <= h.control.active
    ensures h.control.active == Starting(h) <==> Leaked(h) == {}
  {
    forall id | id in Starting(h) ensures id in h.control.active {
      assert Entry(h, id);
    }
    assert h.control.active == Starting(h) + Leaked(h);
  }

  /** The Box that a successful cleanup drops, when it is still STARTING. */
  ghost function DroppedWhileStarting(h: Helper, unit: string): set<BoxId> {
    set id | id in h.states && h.states[id].unit == unit && h.states[id].status == STARTING
  }

  lemma DropKeeps(h: Helper, unit: string)
    requires Linked(h) && FindQueued(h.states, unit).None?
    ensures var h1 := h.(states := Without(h.states, unit));
            Linked(h1) && Leaked(h1) == Leaked(h) + DroppedWhileStarting(h, unit)
  {
    var h1 := h.(states := Without(h.states, unit));
    forall id ensures Entry(h1, id) {
      assert Entry(h, id);
      assert !NamesQueued(h.states, unit, id);
    }
    StartingHoldSlots(h);
    assert Starting(h1) == Starting(h) - DroppedWhileStarting(h, unit);
    assert DroppedWhileStarting(h, unit) <= Starting(h);
  }

  // ---- runs ----

  datatype Event =
    | Spawn(params: SpawnParams, live: set<string>, host: Host)
    | Drain(hosts: BoxId -> Host)
    | KillBox(handle: string, stopped: bool, hosts: BoxId -> Host)
    | CleanUp(handle: string, reset: bool, removed: bool, hosts: BoxId -> Host)
    | WatchdogFires(id: BoxId, hosts: BoxId -> Host)

  ghost function Step(h: Helper, e: Event): Helper {
    match e
    case Spawn(p, live, host) => AdmitSpawn(h, p, live, host).0
    case Drain(hosts) => DrainQueue(h, hosts).0
    case KillBox(handle, stopped, hosts) => Kill(h, handle, stopped, hosts).0
    case CleanUp(handle, reset, removed, hosts) => Cleanup(h, handle, reset, removed, hosts).0
    case WatchdogFires(id, hosts) => Expire(h, id, hosts)
  }

  function Booted(limit: nat, gateways: map<string, string>): Helper {
    Helper(gateways, Fresh(limit), map[], map[], multiset{})
  }

  ghost function Run(h: Helper, events: seq<Event>): Helper {
    if events == [] then h else Step(Run(h, events[..|events| - 1]), events[|events| - 1])
  }

  /** Boxes cleaned by this event although they were neither killed nor timed out. */
  ghost function CleanedTooEarly(h: Helper, e: Event): set<BoxId> {
    if e.CleanUp? && Cleanup(h, e.handle, e.reset, e.removed, e.hosts).1.Success?
    then DroppedWhileStarting(h, UnitOf(e.handle).GetOr(""))
    else {}
  }

  ghost function AllCleanedTooEarly(h: Helper, events: seq<Event>): set<BoxId> {
    if events == [] then {}
    else
      var before := events[..|events| - 1];
      AllCleanedTooEarly(h, before) + CleanedTooEarly(Run(h, before), events[|events| - 1])
  }

  lemma KillStep(h: Helper, handle: string, stopped: bool, hosts: BoxId -> Host)
    requires Linked(h) && Conserving(h)
    ensures var (h1, reply) := Kill(h, handle, stopped, hosts);
            && Linked(h1) && Conserving(h1) && Leaked(h1) == Leaked(h)
            && (reply.Failure? ==> h1 == h)
            && (reply.Success? && reply.value.Cancelled? ==> reply.value.found && NoTrace(h1, reply.value.boxId))
            && (reply.Success? && reply.value.Stopped? ==>
                  exists id :: Names(h.states, UnitOf(handle).value, id) && HasStatus(h1, id, KILLED))
  {
    if UnitOf(handle).Some? {
      var unit := UnitOf(handle).value;
      var queued, known := FindQueued(h.states, unit), FindUnit(h.states, unit);
      if queued.Some? {
        assert HasStatus(h, queued.value, QUEUED) && Entry(h, queued.value);
        CancelKeeps(h, queued.value);
      } else if known.Some? && stopped {
        assert !NamesQueued(h.states, unit, known.value);
        EndKeeps(h, known.value, KILLED, hosts);
      }
    }
  }

  lemma CleanUpStep(h: Helper, e: Event)
    requires e.CleanUp? && Linked(h) && Conserving(h)
    ensures Linked(Step(h, e)) && Conserving(Step(h, e))
    ensures Leaked(Step(h, e)) == Leaked(h) + CleanedTooEarly(h, e)
    ensures Cleanup(h, e.handle, e.reset, e.removed, e.hosts).1.Success? ==>
              forall id :: Names(h.states, UnitOf(e.handle).value, id) ==> id !in Step(h, e).states
  {
    if UnitOf(e.handle).Some? {
      var unit := UnitOf(e.handle).value;
      var queued := FindQueued(h.states, unit);
      if queued.Some? {
        assert HasStatus(h, queued.value, QUEUED) && Entry(h, queued.value);
        CancelKeeps(h, queued.value);
        CancelledIsNotStarting(h, unit, queued.value);
        OnlyBox(h, unit, queued.value);
      } else if FindUnit(h.states, unit).Some? && e.reset && e.removed {
        DropKeeps(h, unit);
        DrainKeeps(h.(states := Without(h.states, unit)), e.hosts);
        DroppedStaysAway(h, unit, e.hosts);
      }
    }
  }

  lemma OnlyBox(h: Helper, unit: string, id: BoxId)
    requires Linked(h) && Names(h.states, unit, id)
    ensures forall other :: Names(h.states, unit, other) ==> other == id
  {
    forall other | Names(h.states, unit, other) ensures other == id {
      OneBoxPerUnit(h, unit, other, id);
    }
  }

  lemma DroppedStaysAway(h: Helper, unit: string, hosts: BoxId -> Host)
    requires Linked(h) && FindQueued(h.states, unit).None?
    ensures var h1 := DrainQueue(h.(states := Without(h.states, unit)), hosts).0;
            forall id :: Names(h.states, unit, id) ==> id !in h1.states
  {
    var dropped := h.(states := Without(h.states, unit));
    DropKeeps(h, unit);
    DrainKeeps(dropped, hosts);
    forall id | Names(h.states, unit, id) ensures id !in DrainQueue(dropped, hosts).0.states {
      assert !NamesQueued(h.states, unit, id) && Entry(h, id);
      assert Same(dropped, DrainQueue(dropped, hosts).0, id);
    }
  }

  lemma CancelledIsNotStarting(h: Helper, unit: string, id: BoxId)
    requires Linked(h) && NamesQueued(h.states, unit, id)
    ensures DroppedWhileStarting(h, unit) == {}
  {
    forall other | Names(h.states, unit, other) ensures other == id {
      OneBoxPerUnit(h, unit, other, id);
    }
    assert forall other :: other in DroppedWhileStarting(h, unit) ==> Names(h.states, unit, other);
  }

  lemma ExpireStep(h: Helper, id: BoxId, hosts: BoxId -> Host)
    requires Linked(h) && Conserving(h)
    ensures Linked(Expire(h, id, hosts)) && Conserving(Expire(h, id, hosts))
    ensures Leaked(Expire(h, id, hosts)) == Leaked(h)
    ensures id in h.watchdogs && HasStatus(h, id, STARTING) ==> HasStatus(Expire(h, id, hosts), id, TIMED_OUT)
    ensures !HasStatus(h, id, STARTING) ==> Expire(h, id, hosts) == h.(watchdogs := h.watchdogs - multiset{id})
  {
    assert Entry(h, id);
    if id in h.watchdogs {
      var h1 := h.(watchdogs := h.watchdogs - multiset{id});
      forall other ensures Entry(h1, other) {
        assert Entry(h, other);
      }
      if id in h1.states && (h1.states[id].status == STARTING || h1.states[id].status == ACTIVE) {
        EndKeeps(h1, id, TIMED_OUT, hosts);
      }
    }
  }

  /** Linking, work conservation and the leak law, one step at a time. */
  lemma StepKeeps(h: Helper, e: Event)
    requires Linked(h) && Conserving(h)
    ensures Linked(Step(h, e)) && Conserving(Step(h, e))
    ensures Leaked(Step(h, e)) == Leaked(h) + CleanedTooEarly(h, e)
  {
    match e
    case Spawn(p, live, host) =>
      SpawnKeeps(h, p, live, host);
      SpawnConserves(h, p, live, host);
    case Drain(hosts) => DrainKeeps(h, hosts);
    case KillBox(handle, stopped, hosts) => KillStep(h, handle, stopped, hosts);
    case CleanUp(_, _, _, _) => CleanUpStep(h, e);
    case WatchdogFires(id, hosts) => ExpireStep(h, id, hosts);
  }

  /** Every reachable state: the three structures are linked, no slot is free while a Box waits, and the
      slots that no STARTING Box holds are exactly those of Boxes cleaned before they were ended. */
  lemma {:induction false} EveryRunKeeps(limit: nat, gateways: map<string, string>, events: seq<Event>)
    requires 0 < limit
    ensures var h0 := Booted(limit, gateways); var h := Run(h0, events);
            Linked(h) && Conserving(h) && Leaked(h) == AllCleanedTooEarly(h0, events)
  {
    if events == [] {
      BootedKeeps(limit, gateways);
    } else {
      var before := events[..|events| - 1];
      EveryRunKeeps(limit, gateways, before);
      StepKeeps(Run(Booted(limit, gateways), before), events[|events| - 1]);
    }
  }

  lemma BootedKeeps(limit: nat, gateways: map<string, string>)
    requires 0 < limit
    ensures var h := Booted(limit, gateways); Linked(h) && Conserving(h) && Leaked(h) == {}
  {
  }

  // ---- watchdogs ----

  /** Every STARTING Box has a TTL thread that has not fired. */
  ghost predicate Watched(h: Helper) {
    forall id :: HasStatus(h, id, STARTING) ==> id in h.watchdogs
  }

  lemma LaunchWatched(h: Helper, id: BoxId, host: Host)
    requires Watched(h)
    ensures Watched(Launch(h, id, host).0)
  {
    forall other | HasStatus(Launch(h, id, host).0, other, STARTING) ensures other in Launch(h, id, host).0.watchdogs {
      assert HasStatus(h, other, STARTING) ==> other in h.watchdogs;
    }
  }

  lemma {:induction false} DrainWatched(h: Helper, hosts: BoxId -> Host)
    requires Watched(h)
    ensures Watched(DrainQueue(h, hosts).0)
    decreases |h.control.queued|
  {
    var (control, next) := h.control.StartNext();
    if next.Some? {
      var h' := h.(control := control);
      assert forall id :: HasStatus(h', id, STARTING) ==> HasStatus(h, id, STARTING);
      LaunchWatched(h', next.value, hosts(next.value));
      DrainWatched(Launch(h', next.value, hosts(next.value)).0, hosts);
    }
  }

  /** Fewer STARTING Boxes over the same watchdogs. */
  lemma FewerWatched(h: Helper, h1: Helper)
    requires Watched(h) && h1.watchdogs == h.watchdogs
    requires forall id :: HasStatus(h1, id, STARTING) ==> HasStatus(h, id, STARTING)
    ensures Watched(h1)
  {
  }

  lemma EndWatched(h: Helper, id: BoxId, status: Status, hosts: BoxId -> Host)
    requires status != STARTING
    requires forall other :: HasStatus(h, other, STARTING) && other != id ==> other in h.watchdogs
    ensures Watched(EndBox(h, id, status, hosts).0)
  {
    var states := if id in h.states then h.states[id := h.states[id].(status := status)] else h.states;
    var h1 := h.(states := states, control := h.control.Release(id));
    forall other | HasStatus(h1, other, STARTING) ensures other in h1.watchdogs {
      assert HasStatus(h, other, STARTING);
    }
    DrainWatched(h1, hosts);
  }

  lemma SpawnWatched(h: Helper, p: SpawnParams, live: set<string>, host: Host)
    requires Watched(h)
    ensures Watched(AdmitSpawn(h, p, live, host).0)
  {
    var h1 := AdmitSpawn(h, p, live, host).0;
    forall id | HasStatus(h1, id, STARTING) ensures id in h1.watchdogs {
      assert HasStatus(h, id, STARTING) ==> id in h.watchdogs;
    }
  }

  lemma ExpireWatched(h: Helper, id: BoxId, hosts: BoxId -> Host)
    requires Watched(h) && Linked(h)
    ensures Watched(Expire(h, id, hosts))
  {
    assert Entry(h, id);
    var h1 := h.(watchdogs := h.watchdogs - multiset{id});
    forall other | HasStatus(h1, other, STARTING) && other != id ensures other in h1.watchdogs {
      assert HasStatus(h, other, STARTING);
    }
    EndWatched(h1, id, TIMED_OUT, hosts);
  }

  lemma KillWatched(h: Helper, handle: string, stopped: bool, hosts: BoxId -> Host)
    requires Watched(h)
    ensures Watched(Kill(h, handle, stopped, hosts).0)
  {
    if UnitOf(handle).Some? {
      var unit := UnitOf(handle).value;
      var queued, known := FindQueued(h.states, unit), FindUnit(h.states, unit);
      if queued.Some? {
        FewerWatched(h, CancelQueuedBox(h, queued.value));
      } else if known.Some? && stopped {
        EndWatched(h, known.value, KILLED, hosts);
      }
    }
  }

  lemma CleanUpWatched(h: Helper, handle: string, reset: bool, removed: bool, hosts: BoxId -> Host)
    requires Watched(h)
    ensures Watched(Cleanup(h, handle, reset, removed, hosts).0)
  {
    if UnitOf(handle).Some? {
      var unit := UnitOf(handle).value;
      var queued := FindQueued(h.states, unit);
      if queued.Some? {
        FewerWatched(h, CancelQueuedBox(h, queued.value));
      } else {
        var dropped := h.(states := Without(h.states, unit));
        FewerWatched(h, dropped);
        DrainWatched(dropped, hosts);
      }
    }
  }

  lemma StepWatched(h: Helper, e: Event)
    requires Watched(h) && Linked(h)
    ensures Watched(Step(h, e))
  {
    match e
    case Spawn(p, live, host) => SpawnWatched(h, p, live, host);
    case Drain(hosts) => DrainWatched(h, hosts);
    case KillBox(handle, stopped, hosts) => KillWatched(h, handle, stopped, hosts);
    case CleanUp(handle, reset, removed, hosts) => CleanUpWatched(h, handle, reset, removed, hosts);
    case WatchdogFires(id, hosts) => ExpireWatched(h, id, hosts);
  }

  /** No Box is ever left STARTING without a TTL thread still to fire for it. */
  lemma {:induction false} EveryRunIsWatched(limit: nat, gateways: map<string, string>, events: seq<Event>)
    requires 0 < limit
    ensures Watched(Run(Booted(limit, gateways), events))
  {
    if events != [] {
      var before := events[..|events| - 1];
      EveryRunIsWatched(limit, gateways, before);
      EveryRunKeeps(limit, gateways, before);
      StepWatched(Run(Booted(limit, gateways), before), events[|events| - 1]);
    }
  }

  /** The stop-before-cleanup discipline is exactly what "slots taken = Boxes STARTING" needs. */
  lemma SlotsAreStartingBoxes(limit: nat, gateways: map<string, string>, events: seq<Event>)
    requires 0 < limit
    ensures var h0 := Booted(limit, gateways); var h := Run(h0, events);
            && Starting(h) <= h.control.active
            && (h.control.active == Starting(h) <==> AllCleanedTooEarly(h0, events) == {})
  {
    EveryRunKeeps(limit, gateways, events);
    var h := Run(Booted(limit, gateways), events);
    StartingHoldSlots(h);
  }

  /** At most `limit` Boxes are STARTING, at any moment of any run. */
  lemma CapacityHolds(limit: nat, gateways: map<string, string>, events: seq<Event>)
    requires 0 < limit
    ensures |Starting(Run(Booted(limit, gateways), events))| <= limit
  {
    EveryRunKeeps(limit, gateways, events);
    LimitIsFixed(Booted(limit, gateways), events);
    var h := Run(Booted(limit, gateways), events);
    StartingHoldSlots(h);
    SubsetSize(Starting(h), h.control.active);
  }

  lemma {:induction false} LimitIsFixed(h: Helper, events: seq<Event>)
    ensures Run(h, events).control.limit == h.control.limit
  {
    if events != [] {
      var before := events[..|events| - 1];
      LimitIsFixed(h, before);
      StepKeepsLimit(Run(h, before), events[|events| - 1]);
    }
  }

  lemma {:induction false} DrainKeepsLimit(h: Helper, hosts: BoxId -> Host)
    ensures DrainQueue(h, hosts).0.control.limit == h.control.limit
    decreases |h.control.queued|
  {
    var (control, next) := h.control.StartNext();
    if next.Some? {
      DrainKeepsLimit(Launch(h.(control := control), next.value, hosts(next.value)).0, hosts);
    }
  }

  lemma EndKeepsLimit(h: Helper, id: BoxId, status: Status, hosts: BoxId -> Host)
    ensures EndBox(h, id, status, hosts).0.control.limit == h.control.limit
  {
    var states := if id in h.states then h.states[id := h.states[id].(status := status)] else h.states;
    DrainKeepsLimit(h.(states := states, control := h.control.Release(id)), hosts);
  }

  lemma KillKeepsLimit(h: Helper, handle: string, stopped: bool, hosts: BoxId -> Host)
    ensures Kill(h, handle, stopped, hosts).0.control.limit == h.control.limit
  {
    if UnitOf(handle).Some? && FindUnit(h.states, UnitOf(handle).value).Some? {
      EndKeepsLimit(h, FindUnit(h.states, UnitOf(handle).value).value, KILLED, hosts);
    }
  }

  lemma CleanUpKeepsLimit(h: Helper, handle: string, reset: bool, removed: bool, hosts: BoxId -> Host)
    ensures Cleanup(h, handle, reset, removed, hosts).0.control.limit == h.control.limit
  {
    DrainKeepsLimit(h.(states := Without(h.states, UnitOf(handle).GetOr(""))), hosts);
  }

  lemma ExpireKeepsLimit(h: Helper, id: BoxId, hosts: BoxId -> Host)
    ensures Expire(h, id, hosts).control.limit == h.control.limit
  {
    if id in h.watchdogs {
      EndKeepsLimit(h.(watchdogs := h.watchdogs - multiset{id}), id, TIMED_OUT, hosts);
    }
  }

  lemma StepKeepsLimit(h: Helper, e: Event)
    ensures Step(h, e).control.limit == h.control.limit
  {
    match e
    case Spawn(p, live, host) =>
    case Drain(hosts) => DrainKeepsLimit(h, hosts);
    case KillBox(handle, stopped, hosts) => KillKeepsLimit(h, handle, stopped, hosts);
    case CleanUp(handle, reset, removed, hosts) => CleanUpKeepsLimit(h, handle, reset, removed, hosts);
    case WatchdogFires(id, hosts) => ExpireKeepsLimit(h, id, hosts);
  }
}
