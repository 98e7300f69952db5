/** What each request to the helper is answered and what it leaves behind (src/bin/viper-helper.rs), with atomic
    handlers, against the plain conditions of HelperChecks. */
module HelperAnswers {
  import opened Outcomes
  import opened Admission
  import opened HelperModel
  import opened HelperChecks
  import opened HelperRuns

  // ---- a Box taken from the queue ----

  /** The entry for a Box taken from the queue: launched exactly if it can be started, and otherwise rejected with
      the code of the check that failed. */
  ghost predicate EntryOk(p: SpawnParams, gateways: map<string, string>, host: Host, e: DrainEntry) {
    if Startable(p, gateways, host) then e == Launched(p.Id())
    else e.RejectedFromQueue? && e.boxId == p.Id() && StartRefusedAs(p, map[], gateways, host, e.code)
  }

  /** The Box is STARTING, as asked for, and holds a slot. */
  ghost predicate RunsAs(h: Helper, p: SpawnParams, host: Host) {
    p.Id() in h.states && StartedAs(p, host, h.states[p.Id()]) && p.Id() in h.control.active
  }

  /** From `h0` to `h1` the Box `id` at the head of the queue is started, or given up; nothing else changes. */
  ghost predicate Taken(h0: Helper, h1: Helper, id: BoxId, host: Host)
    requires id in h0.pending && h0.control.queued != []
  {
    var p := h0.pending[id];
    var starts := Startable(p, h0.gateways, host);
    && h1.gateways == h0.gateways && h1.pending == h0.pending - {id}
    && h1.states - {id} == h0.states - {id}
    && h1.control.queued == h0.control.queued[1..] && h1.control.limit == h0.control.limit
    && h1.control.active == (if starts then h0.control.active + {id} else h0.control.active)
    && h1.watchdogs == (if starts then h0.watchdogs + multiset{id} else h0.watchdogs)
    && (if starts then RunsAs(h1, p, host) else id !in h1.states)
  }

  lemma LaunchExactly(h0: Helper, h: Helper, id: BoxId, host: Host)
    requires Linked(h0) && Popped(h0, h, id)
    ensures id in h0.pending && h0.control.queued != [] && Taken(h0, Launch(h, id, host).0, id, host)
    ensures var entries := Launch(h, id, host).1;
            |entries| == 1 && EntryOk(h0.pending[id], h0.gateways, host, entries[0])
  {
    PoppedFacts(h0, h, id);
    var p := h0.pending[id];
    StartsExactly(p, h0.states - {id}, h0.gateways, host);
    StartRefusal(p, h0.states - {id}, h0.gateways, host);
    assert h0.control.active + {id} - {id} == h0.control.active;
  }

  // ---- whole drains ----

  /** What holds of entry `i` of a drain from `h` to `h1`. */
  ghost predicate Served(h: Helper, h1: Helper, hosts: BoxId -> Host, entries: seq<DrainEntry>, i: nat) {
    && i < |entries| && i < |h.control.queued|
    && var id := h.control.queued[i];
    && id in h.pending
    && EntryOk(h.pending[id], h.gateways, hosts(id), entries[i])
    && (entries[i].Launched? ==> RunsAs(h1, h.pending[id], hosts(id)))
  }

  function LaunchedIds(entries: seq<DrainEntry>): multiset<BoxId> {
    if entries == [] then multiset{}
    else (if entries[0].Launched? then multiset{entries[0].boxId} else multiset{}) + LaunchedIds(entries[1..])
  }

  /** Every Box that a drain takes is launched or rejected as its own request and the host decide, every Box
      launched gets its TTL thread, and nothing but their parameters leaves `pending`. */
  ghost predicate AllServed(h: Helper, h1: Helper, hosts: BoxId -> Host, entries: seq<DrainEntry>) {
    && (forall i: nat :: i < |entries| ==> Served(h, h1, hosts, entries, i))
    && h1.gateways == h.gateways
    && h1.watchdogs == h.watchdogs + LaunchedIds(entries)
    && (forall id :: id in h1.pending ==> id in h.pending && h1.pending[id] == h.pending[id])
  }

  lemma ServedLater(h: Helper, h1: Helper, h2: Helper, hosts: BoxId -> Host, first: DrainEntry,
                    rest: seq<DrainEntry>, i: nat)
    requires Linked(h) && h.control.queued != [] && h.control.queued[0] in h.pending
    requires Taken(h, h1, h.control.queued[0], hosts(h.control.queued[0]))
    requires Served(h1, h2, hosts, rest, i)
    ensures Served(h, h2, hosts, [first] + rest, i + 1)
  {
    assert ([first] + rest)[i + 1] == rest[i] && h.control.queued[i + 1] == h1.control.queued[i];
  }

  lemma ServedFirst(h: Helper, h1: Helper, h2: Helper, hosts: BoxId -> Host, first: DrainEntry,
                    rest: seq<DrainEntry>)
    requires Linked(h) && h.control.queued != [] && h.control.queued[0] in h.pending
    requires var id := h.control.queued[0];
             && Taken(h, h1, id, hosts(id)) && EntryOk(h.pending[id], h.gateways, hosts(id), first)
             && Same(h1, h2, id)
    ensures Served(h, h2, hosts, [first] + rest, 0)
  {
    assert Entry(h, h.control.queued[0]);
  }

  lemma {:induction false} DrainExactly(h: Helper, hosts: BoxId -> Host)
    requires Linked(h)
    ensures AllServed(h, DrainQueue(h, hosts).0, hosts, DrainQueue(h, hosts).1)
    decreases |h.control.queued|
  {
    StartNextKeepsValid(h.control);
    var (control, next) := h.control.StartNext();
    if next.Some? {
      var id := next.value;
      var popped := h.(control := control);
      var (h1, first) := Launch(popped, id, hosts(id));
      LaunchExactly(h, popped, id, hosts(id));
      LaunchKeeps(h, popped, id, hosts(id));
      DrainKeeps(h1, hosts);
      DrainExactly(h1, hosts);
      ServedOneMore(h, h1, DrainQueue(h1, hosts).0, hosts, first[0], DrainQueue(h1, hosts).1);
      assert first == [first[0]];
    }
  }

  lemma ServedOneMore(h: Helper, h1: Helper, h2: Helper, hosts: BoxId -> Host, first: DrainEntry,
                      rest: seq<DrainEntry>)
    requires Linked(h) && h.control.queued != [] && h.control.queued[0] in h.pending
    requires var id := h.control.queued[0];
             && Taken(h, h1, id, hosts(id)) && EntryOk(h.pending[id], h.gateways, hosts(id), first)
    requires AllServed(h1, h2, hosts, rest) && SameOutside(h1, h2, h1.control.queued)
    ensures AllServed(h, h2, hosts, [first] + rest)
  {
    forall i: nat | i < |[first] + rest| ensures Served(h, h2, hosts, [first] + rest, i) {
      ServedAt(h, h1, h2, hosts, first, rest, i);
    }
    WatchedOneMore(h, h.control.queued[0], hosts(h.control.queued[0]), first, rest);
  }

  lemma ServedAt(h: Helper, h1: Helper, h2: Helper, hosts: BoxId -> Host, first: DrainEntry,
                 rest: seq<DrainEntry>, i: nat)
    requires Linked(h) && h.control.queued != [] && h.control.queued[0] in h.pending
    requires var id := h.control.queued[0];
             && Taken(h, h1, id, hosts(id)) && EntryOk(h.pending[id], h.gateways, hosts(id), first)
    requires SameOutside(h1, h2, h1.control.queued) && i <= |rest|
    requires i > 0 ==> Served(h1, h2, hosts, rest, i - 1)
    ensures Served(h, h2, hosts, [first] + rest, i)
  {
    if i == 0 {
      assert h.control.queued == [h.control.queued[0]] + h1.control.queued;
      ServedFirst(h, h1, h2, hosts, first, rest);
    } else {
      ServedLater(h, h1, h2, hosts, first, rest, i - 1);
    }
  }

  lemma WatchedOneMore(h: Helper, id: BoxId, host: Host, first: DrainEntry, rest: seq<DrainEntry>)
    requires Linked(h) && id in h.pending && EntryOk(h.pending[id], h.gateways, host, first)
    ensures LaunchedIds([first] + rest)
         == (if Startable(h.pending[id], h.gateways, host) then multiset{id} else multiset{}) + LaunchedIds(rest)
  {
    assert Entry(h, id);
    assert ([first] + rest)[1..] == rest;
  }

  // ---- the four requests and the TTL ----

  /** One waiting Box more, and nothing else. */
  ghost predicate Joined(h: Helper, h1: Helper, p: SpawnParams) {
    && h1.gateways == h.gateways && h1.watchdogs == h.watchdogs
    && h1.control == h.control.(queued := h.control.queued + [p.Id()])
    && h1.pending == h.pending[p.Id() := p]
    && h1.states == h.states[p.Id() := UnitState("viper-box-" + p.Id(), QUEUED, "", 0, 0)]
  }

  /** One Box more that runs, and nothing else. */
  ghost predicate Added(h: Helper, h1: Helper, p: SpawnParams, host: Host) {
    && h1.gateways == h.gateways && h1.pending == h.pending && RunsAs(h1, p, host)
    && h1.states - {p.Id()} == h.states
    && h1.control == h.control.(active := h.control.active + {p.Id()})
    && h1.watchdogs == h.watchdogs + multiset{p.Id()}
  }

  /** Refused before admission. */
  ghost predicate Unqueueable(h: Helper, p: SpawnParams, live: set<string>) {
    !Wellformed(p) || p.Id() in h.states || !NetworkOk(p, h.gateways, live)
  }

  /** The answer to a spawn request and the state after it, by plain conditions on the request, the records, the
      slots and the host. */
  ghost predicate SpawnAnswered(h: Helper, p: SpawnParams, live: set<string>, host: Host, h1: Helper,
                                reply: Result<SpawnReply, string>) {
    if Unqueueable(h, p, live) then
      h1 == h && reply.Failure? && QueueRefusedAs(p, h.states, h.gateways, live, reply.error)
    else if p.Id() in h.control.active then h1 == h && reply == Failure("ERR_DUPLICATE_BOX")
    else if h.control.queued != [] || |h.control.active| == h.control.limit then
      Joined(h, h1, p) && reply == Success(Waiting(p.Id(), "viper-box-" + p.Id(), |h.control.queued| + 1))
    else if Startable(p, h.gateways, host) then
      && Added(h, h1, p, host) && reply.Success? && reply.value.Started?
      && reply.value.boxId == p.Id() && reply.value.unit == "viper-box-" + p.Id()
      && PlanOk(p, h.gateways, reply.value.plan)
    else h1 == h && reply.Failure? && StartRefusedAs(p, h.states, h.gateways, host, reply.error)
  }

  lemma AdmitsExactly(c: Control, id: BoxId)
    requires c.Valid()
    ensures var (c1, decision) := c.Admit(id);
            if id == "" || id in c.active || id in c.queued then
              c1 == c && decision == Failure("duplicate or invalid Box ID")
            else if c.queued != [] || |c.active| == c.limit then
              c1 == c.(queued := c.queued + [id]) && decision == Success(Queued(|c.queued| + 1))
            else c1 == c.(active := c.active + {id}) && decision == Success(Start)
  {
  }

  lemma SpawnExactly(h: Helper, p: SpawnParams, live: set<string>, host: Host)
    requires Linked(h)
    ensures var (h1, reply) := AdmitSpawn(h, p, live, host); SpawnAnswered(h, p, live, host, h1, reply)
  {
    QueuesExactly(p, h.states, h.gateways, live);
    if QueueableSpawn(p, h.states, h.gateways, live).Success? {
      assert Entry(h, p.Id());
      AdmitsExactly(h.control, p.Id());
      AdmittedExactly(h, p, live, host);
    }
  }

  lemma AdmittedExactly(h: Helper, p: SpawnParams, live: set<string>, host: Host)
    requires Linked(h) && !Unqueueable(h, p, live) && QueueableSpawn(p, h.states, h.gateways, live).Success?
    requires QueueableSpawn(p, h.states, h.gateways, live).value == "viper-box-" + p.Id()
    requires p.Id() !in h.control.queued
    ensures var (h1, reply) := AdmitSpawn(h, p, live, host); SpawnAnswered(h, p, live, host, h1, reply)
  {
    AdmitsExactly(h.control, p.Id());
    if h.control.Admit(p.Id()).1 == Success(Start) {
      StartedExactly(h, p, live, host);
    }
  }

  lemma StartedExactly(h: Helper, p: SpawnParams, live: set<string>, host: Host)
    requires Linked(h) && !Unqueueable(h, p, live) && QueueableSpawn(p, h.states, h.gateways, live).Success?
    requires h.control.Admit(p.Id()).1 == Success(Start)
    ensures var (h1, reply) := AdmitSpawn(h, p, live, host); SpawnAnswered(h, p, live, host, h1, reply)
  {
    StartsExactly(p, h.states, h.gateways, host);
    StartRefusal(p, h.states, h.gateways, host);
    AdmitUndone(h.control, p.Id());
  }

  // ---- ending a Box ----

  /** What ending a Box is answered and leaves: its record marked and its slot free, then, if it held one, a drain. */
  ghost predicate Ended(h: Helper, id: BoxId, status: Status, hosts: BoxId -> Host, h1: Helper,
                        started: seq<DrainEntry>)
    requires id in h.states
  {
    var marked := h.(states := h.states[id := h.states[id].(status := status)],
                     control := h.control.(active := h.control.active - {id}));
    if id in h.control.active then
      && (h1, started) == DrainQueue(marked, hosts)
      && Drained(marked, h1, started) && AllServed(marked, h1, hosts, started)
    else h1 == marked && started == []
  }

  lemma EndsExactly(h: Helper, id: BoxId, status: Status, hosts: BoxId -> Host)
    requires Linked(h) && Conserving(h) && id in h.states && h.states[id].status != QUEUED
    requires status == KILLED || status == TIMED_OUT
    ensures var (h1, started) := EndBox(h, id, status, hosts); Ended(h, id, status, hosts, h1, started)
  {
    MarkEnded(h, id, status);
    DrainKeeps(Marked(h, id, status), hosts);
    DrainExactly(Marked(h, id, status), hosts);
  }

  /** No Box has that handle. */
  ghost predicate Unknown(h: Helper, handle: string) {
    forall id :: id in h.states ==> handle != HandleOf(id)
  }

  lemma UnknownExactly(h: Helper, handle: string)
    requires Linked(h)
    ensures Unknown(h, handle) <==>
              UnitOf(handle).None?
              || (FindUnit(h.states, UnitOf(handle).value).None? && FindQueued(h.states, UnitOf(handle).value).None?)
  {
    if UnitOf(handle).Some? {
      var unit := UnitOf(handle).value;
      assert handle == "systemd:" + unit;
      forall id ensures Names(h.states, unit, id) <==> id in h.states && handle == HandleOf(id) {
        assert Entry(h, id);
        HandleNames(id);
        assert "systemd:" + UnitName(id) == HandleOf(id);
      }
    } else {
      forall id ensures handle != HandleOf(id) {
        HandleNames(id);
      }
    }
  }

  /** A waiting Box is out of the queue, with its parameters and its record; nothing else changes. */
  ghost predicate Left(h: Helper, h1: Helper, id: BoxId) {
    && h1.gateways == h.gateways && h1.watchdogs == h.watchdogs
    && h1.pending == h.pending - {id} && h1.states == h.states - {id}
    && h1.control.limit == h.control.limit && h1.control.active == h.control.active
    && exists k :: 0 <= k < |h.control.queued| && h.control.queued[k] == id
                   && h1.control.queued == h.control.queued[..k] + h.control.queued[k + 1..]
  }

  lemma CancelsExactly(h: Helper, id: BoxId)
    requires Linked(h) && HasStatus(h, id, QUEUED)
    ensures Left(h, CancelQueuedBox(h, id), id) && id in h.control.queued
  {
    assert Entry(h, id);
  }

  /** What a kill of the Box with that handle is answered and leaves. */
  ghost predicate KillAnswered(h: Helper, id: BoxId, stopped: bool, hosts: BoxId -> Host, h1: Helper,
                               reply: Result<StopReply, string>)
    requires id in h.states
  {
    if h.states[id].status == QUEUED then Left(h, h1, id) && reply == Success(Cancelled(id, true))
    else if !stopped then h1 == h && reply == Failure("ERR_KILL_FAILED")
    else reply.Success? && reply.value.Stopped? && Ended(h, id, KILLED, hosts, h1, reply.value.started)
  }

  lemma NamedByHandle(h: Helper, id: BoxId)
    requires Linked(h) && id in h.states
    ensures UnitOf(HandleOf(id)) == Some(UnitName(id)) && FindUnit(h.states, UnitName(id)) == Some(id)
    ensures FindQueued(h.states, UnitName(id)) == if h.states[id].status == QUEUED then Some(id) else None
  {
    HandleNames(id);
    assert Entry(h, id);
    assert Names(h.states, UnitName(id), id);
    OnlyBox(h, UnitName(id), id);
    assert NamesQueued(h.states, UnitName(id), id) <==> h.states[id].status == QUEUED;
    assert forall other :: NamesQueued(h.states, UnitName(id), other) ==> Names(h.states, UnitName(id), other);
  }

  lemma KillExactly(h: Helper, id: BoxId, stopped: bool, hosts: BoxId -> Host)
    requires Linked(h) && Conserving(h) && id in h.states
    ensures var (h1, reply) := Kill(h, HandleOf(id), stopped, hosts); KillAnswered(h, id, stopped, hosts, h1, reply)
  {
    NamedByHandle(h, id);
    if h.states[id].status == QUEUED {
      CancelsExactly(h, id);
    } else {
      EndsExactly(h, id, KILLED, hosts);
    }
  }

  /** While no slot is free for a waiting Box, a drain takes nothing. */
  lemma NothingToDrain(h: Helper, hosts: BoxId -> Host)
    requires h.control.Valid() && Conserving(h)
    ensures DrainQueue(h, hosts) == (h, [])
  {
    StartNextKeepsValid(h.control);
  }

  /** What a cleanup of the Box with that handle is answered and leaves: its record alone is dropped. The drain that
      follows frees no slot and so takes no Box. */
  ghost predicate CleanupAnswered(h: Helper, id: BoxId, reset: bool, removed: bool, h1: Helper,
                                  reply: Result<StopReply, string>)
    requires id in h.states
  {
    if h.states[id].status == QUEUED then Left(h, h1, id) && reply == Success(Cancelled(id, true))
    else if !reset || !removed then h1 == h && reply == Failure("ERR_CLEANUP_FAILED")
    else h1 == h.(states := h.states - {id}) && reply == Success(Stopped([]))
  }

  lemma WithoutExactly(h: Helper, id: BoxId)
    requires Linked(h)
    ensures Without(h.states, UnitName(id)) == h.states - {id}
  {
    forall other ensures other in Without(h.states, UnitName(id)) <==> other in h.states - {id} {
      if other in h.states {
        assert Entry(h, other);
        if h.states[other].unit == UnitName(id) {
          SameUnit(other, id);
        }
      }
    }
  }

  lemma CleanupExactly(h: Helper, id: BoxId, reset: bool, removed: bool, hosts: BoxId -> Host)
    requires Linked(h) && Conserving(h) && id in h.states
    ensures var (h1, reply) := Cleanup(h, HandleOf(id), reset, removed, hosts);
            CleanupAnswered(h, id, reset, removed, h1, reply)
  {
    NamedByHandle(h, id);
    if h.states[id].status == QUEUED {
      CancelsExactly(h, id);
    } else {
      WithoutExactly(h, id);
      NothingToDrain(h.(states := h.states - {id}), hosts);
    }
  }

  /** A handle of no Box is refused by both, and nothing changes. */
  lemma UnknownIsRefused(h: Helper, handle: string, stopped: bool, reset: bool, removed: bool, hosts: BoxId -> Host)
    requires Linked(h) && Unknown(h, handle)
    ensures Kill(h, handle, stopped, hosts) == (h, Failure("ERR_HANDLE_UNKNOWN"))
    ensures Cleanup(h, handle, reset, removed, hosts) == (h, Failure("ERR_HANDLE_UNKNOWN"))
  {
    UnknownExactly(h, handle);
  }

  /** What a TTL thread leaves: exactly the Box that is STARTING is ended. */
  lemma ExpiresExactly(h: Helper, id: BoxId, hosts: BoxId -> Host)
    requires Linked(h) && Conserving(h) && id in h.watchdogs
    ensures var fired := h.(watchdogs := h.watchdogs - multiset{id});
            if HasStatus(h, id, STARTING) then
              exists started :: Ended(fired, id, TIMED_OUT, hosts, Expire(h, id, hosts), started)
            else Expire(h, id, hosts) == fired
  {
    assert Entry(h, id);
    var fired := h.(watchdogs := h.watchdogs - multiset{id});
    forall other ensures Entry(fired, other) {
      assert Entry(h, other);
    }
    if HasStatus(h, id, STARTING) {
      EndsExactly(fired, id, TIMED_OUT, hosts);
      assert Ended(fired, id, TIMED_OUT, hosts, Expire(h, id, hosts), EndBox(fired, id, TIMED_OUT, hosts).1);
    }
  }

  // ---- whole runs ----

  /** Every Box that waits was let through. */
  ghost predicate QueuedOk(h: Helper) {
    forall id :: id in h.pending ==> Wellformed(h.pending[id])
  }

  ghost predicate PendingFrom(h: Helper, h1: Helper) {
    forall id :: id in h1.pending ==> id in h.pending && h1.pending[id] == h.pending[id]
  }

  lemma KillPends(h: Helper, handle: string, stopped: bool, hosts: BoxId -> Host)
    requires Linked(h) && Conserving(h)
    ensures PendingFrom(h, Kill(h, handle, stopped, hosts).0)
  {
    if Unknown(h, handle) {
      UnknownIsRefused(h, handle, stopped, true, true, hosts);
    } else {
      var id :| id in h.states && handle == HandleOf(id);
      KillExactly(h, id, stopped, hosts);
    }
  }

  lemma CleanupPends(h: Helper, handle: string, reset: bool, removed: bool, hosts: BoxId -> Host)
    requires Linked(h) && Conserving(h)
    ensures PendingFrom(h, Cleanup(h, handle, reset, removed, hosts).0)
  {
    if Unknown(h, handle) {
      UnknownIsRefused(h, handle, true, reset, removed, hosts);
    } else {
      var id :| id in h.states && handle == HandleOf(id);
      CleanupExactly(h, id, reset, removed, hosts);
    }
  }

  lemma ExpirePends(h: Helper, id: BoxId, hosts: BoxId -> Host)
    requires Linked(h) && Conserving(h)
    ensures PendingFrom(h, Expire(h, id, hosts))
  {
    if id in h.watchdogs {
      ExpiresExactly(h, id, hosts);
    }
  }

  lemma StepQueuesOk(h: Helper, e: Event)
    requires Linked(h) && Conserving(h) && QueuedOk(h)
    ensures QueuedOk(Step(h, e))
  {
    match e
    case Spawn(p, live, host) => SpawnExactly(h, p, live, host);
    case Drain(hosts) => NothingToDrain(h, hosts);
    case KillBox(handle, stopped, hosts) => KillPends(h, handle, stopped, hosts);
    case CleanUp(handle, reset, removed, hosts) => CleanupPends(h, handle, reset, removed, hosts);
    case WatchdogFires(id, hosts) => ExpirePends(h, id, hosts);
  }

  lemma {:induction false} EveryRunQueuesOk(limit: nat, gateways: map<string, string>, events: seq<Event>)
    requires 0 < limit
    ensures QueuedOk(Run(Booted(limit, gateways), events))
  {
    if events != [] {
      var before := events[..|events| - 1];
      EveryRunQueuesOk(limit, gateways, before);
      EveryRunKeeps(limit, gateways, before);
      StepQueuesOk(Run(Booted(limit, gateways), before), events[|events| - 1]);
    }
  }

  /** In every run a request to drain finds nothing to start: whatever freed a slot has drained already. */
  lemma DrainRequestIsIdle(limit: nat, gateways: map<string, string>, events: seq<Event>, hosts: BoxId -> Host)
    requires 0 < limit
    ensures var h := Run(Booted(limit, gateways), events); DrainQueue(h, hosts) == (h, [])
  {
    EveryRunKeeps(limit, gateways, events);
    NothingToDrain(Run(Booted(limit, gateways), events), hosts);
  }

  /** The Box `i` places back in the queue of `h` is launched exactly if the host can start it, its gateways are live
      and its backend requirements are enforceable. */
  ghost predicate LaunchedExactly(h: Helper, hosts: BoxId -> Host, entries: seq<DrainEntry>, i: nat) {
    && i < |entries| && i < |h.control.queued| && h.control.queued[i] in h.pending
    && var id := h.control.queued[i]; var p := h.pending[id];
    && (entries[i] == Launched(id) <==>
          HostOk(hosts(id)) && NetworkOk(p, h.gateways, hosts(id).liveSockets) && BackendOk(p))
    && (entries[i] != Launched(id) ==> entries[i].RejectedFromQueue? && entries[i].boxId == id)
  }

  lemma ServedIsLaunched(h: Helper, h1: Helper, hosts: BoxId -> Host, entries: seq<DrainEntry>, i: nat)
    requires Linked(h) && QueuedOk(h) && Served(h, h1, hosts, entries, i)
    ensures LaunchedExactly(h, hosts, entries, i)
  {
    assert Entry(h, h.control.queued[i]);
  }

  /** In every run, for every Box that a kill takes from the queue. */
  lemma KillLaunches(limit: nat, gateways: map<string, string>, events: seq<Event>, id: BoxId, hosts: BoxId -> Host,
                     i: nat)
    requires 0 < limit && HasStatus(Run(Booted(limit, gateways), events), id, STARTING)
    ensures var h := Run(Booted(limit, gateways), events);
            var reply := Kill(h, HandleOf(id), true, hosts).1;
            && reply.Success? && reply.value.Stopped?
            && (i < |reply.value.started| ==> LaunchedExactly(h, hosts, reply.value.started, i))
  {
    var h := Run(Booted(limit, gateways), events);
    EveryRunKeeps(limit, gateways, events);
    EveryRunQueuesOk(limit, gateways, events);
    KillExactly(h, id, true, hosts);
    EndedLaunches(h, id, KILLED, hosts, Kill(h, HandleOf(id), true, hosts).0,
                  Kill(h, HandleOf(id), true, hosts).1.value.started, i);
  }

  lemma EndedLaunches(h: Helper, id: BoxId, status: Status, hosts: BoxId -> Host, h1: Helper,
                      started: seq<DrainEntry>, i: nat)
    requires Linked(h) && QueuedOk(h) && HasStatus(h, id, STARTING) && (status == KILLED || status == TIMED_OUT)
    requires Ended(h, id, status, hosts, h1, started)
    ensures i < |started| ==> LaunchedExactly(h, hosts, started, i)
  {
    assert Entry(h, id);
    MarkEnded(h, id, status);
    if i < |started| {
      assert Served(Marked(h, id, status), h1, hosts, started, i);
      ServedIsLaunched(Marked(h, id, status), h1, hosts, started, i);
    }
  }

  /** And of a watchdog. */
  lemma ExpiryLaunches(limit: nat, gateways: map<string, string>, events: seq<Event>, id: BoxId, hosts: BoxId -> Host)
    requires 0 < limit && HasStatus(Run(Booted(limit, gateways), events), id, STARTING)
    ensures var h := Run(Booted(limit, gateways), events); var h1 := Expire(h, id, hosts);
            exists started :: Ended(h.(watchdogs := h.watchdogs - multiset{id}), id, TIMED_OUT, hosts, h1, started)
                              && forall i: nat :: i < |started| ==> LaunchedExactly(h, hosts, started, i)
  {
    var h := Run(Booted(limit, gateways), events);
    EveryRunKeeps(limit, gateways, events);
    EveryRunQueuesOk(limit, gateways, events);
    EveryRunIsWatched(limit, gateways, events);
    ExpiresExactly(h, id, hosts);
    var fired := h.(watchdogs := h.watchdogs - multiset{id});
    var started :| Ended(fired, id, TIMED_OUT, hosts, Expire(h, id, hosts), started);
    FiredKeeps(h, id);
    forall i: nat | i < |started| ensures LaunchedExactly(h, hosts, started, i) {
      EndedLaunches(fired, id, TIMED_OUT, hosts, Expire(h, id, hosts), started, i);
      assert LaunchedExactly(fired, hosts, started, i);
    }
  }

  lemma FiredKeeps(h: Helper, id: BoxId)
    requires Linked(h)
    ensures Linked(h.(watchdogs := h.watchdogs - multiset{id}))
  {
    forall other ensures Entry(h.(watchdogs := h.watchdogs - multiset{id}), other) {
      assert Entry(h, other);
    }
  }
}
