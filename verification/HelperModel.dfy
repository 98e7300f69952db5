/** The helper's lifecycle machine (src/bin/viper-helper.rs) on values: every handler and every watchdog
    firing is one step. `systemctl`, `systemd-run`, socket probes and scratch directories answer through
    oracle arguments. */
module HelperModel {
  import opened Outcomes
  import opened Text
  import opened Admission

  // ---- requests and records ----

  /** The members of the request parameters that the helper reads; `None` when absent or of another type. */
  datatype SpawnParams = SpawnParams(
    boxId: Option<string>,
    requiredBackend: seq<string>,
    ttlSeconds: Option<nat>,
    sleepSeconds: Option<nat>,
    cpuQuotaPercent: Option<nat>,
    memoryLimitBytes: Option<nat>,
    networkMode: Option<string>,
    gatewayRefs: seq<string>,
    filesystemMode: Option<string>,
    writeTarget: Option<string>)
  {
    function Id(): BoxId { boxId.GetOr("") }
  }

  datatype Status = STARTING | ACTIVE | QUEUED | KILLED | TIMED_OUT

  datatype UnitState = UnitState(unit: string, status: Status, scratchPath: string, cpu: nat, memory: nat)

  type States = map<BoxId, UnitState>

  /** What the host answers during one call of `spawn_box`. */
  datatype Host = Host(liveSockets: set<string>, commands: bool, runtimeDir: string, createDir: bool, startUnit: bool)

  datatype NetworkPlan = NetworkPlan(mode: string, sockets: seq<(string, string)>)

  datatype SpawnReply =
    | Started(boxId: BoxId, unit: string, plan: NetworkPlan)
    | Waiting(boxId: BoxId, unit: string, position: nat)

  datatype DrainEntry = Launched(boxId: BoxId) | RejectedFromQueue(boxId: BoxId, code: string)

  datatype StopReply =
    | Cancelled(boxId: BoxId, found: bool)
    | Stopped(started: seq<DrainEntry>)

  /** `watchdogs` holds one entry per TTL thread that has not fired yet. */
  datatype Helper = Helper(
    gateways: map<string, string>,
    control: Control,
    pending: map<BoxId, SpawnParams>,
    states: States,
    watchdogs: multiset<BoxId>)

  // ---- checks ----

  const MAX_MEMORY: nat := 0x4_0000_0000_0000

  function UnitName(id: BoxId): string {
    "viper-box-" + id
  }

  function SafeUnitName(id: BoxId): Option<string> {
    if IsBoxIdText(id) then Some(UnitName(id)) else None
  }

  function ResourceLimits(p: SpawnParams): Result<(nat, nat), string> {
    if p.cpuQuotaPercent.None? || p.memoryLimitBytes.None? then Failure("ERR_LIMIT_SETUP")
    else if !(1 <= p.cpuQuotaPercent.value <= 100) then Failure("ERR_LIMIT_SETUP")
    else if p.memoryLimitBytes.value == 0 || p.memoryLimitBytes.value > MAX_MEMORY then Failure("ERR_LIMIT_SETUP")
    else Success((p.cpuQuotaPercent.value, p.memoryLimitBytes.value))
  }

  function ResolveSockets(refs: seq<string>, gateways: map<string, string>, live: set<string>)
    : Result<seq<(string, string)>, string>
  {
    if refs == [] then Success([])
    else if refs[0] !in gateways || gateways[refs[0]] !in live then Failure("ERR_NETWORK_SETUP")
    else match ResolveSockets(refs[1..], gateways, live)
      case Failure(code) => Failure(code)
      case Success(rest) => Success([(refs[0], gateways[refs[0]])] + rest)
  }

  function ResolveNetwork(p: SpawnParams, gateways: map<string, string>, live: set<string>)
    : Result<NetworkPlan, string>
  {
    var mode := p.networkMode.GetOr("DENY");
    if mode == "DENY" then Success(NetworkPlan("DENY", []))
    else if mode == "GATEWAY_ONLY" then
      if p.gatewayRefs == [] then Failure("ERR_NETWORK_SETUP")
      else match ResolveSockets(p.gatewayRefs, gateways, live)
        case Failure(code) => Failure(code)
        case Success(sockets) => Success(NetworkPlan("GATEWAY_ONLY", sockets))
    else Failure("FAIL_CLOSED")
  }

  predicate EnforceableBackendRequirement(requirement: string) {
    || requirement == "systemd" || requirement == "systemd_run" || requirement == "mount_namespace"
    || requirement == "network_policy" || requirement == "cgroup_limits"
  }

  predicate ValidDuration(seconds: Option<nat>, limit: nat) {
    1 <= seconds.GetOr(10) <= limit
  }

  /** `spawn_box` up to its insertion into `states`: the record to insert, and the network plan. */
  function SpawnBox(p: SpawnParams, states: States, gateways: map<string, string>, host: Host)
    : (r: Result<(UnitState, NetworkPlan), string>)
    ensures r.Success? ==> IsBoxIdText(p.Id()) && p.Id() !in states
    ensures r.Success? ==>
              && r.value.0.unit == UnitName(p.Id()) && r.value.0.status == STARTING
              && 1 <= r.value.0.cpu <= 100 && 1 <= r.value.0.memory <= MAX_MEMORY
    ensures r.Success? ==> host.createDir && host.startUnit && host.commands
  {
    match ResourceLimits(p)
    case Failure(code) => Failure(code)
    case Success((cpu, memory)) =>
      match ResolveNetwork(p, gateways, host.liveSockets)
      case Failure(code) => Failure(code)
      case Success(plan) =>
        if SafeUnitName(p.Id()).None? then Failure("ERR_INVALID_REQUEST")
        else if exists i :: 0 <= i < |p.requiredBackend| && !EnforceableBackendRequirement(p.requiredBackend[i])
        then Failure("FAIL_CLOSED")
        else if !ValidDuration(p.ttlSeconds, 86400) then Failure("ERR_INVALID_REQUEST")
        else if !ValidDuration(p.sleepSeconds, 300) then Failure("ERR_INVALID_REQUEST")
        else if p.Id() in states then Failure("ERR_DUPLICATE_BOX")
        else if !host.commands then Failure("ERR_CAPABILITY_UNAVAILABLE")
        else if p.filesystemMode != Some("STRICT") || p.writeTarget != Some("scratch") || !host.createDir
        then Failure("ERR_MOUNT_SETUP")
        else if !host.startUnit then Failure("ERR_EXECUTION_START")
        else
          var unit := SafeUnitName(p.Id()).value;
          Success((UnitState(unit, STARTING, host.runtimeDir + "/viper-boxd-scratch-" + unit, cpu, memory), plan))
  }

  function QueueableSpawn(p: SpawnParams, states: States, gateways: map<string, string>, live: set<string>)
    : (r: Result<string, string>)
    ensures r.Success? ==> IsBoxIdText(p.Id()) && p.Id() !in states && r.value == UnitName(p.Id())
  {
    if SafeUnitName(p.Id()).None? then Failure("ERR_INVALID_REQUEST")
    else if p.Id() in states then Failure("ERR_DUPLICATE_BOX")
    else if !ValidDuration(p.ttlSeconds, 86400) || !ValidDuration(p.sleepSeconds, 300)
    then Failure("ERR_INVALID_REQUEST")
    else match ResourceLimits(p)
      case Failure(code) => Failure(code)
      case Success(_) =>
        match ResolveNetwork(p, gateways, live)
        case Failure(code) => Failure(code)
        case Success(_) =>
          if p.filesystemMode != Some("STRICT") || p.writeTarget != Some("scratch") then Failure("ERR_MOUNT_SETUP")
          else Success(SafeUnitName(p.Id()).value)
  }

  // ---- steps ----

  function Record(h: Helper, id: BoxId, u: UnitState): Helper {
    h.(states := h.states[id := u], watchdogs := h.watchdogs + multiset{id})
  }

  function AdmitSpawn(h: Helper, p: SpawnParams, live: set<string>, host: Host): (Helper, Result<SpawnReply, string>) {
    match QueueableSpawn(p, h.states, h.gateways, live)
    case Failure(code) => (h, Failure(code))
    case Success(unit) =>
      var (control, decision) := h.control.Admit(p.Id());
      match decision
      case Failure(_) => (h, Failure("ERR_DUPLICATE_BOX"))
      case Success(Start) =>
        (match SpawnBox(p, h.states, h.gateways, host)
         case Success((u, plan)) => (Record(h.(control := control), p.Id(), u), Success(Started(p.Id(), u.unit, plan)))
         case Failure(code) => (h.(control := control.Release(p.Id())), Failure(code)))
      case Success(Queued(position)) =>
        (h.(control := control,
            pending := h.pending[p.Id() := p],
            states := h.states[p.Id() := UnitState(unit, QUEUED, "", 0, 0)]),
         Success(Waiting(p.Id(), unit, position)))
  }

  /** One turn of the drain loop, after `start_next` has reserved a slot for `id`. */
  function Launch(h: Helper, id: BoxId, host: Host): (r: (Helper, seq<DrainEntry>))
    ensures r.0.control.queued == h.control.queued
  {
    if id !in h.pending then (h, [])
    else
      var p := h.pending[id];
      var h1 := h.(pending := h.pending - {id}, states := h.states - {id});
      match SpawnBox(p, h1.states, h1.gateways, host)
      case Success((u, _)) => (Record(h1, p.Id(), u), [Launched(p.Id())])
      case Failure(code) => (h1.(control := h1.control.Release(id)), [RejectedFromQueue(id, code)])
  }

  /** `hosts` answers for each Box ID; a drain never tries one twice. */
  function DrainQueue(h: Helper, hosts: BoxId -> Host): (Helper, seq<DrainEntry>)
    decreases |h.control.queued|
  {
    var (control, next) := h.control.StartNext();
    match next
    case None => (h, [])
    case Some(id) =>
      var (h1, first) := Launch(h.(control := control), id, hosts(id));
      var (h2, rest) := DrainQueue(h1, hosts);
      (h2, first + rest)
  }

  function UnitOf(handle: string): Option<string> {
    match StripPrefix(handle, "systemd:")
    case None => None
    case Some(unit) => if unit == "" then None else Some(unit)
  }

  ghost predicate Names(states: States, unit: string, id: BoxId) {
    id in states && states[id].unit == unit
  }

  ghost predicate NamesQueued(states: States, unit: string, id: BoxId) {
    Names(states, unit, id) && states[id].status == QUEUED
  }

  ghost function FindUnit(states: States, unit: string): (r: Option<BoxId>)
    ensures r.Some? ==> Names(states, unit, r.value)
    ensures r.None? ==> forall id :: !Names(states, unit, id)
  {
    if exists id :: Names(states, unit, id) then var id :| Names(states, unit, id); Some(id) else None
  }

  ghost function FindQueued(states: States, unit: string): (r: Option<BoxId>)
    ensures r.Some? ==> NamesQueued(states, unit, r.value)
    ensures r.None? ==> forall id :: !NamesQueued(states, unit, id)
  {
    if exists id :: NamesQueued(states, unit, id) then var id :| NamesQueued(states, unit, id); Some(id) else None
  }

  function CancelQueuedBox(h: Helper, id: BoxId): Helper {
    h.(control := h.control.CancelQueued(id), pending := h.pending - {id}, states := h.states - {id})
  }

  /** Marks a Box as ended, frees its slot, and drains the queue if it held one. */
  function EndBox(h: Helper, id: BoxId, status: Status, hosts: BoxId -> Host): (Helper, seq<DrainEntry>) {
    var states := if id in h.states then h.states[id := h.states[id].(status := status)] else h.states;
    var h1 := h.(states := states, control := h.control.Release(id));
    if id in h.control.active then DrainQueue(h1, hosts) else (h1, [])
  }

  ghost function Kill(h: Helper, handle: string, stopped: bool, hosts: BoxId -> Host)
    : (Helper, Result<StopReply, string>)
  {
    match UnitOf(handle)
    case None => (h, Failure("ERR_HANDLE_UNKNOWN"))
    case Some(unit) =>
      match FindQueued(h.states, unit)
      case Some(id) => (CancelQueuedBox(h, id), Success(Cancelled(id, id in h.control.queued)))
      case None =>
        match FindUnit(h.states, unit)
        case None => (h, Failure("ERR_HANDLE_UNKNOWN"))
        case Some(id) =>
          if !stopped then (h, Failure("ERR_KILL_FAILED"))
          else
            var (h1, started) := EndBox(h, id, KILLED, hosts);
            (h1, Success(Stopped(started)))
  }

  function Without(states: States, unit: string): States {
    map id | id in states && states[id].unit != unit :: states[id]
  }

  ghost function Cleanup(h: Helper, handle: string, reset: bool, removed: bool, hosts: BoxId -> Host)
    : (Helper, Result<StopReply, string>)
  {
    match UnitOf(handle)
    case None => (h, Failure("ERR_HANDLE_UNKNOWN"))
    case Some(unit) =>
      match FindQueued(h.states, unit)
      case Some(id) => (CancelQueuedBox(h, id), Success(Cancelled(id, id in h.control.queued)))
      case None =>
        if FindUnit(h.states, unit).None? then (h, Failure("ERR_HANDLE_UNKNOWN"))
        else if !reset || !removed then (h, Failure("ERR_CLEANUP_FAILED"))
        else
          var (h1, started) := DrainQueue(h.(states := Without(h.states, unit)), hosts);
          (h1, Success(Stopped(started)))
  }

  /** The TTL thread of `id` wakes up. */
  function Expire(h: Helper, id: BoxId, hosts: BoxId -> Host): Helper {
    if id !in h.watchdogs then h
    else
      var h1 := h.(watchdogs := h.watchdogs - multiset{id});
      if id in h1.states && (h1.states[id].status == STARTING || h1.states[id].status == ACTIVE)
      then EndBox(h1, id, TIMED_OUT, hosts).0
      else h1
  }

  // ---- what every step keeps ----

  ghost predicate HasStatus(h: Helper, id: BoxId, status: Status) {
    id in h.states && h.states[id].status == status
  }

  /** The links between the controller, `pending` and `states`, for one Box ID. */
  ghost predicate Entry(h: Helper, id: BoxId) {
    && (id in h.pending <==> id in h.control.queued)
    && (HasStatus(h, id, QUEUED) <==> id in h.control.queued)
    && (HasStatus(h, id, STARTING) ==> id in h.control.active)
    && (HasStatus(h, id, KILLED) || HasStatus(h, id, TIMED_OUT) ==> id !in h.control.active)
    && (id in h.states ==> Sound(id, h.states[id]))
    && (id in h.pending ==> h.pending[id].Id() == id)
  }

  ghost predicate Linked(h: Helper) {
    h.control.Valid() && forall id :: Entry(h, id)
  }

  ghost predicate Sound(id: BoxId, u: UnitState) {
    && u.unit == UnitName(id)
    && u.status != ACTIVE
    && u.cpu <= 100 && u.memory <= MAX_MEMORY
  }

  /** A waiting Box means that no slot is free. */
  ghost predicate Conserving(h: Helper) {
    h.control.queued == [] || |h.control.active| == h.control.limit
  }

  ghost function Starting(h: Helper): set<BoxId> {
    set id | id in h.states && h.states[id].status == STARTING
  }

  /** Slots held by no STARTING Box. */
  ghost function Leaked(h: Helper): set<BoxId> {
    h.control.active - Starting(h)
  }

  lemma SameUnit(a: BoxId, b: BoxId)
    requires UnitName(a) == UnitName(b)
    ensures a == b
  {
    assert a == UnitName(a)[|"viper-box-"|..] && b == UnitName(b)[|"viper-box-"|..];
  }

  /** The handle that a client is given. */
  function HandleOf(id: BoxId): string {
    "systemd:viper-box-" + id
  }

  lemma HandleNames(id: BoxId)
    ensures UnitOf(HandleOf(id)) == Some(UnitName(id))
  {
    var handle := HandleOf(id);
    assert handle[..|"systemd:"|] == "systemd:" && handle[|"systemd:"|..] == UnitName(id);
  }

  /** A unit, hence a handle, names at most one Box. */
  lemma OneBoxPerUnit(h: Helper, unit: string, a: BoxId, b: BoxId)
    requires Linked(h) && Names(h.states, unit, a) && Names(h.states, unit, b)
    ensures a == b
  {
    assert Entry(h, a) && Entry(h, b);
    SameUnit(a, b);
  }
}
