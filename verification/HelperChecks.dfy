/** Which requests the helper accepts (src/bin/viper-helper.rs): the chains of early returns against plain
    conditions. */
module HelperChecks {
  import opened Outcomes
  import opened Text
  import opened Admission
  import opened HelperModel

  ghost predicate LimitsOk(p: SpawnParams) {
    && p.cpuQuotaPercent.Some? && 1 <= p.cpuQuotaPercent.value <= 100
    && p.memoryLimitBytes.Some? && 1 <= p.memoryLimitBytes.value <= 1125899906842624
  }

  ghost predicate DurationsOk(p: SpawnParams) {
    && (p.ttlSeconds.Some? ==> 1 <= p.ttlSeconds.value <= 86400)
    && (p.sleepSeconds.Some? ==> 1 <= p.sleepSeconds.value <= 300)
  }

  ghost predicate FilesystemOk(p: SpawnParams) {
    p.filesystemMode == Some("STRICT") && p.writeTarget == Some("scratch")
  }

  ghost predicate Reachable(gateways: map<string, string>, live: set<string>, ref: string) {
    ref in gateways && gateways[ref] in live
  }

  ghost predicate ModeOk(p: SpawnParams) {
    p.networkMode in {None, Some("DENY"), Some("GATEWAY_ONLY")}
  }

  /** No network unless asked for; only `GATEWAY_ONLY` with at least one gateway, all of them live. */
  ghost predicate NetworkOk(p: SpawnParams, gateways: map<string, string>, live: set<string>) {
    || p.networkMode == None || p.networkMode == Some("DENY")
    || (p.networkMode == Some("GATEWAY_ONLY") && p.gatewayRefs != []
        && forall ref :: ref in p.gatewayRefs ==> Reachable(gateways, live, ref))
  }

  /** The requirements that the helper's own unit properties meet. */
  const ENFORCEABLE := {"systemd", "systemd_run", "mount_namespace", "network_policy", "cgroup_limits"}

  ghost predicate BackendOk(p: SpawnParams) {
    forall requirement :: requirement in p.requiredBackend ==> requirement in ENFORCEABLE
  }

  ghost predicate HostOk(host: Host) {
    host.commands && host.createDir && host.startUnit
  }

  /** Every reference resolves to its own live socket, in order, or the whole plan fails. */
  lemma {:induction false} ResolvesExactly(refs: seq<string>, gateways: map<string, string>, live: set<string>)
    ensures ResolveSockets(refs, gateways, live).Success? <==>
              forall ref :: ref in refs ==> Reachable(gateways, live, ref)
    ensures match ResolveSockets(refs, gateways, live)
            case Failure(code) => code == "ERR_NETWORK_SETUP"
            case Success(sockets) =>
              |sockets| == |refs|
              && forall i :: 0 <= i < |refs| ==> refs[i] in gateways && sockets[i] == (refs[i], gateways[refs[i]])
  {
    if refs != [] {
      ResolvesExactly(refs[1..], gateways, live);
      var here := Reachable(gateways, live, refs[0]);
      assert refs[0] in refs;
      assert forall ref :: ref in refs <==> ref == refs[0] || ref in refs[1..];
    }
  }

  /** The plan of a request whose references resolve: no sockets, or each gateway's own, in order. */
  ghost predicate PlanOk(p: SpawnParams, gateways: map<string, string>, plan: NetworkPlan) {
    if p.networkMode == Some("GATEWAY_ONLY") then
      && plan.mode == "GATEWAY_ONLY" && |plan.sockets| == |p.gatewayRefs|
      && forall i :: 0 <= i < |p.gatewayRefs| ==>
           p.gatewayRefs[i] in gateways && plan.sockets[i] == (p.gatewayRefs[i], gateways[p.gatewayRefs[i]])
    else plan == NetworkPlan("DENY", [])
  }

  lemma NetworkExactly(p: SpawnParams, gateways: map<string, string>, live: set<string>)
    ensures match ResolveNetwork(p, gateways, live)
            case Success(plan) => NetworkOk(p, gateways, live) && PlanOk(p, gateways, plan)
            case Failure(code) =>
              !NetworkOk(p, gateways, live) && code == if ModeOk(p) then "ERR_NETWORK_SETUP" else "FAIL_CLOSED"
  {
    ResolvesExactly(p.gatewayRefs, gateways, live);
  }

  lemma LimitsExactly(p: SpawnParams)
    ensures match ResourceLimits(p)
            case Success((cpu, memory)) =>
              LimitsOk(p) && Some(cpu) == p.cpuQuotaPercent && Some(memory) == p.memoryLimitBytes
            case Failure(code) => !LimitsOk(p) && code == "ERR_LIMIT_SETUP"
  {
  }

  lemma BackendExactly(p: SpawnParams)
    ensures BackendOk(p) <==>
              !exists i :: 0 <= i < |p.requiredBackend| && !EnforceableBackendRequirement(p.requiredBackend[i])
  {
    assert forall i :: 0 <= i < |p.requiredBackend| ==> p.requiredBackend[i] in p.requiredBackend;
  }

  /** Everything `spawn_box` asks of a request and of the host. */
  ghost predicate Startable(p: SpawnParams, gateways: map<string, string>, host: Host) {
    && IdOk(p.Id())
    && LimitsOk(p) && DurationsOk(p) && FilesystemOk(p) && BackendOk(p)
    && NetworkOk(p, gateways, host.liveSockets) && HostOk(host)
  }

  /** The record of a Box that has just been started. */
  ghost predicate StartedAs(p: SpawnParams, host: Host, u: UnitState) {
    && u.unit == "viper-box-" + p.Id() && u.status == STARTING
    && u.scratchPath == host.runtimeDir + "/viper-boxd-scratch-viper-box-" + p.Id()
    && Some(u.cpu) == p.cpuQuotaPercent && Some(u.memory) == p.memoryLimitBytes
  }

  /** `spawn_box` starts a Box exactly under these conditions, with the limits and the network that were asked
      for. */
  lemma StartsExactly(p: SpawnParams, states: States, gateways: map<string, string>, host: Host)
    ensures match SpawnBox(p, states, gateways, host)
            case Failure(_) => !Startable(p, gateways, host) || p.Id() in states
            case Success((u, plan)) =>
              && Startable(p, gateways, host) && p.Id() !in states
              && StartedAs(p, host, u) && PlanOk(p, gateways, plan)
  {
    IdExactly(p.Id());
    LimitsExactly(p);
    NetworkExactly(p, gateways, host.liveSockets);
    BackendExactly(p);
  }

  /** The answer names the first check that fails, in the order of the source. */
  ghost predicate StartRefusedAs(p: SpawnParams, states: States, gateways: map<string, string>, host: Host,
                                 code: string) {
    if !LimitsOk(p) then code == "ERR_LIMIT_SETUP"
    else if !ModeOk(p) then code == "FAIL_CLOSED"
    else if !NetworkOk(p, gateways, host.liveSockets) then code == "ERR_NETWORK_SETUP"
    else if !IdOk(p.Id()) then code == "ERR_INVALID_REQUEST"
    else if !BackendOk(p) then code == "FAIL_CLOSED"
    else if !DurationsOk(p) then code == "ERR_INVALID_REQUEST"
    else if p.Id() in states then code == "ERR_DUPLICATE_BOX"
    else if !host.commands then code == "ERR_CAPABILITY_UNAVAILABLE"
    else if !FilesystemOk(p) || !host.createDir then code == "ERR_MOUNT_SETUP"
    else !host.startUnit && code == "ERR_EXECUTION_START"
  }

  lemma StartRefusal(p: SpawnParams, states: States, gateways: map<string, string>, host: Host)
    ensures match SpawnBox(p, states, gateways, host)
            case Failure(code) => StartRefusedAs(p, states, gateways, host, code)
            case Success(_) => true
  {
    IdExactly(p.Id());
    LimitsExactly(p);
    NetworkExactly(p, gateways, host.liveSockets);
    BackendExactly(p);
  }

  /** Everything `queueable_spawn` asks of a request, besides its gateways being there. */
  ghost predicate Wellformed(p: SpawnParams) {
    IdOk(p.Id()) && LimitsOk(p) && DurationsOk(p) && FilesystemOk(p)
  }

  /** `queueable_spawn` lets a request through exactly under these; the backend requirements are not asked. */
  lemma QueuesExactly(p: SpawnParams, states: States, gateways: map<string, string>, live: set<string>)
    ensures match QueueableSpawn(p, states, gateways, live)
            case Success(unit) =>
              Wellformed(p) && p.Id() !in states && NetworkOk(p, gateways, live) && unit == "viper-box-" + p.Id()
            case Failure(code) => QueueRefusedAs(p, states, gateways, live, code)
  {
    IdExactly(p.Id());
    LimitsExactly(p);
    NetworkExactly(p, gateways, live);
  }

  ghost predicate QueueRefusedAs(p: SpawnParams, states: States, gateways: map<string, string>, live: set<string>,
                                 code: string) {
    if !IdOk(p.Id()) then code == "ERR_INVALID_REQUEST"
    else if p.Id() in states then code == "ERR_DUPLICATE_BOX"
    else if !DurationsOk(p) then code == "ERR_INVALID_REQUEST"
    else if !LimitsOk(p) then code == "ERR_LIMIT_SETUP"
    else if !ModeOk(p) then code == "FAIL_CLOSED"
    else if !NetworkOk(p, gateways, live) then code == "ERR_NETWORK_SETUP"
    else !FilesystemOk(p) && code == "ERR_MOUNT_SETUP"
  }

  /** A Box that was let through and waited can be rejected from the queue for three reasons only: the host
      fails, a gateway has gone, or it asks for a backend that was never enforceable. */
  lemma RejectedFromQueueBecause(p: SpawnParams, earlier: States, live: set<string>, now: States,
                                 gateways: map<string, string>, host: Host)
    requires QueueableSpawn(p, earlier, gateways, live).Success? && p.Id() !in now
    ensures SpawnBox(p, now, gateways, host).Failure? <==>
              !HostOk(host) || !NetworkOk(p, gateways, host.liveSockets) || !BackendOk(p)
  {
    QueuesExactly(p, earlier, gateways, live);
    StartsExactly(p, now, gateways, host);
  }
}
