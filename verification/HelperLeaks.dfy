/** A cleanup that comes too early (src/bin/viper-helper.rs): with atomic handlers the record goes and the slot
    stays taken, so that two concrete requests are enough to lose a slot for good. HelperDrops says when it does
    in every interleaving. */
module HelperLeaks {
  import opened Outcomes
  import opened Admission
  import opened HelperModel
  import opened HelperChecks
  import opened HelperRuns

  /** One Box, started, nothing queued. */
  ghost predicate OneBox(h: Helper, id: BoxId) {
    && h.control.active == {id} && h.control.queued == []
    && h.states.Keys == {id} && h.states[id].unit == UnitName(id) && h.states[id].status == STARTING
  }

  lemma FirstSpawn(limit: nat, gateways: map<string, string>, p: SpawnParams, live: set<string>, host: Host)
    requires 0 < limit
    requires QueueableSpawn(p, map[], gateways, live).Success? && SpawnBox(p, map[], gateways, host).Success?
    ensures OneBox(AdmitSpawn(Booted(limit, gateways), p, live, host).0, p.Id())
  {
  }

  lemma CleanedAtOnce(h: Helper, id: BoxId, hosts: BoxId -> Host)
    requires OneBox(h, id)
    ensures var (h1, reply) := Cleanup(h, HandleOf(id), true, true, hosts);
            reply.Success? && h1.control.active == {id} && h1.states == map[]
    ensures DroppedWhileStarting(h, UnitName(id)) == {id}
  {
    HandleNames(id);
    assert Names(h.states, UnitName(id), id);
    assert Without(h.states, UnitName(id)) == map[];
    var dropped := DroppedWhileStarting(h, UnitName(id));
    assert id in dropped;
  }

  /** Whatever Box is spawned first and cleaned at once: it was cleaned too early, and its slot is held by no
      STARTING Box, in every helper and for every outcome of the host. */
  lemma EarlyCleanupLeaks(limit: nat, gateways: map<string, string>, p: SpawnParams, live: set<string>, host: Host,
                          hosts: BoxId -> Host)
    requires 0 < limit
    requires QueueableSpawn(p, map[], gateways, live).Success? && SpawnBox(p, map[], gateways, host).Success?
    ensures var h0 := Booted(limit, gateways);
            var events := [Spawn(p, live, host), CleanUp(HandleOf(p.Id()), true, true, hosts)];
            && AllCleanedTooEarly(h0, events) == {p.Id()}
            && Run(h0, events).control.active == {p.Id()} && Starting(Run(h0, events)) == {}
  {
    var h0 := Booted(limit, gateways);
    var first, second := Spawn(p, live, host), CleanUp(HandleOf(p.Id()), true, true, hosts);
    var events := [first, second];
    FirstSpawn(limit, gateways, p, live, host);
    CleanedAtOnce(Step(h0, first), p.Id(), hosts);
    HandleNames(p.Id());
    assert events[..1] == [first] && [first][..0] == [];
    assert Run(h0, [first]) == Step(h0, first);
    assert Run(h0, events) == Step(Step(h0, first), second);
    assert AllCleanedTooEarly(h0, [first]) == {};
  }

  const SMALL := SpawnParams(Some("a"), [], None, None, Some(1), Some(1), None, [], Some("STRICT"), Some("scratch"))
  const WILLING := Host({}, true, "", true, true)

  lemma SmallBoxStarts()
    ensures QueueableSpawn(SMALL, map[], map[], {}).Success? && SpawnBox(SMALL, map[], map[], WILLING).Success?
  {
    QueuesExactly(SMALL, map[], map[], {});
    StartsExactly(SMALL, map[], map[], WILLING);
  }

  /** Two requests that leave a helper of one slot with none to give. */
  lemma OneSlotLost(hosts: BoxId -> Host)
    ensures var h := Run(Booted(1, map[]), [Spawn(SMALL, {}, WILLING), CleanUp(HandleOf("a"), true, true, hosts)]);
            h.control.active == {"a"} && Starting(h) == {}
  {
    SmallBoxStarts();
    EarlyCleanupLeaks(1, map[], SMALL, {}, WILLING, hosts);
  }
}
