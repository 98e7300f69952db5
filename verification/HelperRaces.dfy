/** Interleavings of the helper's threads that can go wrong: a slot freed by a late watchdog, a mark set after a
    reservation, a waiting Box that nobody will start, a cancellation that loses its Box between two looks, and an
    early cleanup whose slot comes back. Each is a run of HelperThreads given turn by turn; HelperPanics,
    HelperSlots, HelperPending and HelperDrops say of every run exactly when the like of it happens. */
module HelperRaces {
  import opened Admission
  import opened AdmissionOrder
  import opened HelperThreads

  ghost predicate Reachable(limit: nat, w: World) {
    exists turns :: Run(Boot(limit), turns) == w
  }

  lemma BootIsReachable(limit: nat)
    ensures Reachable(limit, Boot(limit))
  {
    assert Run(Boot(limit), []) == Boot(limit);
  }

  /** A further turn of thread `t`, whose outcome the caller has worked out. */
  lemma Reach(limit: nat, w: World, t: nat, c: Choice, w': World)
    requires Reachable(limit, w) && Step(w, t, c) == w'
    ensures Reachable(limit, w')
  {
    var turns :| Run(Boot(limit), turns) == w;
    var more := turns + [Turn(t, c)];
    assert more[..|more| - 1] == turns;
    assert Run(Boot(limit), more) == w';
  }

  function Ask(r: Request): Choice {
    Choice(r, true)
  }

  const GO := Choice(AskDrain, true)

  predicate Quiet(w: World) {
    |w.pcs| > 0 && w.pcs[0] == Idle && w.control.queued == []
  }

  function Spawned(w: World, id: BoxId): World
    requires Quiet(w)
  {
    World(w.control.(active := w.control.active + {id}), w.pending, w.states[id := HelperModel.STARTING],
          w.pcs + [Asleep(id)], w.started + {id}, w.restarted || id in w.started, w.ops + [Admit(id)])
  }

  lemma SpawnRuns(limit: nat, w: World, id: BoxId)
    requires Reachable(limit, w) && Quiet(w)
    requires id != "" && id !in w.states && id !in w.control.active && |w.control.active| < w.control.limit
    ensures Reachable(limit, Spawned(w, id))
  {
    Reach(limit, w, 0, Ask(AskSpawn(id)), At(w, 0, SpawnLook(id)));
    SpawnLooks(limit, w, id);
    SpawnReserves(limit, w, id);
    SpawnChecks(limit, w, id);
    SpawnInserts(limit, w, id);
  }

  lemma SpawnLooks(limit: nat, w: World, id: BoxId)
    requires Quiet(w) && id !in w.states && Reachable(limit, At(w, 0, SpawnLook(id)))
    ensures Reachable(limit, At(w, 0, SpawnAdmit(id)))
  {
    Reach(limit, At(w, 0, SpawnLook(id)), 0, GO, At(w, 0, SpawnAdmit(id)));
  }

  /** `w` with a slot reserved for `id`. */
  function Reserved(w: World, id: BoxId): World {
    w.(control := w.control.(active := w.control.active + {id}), ops := w.ops + [Admit(id)])
  }

  lemma SpawnReserves(limit: nat, w: World, id: BoxId)
    requires Quiet(w) && Reachable(limit, At(w, 0, SpawnAdmit(id)))
    requires id != "" && id !in w.control.active && |w.control.active| < w.control.limit
    ensures Reachable(limit, At(Reserved(w, id), 0, StartLook(id, false)))
  {
    Reach(limit, At(w, 0, SpawnAdmit(id)), 0, GO, At(Reserved(w, id), 0, StartLook(id, false)));
  }

  lemma SpawnChecks(limit: nat, w: World, id: BoxId)
    requires Quiet(w) && id !in w.states && Reachable(limit, At(Reserved(w, id), 0, StartLook(id, false)))
    ensures Reachable(limit, At(Reserved(w, id), 0, StartInsert(id, false)))
  {
    Reach(limit, At(Reserved(w, id), 0, StartLook(id, false)), 0, GO, At(Reserved(w, id), 0, StartInsert(id, false)));
  }

  lemma SpawnInserts(limit: nat, w: World, id: BoxId)
    requires Quiet(w) && Reachable(limit, At(Reserved(w, id), 0, StartInsert(id, false)))
    ensures Reachable(limit, Spawned(w, id))
  {
    assert w.pcs[0 := StartInsert(id, false)][0 := Idle] == w.pcs;
    Reach(limit, At(Reserved(w, id), 0, StartInsert(id, false)), 0, GO, Spawned(w, id));
  }

  lemma WatchdogSees(limit: nat, w: World, t: nat, id: BoxId)
    requires Reachable(limit, w) && t < |w.pcs| && w.pcs[t] == Asleep(id) && Starting(w, id)
    ensures Reachable(limit, At(w, t, Mark(id)))
  {
    Reach(limit, w, t, GO, At(w, t, Mark(id)));
  }

  lemma WatchdogWrites(limit: nat, w: World, t: nat, id: BoxId)
    requires t < |w.pcs| && id in w.states && Reachable(limit, At(w, t, Mark(id)))
    ensures Reachable(limit, At(w, t, Free(id)).(states := w.states[id := HelperModel.TIMED_OUT]))
  {
    Reach(limit, At(w, t, Mark(id)), t, GO, At(w, t, Free(id)).(states := w.states[id := HelperModel.TIMED_OUT]));
  }

  /** A watchdog sees its Box STARTING, stops it and marks it, and has yet to free the slot. */
  lemma WatchdogMarks(limit: nat, w: World, t: nat, id: BoxId)
    requires Reachable(limit, w) && t < |w.pcs| && w.pcs[t] == Asleep(id) && Starting(w, id)
    ensures Reachable(limit, At(w, t, Free(id)).(states := w.states[id := HelperModel.TIMED_OUT]))
  {
    WatchdogSees(limit, w, t, id);
    WatchdogWrites(limit, w, t, id);
  }

  /** `w` after the kill of its only active Box. */
  function Killed(w: World, id: BoxId): World {
    w.(control := w.control.(active := {}), states := w.states[id := HelperModel.KILLED],
       ops := w.ops + [Release(id)] + [StartNext])
  }

  lemma KillRuns(limit: nat, w: World, id: BoxId)
    requires Reachable(limit, w) && Quiet(w) && id in w.states && w.states[id] != HelperModel.QUEUED
    requires w.control.active == {id}
    ensures Reachable(limit, Killed(w, id))
  {
    Reach(limit, w, 0, Ask(AskKill(id)), At(w, 0, LookQueued(id, true)));
    Looks(limit, w, id, true);
    KillMarks(limit, w, id);
    KillFrees(limit, w, id);
    KillDrains(limit, w, id);
  }

  lemma Looks(limit: nat, w: World, id: BoxId, kill: bool)
    requires Quiet(w) && id in w.states && w.states[id] != HelperModel.QUEUED
    requires Reachable(limit, At(w, 0, LookQueued(id, kill)))
    ensures Reachable(limit, At(w, 0, if kill then KillFind(id) else CleanFind(id)))
  {
    Reach(limit, At(w, 0, LookQueued(id, kill)), 0, GO, At(w, 0, LookKnown(id, kill)));
    LooksOn(limit, w, id, kill);
  }

  lemma LooksOn(limit: nat, w: World, id: BoxId, kill: bool)
    requires Quiet(w) && id in w.states && Reachable(limit, At(w, 0, LookKnown(id, kill)))
    ensures Reachable(limit, At(w, 0, if kill then KillFind(id) else CleanFind(id)))
  {
    Reach(limit, At(w, 0, LookKnown(id, kill)), 0, GO, At(w, 0, if kill then KillFind(id) else CleanFind(id)));
  }

  lemma KillMarks(limit: nat, w: World, id: BoxId)
    requires Quiet(w) && id in w.states && Reachable(limit, At(w, 0, KillFind(id)))
    ensures Reachable(limit, At(w.(states := w.states[id := HelperModel.KILLED]), 0, KillRelease(id)))
  {
    Reach(limit, At(w, 0, KillFind(id)), 0, GO, At(w, 0, KillMark(id, true)));
    KillWrites(limit, w, id);
  }

  lemma KillWrites(limit: nat, w: World, id: BoxId)
    requires Quiet(w) && id in w.states && Reachable(limit, At(w, 0, KillMark(id, true)))
    ensures Reachable(limit, At(w.(states := w.states[id := HelperModel.KILLED]), 0, KillRelease(id)))
  {
    Reach(limit, At(w, 0, KillMark(id, true)), 0, GO,
          At(w.(states := w.states[id := HelperModel.KILLED]), 0, KillRelease(id)));
  }

  lemma KillFrees(limit: nat, w: World, id: BoxId)
    requires Quiet(w) && w.control.active == {id}
    requires Reachable(limit, At(w.(states := w.states[id := HelperModel.KILLED]), 0, KillRelease(id)))
    ensures Reachable(limit, At(Killed(w, id).(ops := w.ops + [Release(id)]), 0, DrainNext))
  {
    assert w.control.active - {id} == {};
    Reach(limit, At(w.(states := w.states[id := HelperModel.KILLED]), 0, KillRelease(id)), 0, GO,
          At(Killed(w, id).(ops := w.ops + [Release(id)]), 0, DrainNext));
  }

  lemma KillDrains(limit: nat, w: World, id: BoxId)
    requires Quiet(w) && Reachable(limit, At(Killed(w, id).(ops := w.ops + [Release(id)]), 0, DrainNext))
    ensures Reachable(limit, Killed(w, id))
  {
    DrainsNothing(limit, Killed(w, id).(ops := w.ops + [Release(id)]));
  }

  lemma DrainsNothing(limit: nat, w: World)
    requires Quiet(w) && Reachable(limit, At(w, 0, DrainNext))
    ensures Reachable(limit, w.(ops := w.ops + [StartNext]))
  {
    assert w.pcs[0 := DrainNext][0 := Idle] == w.pcs;
    Reach(limit, At(w, 0, DrainNext), 0, GO, w.(ops := w.ops + [StartNext]));
  }

  lemma CleanupRuns(limit: nat, w: World, id: BoxId)
    requires Reachable(limit, w) && Quiet(w) && HasStatus(w, id, HelperModel.KILLED)
    ensures Reachable(limit, w.(states := w.states - {id}, ops := w.ops + [StartNext]))
  {
    Reach(limit, w, 0, Ask(AskCleanup(id)), At(w, 0, LookQueued(id, false)));
    Looks(limit, w, id, false);
    CleanupDrops(limit, w, id);
    DrainsNothing(limit, w.(states := w.states - {id}));
  }

  lemma CleanupDrops(limit: nat, w: World, id: BoxId)
    requires Quiet(w) && id in w.states && Reachable(limit, At(w, 0, CleanFind(id)))
    ensures Reachable(limit, At(w.(states := w.states - {id}), 0, DrainNext))
  {
    Reach(limit, At(w, 0, CleanFind(id)), 0, GO, At(w, 0, CleanDrop(id)));
    RecordDrops(limit, w, id);
  }

  lemma RecordDrops(limit: nat, w: World, id: BoxId)
    requires Quiet(w) && Reachable(limit, At(w, 0, CleanDrop(id)))
    ensures Reachable(limit, At(w.(states := w.states - {id}), 0, DrainNext))
  {
    Reach(limit, At(w, 0, CleanDrop(id)), 0, GO, At(w.(states := w.states - {id}), 0, DrainNext));
  }

  lemma WatchdogFrees(limit: nat, w: World, t: nat, id: BoxId)
    requires Reachable(limit, w) && t < |w.pcs| && w.pcs[t] == Free(id) && w.control.active == {id}
    ensures Reachable(limit, At(w, t, DrainNext).(control := w.control.(active := {}), ops := w.ops + [Release(id)]))
  {
    var w1 := At(w, t, DrainNext).(control := w.control.(active := {}), ops := w.ops + [Release(id)]);
    assert w.control.active - {id} == {};
    assert Step(w, t, GO) == w1;
    Reach(limit, w, t, GO, w1);
  }

  /** Why the capacity theorem speaks of runs without restarts. With one slot: Box `b` times out; before its
      watchdog frees the slot, `b` is killed, cleaned and started again; the late watchdog then frees the
      slot of the new `b`, and `c` is started beside it. */
  lemma RestartBreaksCapacity()
    ensures exists w :: Reachable(1, w) && w.restarted && StartingBoxes(w) == {"b", "c"} && w.control.active == {"c"}
  {
    BootIsReachable(1);
    SpawnRuns(1, Boot(1), "b");
    var w1 := Spawned(Boot(1), "b");
    WatchdogMarks(1, w1, 1, "b");
    var w2 := At(w1, 1, Free("b")).(states := map["b" := HelperModel.TIMED_OUT]);
    assert w2.states == w1.states["b" := HelperModel.TIMED_OUT];
    assert w2.control.active == {"b"};
    KilledAndCleaned(w2);
  }

  lemma KilledAndCleaned(w: World)
    requires Reachable(1, w) && w.control == Control(1, {"b"}, []) && w.states == map["b" := HelperModel.TIMED_OUT]
    requires w.pcs == [Idle, Free("b")] && w.started == {"b"}
    ensures exists w :: Reachable(1, w) && w.restarted && StartingBoxes(w) == {"b", "c"} && w.control.active == {"c"}
  {
    KillRuns(1, w, "b");
    var w1 := Killed(w, "b");
    CleanupRuns(1, w1, "b");
    LateWatchdog(w1.(states := w1.states - {"b"}, ops := w1.ops + [StartNext]));
  }

  lemma LateWatchdog(w4: World)
    requires Reachable(1, w4) && w4.control == Control(1, {}, []) && w4.states == map[]
    requires w4.pcs == [Idle, Free("b")] && w4.started == {"b"}
    ensures exists w :: Reachable(1, w) && w.restarted && StartingBoxes(w) == {"b", "c"} && w.control.active == {"c"}
  {
    SpawnRuns(1, w4, "b");
    var w5 := Spawned(w4, "b");
    assert w5.control.active == {"b"} && w5.pcs[1] == Free("b");
    WatchdogFrees(1, w5, 1, "b");
    SecondStarts(At(w5, 1, DrainNext).(control := w5.control.(active := {}), ops := w5.ops + [Release("b")]));
  }

  lemma SecondStarts(w: World)
    requires Reachable(1, w) && Quiet(w) && w.control == Control(1, {}, []) && w.restarted
    requires w.states == map["b" := HelperModel.STARTING]
    ensures exists w :: Reachable(1, w) && w.restarted && StartingBoxes(w) == {"b", "c"} && w.control.active == {"c"}
  {
    SpawnRuns(1, w, "c");
    var w1 := Spawned(w, "c");
    assert w1.control.active == {"c"};
    assert StartingBoxes(w1) == {"b", "c"};
  }

  // ---- the panic of a late cancellation ----

  /** Two threads over one slot: the request thread and the watchdog of Box `a`. */
  function Duo(active: set<BoxId>, queued: seq<BoxId>, pending: set<BoxId>, states: map<BoxId, Status>,
               request: Pc, watchdog: Pc, ops: seq<Op>): World {
    World(Control(1, active, queued), pending, states, [request, watchdog], {"a"}, false, ops)
  }

  const A_RUNS: map<BoxId, Status> := map["a" := HelperModel.STARTING]
  const B_WAITS: map<BoxId, Status> := map["a" := HelperModel.STARTING, "b" := HelperModel.QUEUED]
  const A_ENDED: map<BoxId, Status> := map["a" := HelperModel.TIMED_OUT, "b" := HelperModel.QUEUED]

  lemma BothAdmitted()
    ensures Reachable(1, Duo({"a"}, ["b"], {}, A_RUNS, PutPending("b"), Asleep("a"), [Admit("a"), Admit("b")]))
  {
    BootIsReachable(1);
    SpawnRuns(1, Boot(1), "a");
    assert Spawned(Boot(1), "a") == Duo({"a"}, [], {}, A_RUNS, Idle, Asleep("a"), [Admit("a")]);
    BAsks();
  }

  lemma BAsks()
    requires Reachable(1, Duo({"a"}, [], {}, A_RUNS, Idle, Asleep("a"), [Admit("a")]))
    ensures Reachable(1, Duo({"a"}, ["b"], {}, A_RUNS, PutPending("b"), Asleep("a"), [Admit("a"), Admit("b")]))
  {
    var w := Duo({"a"}, [], {}, A_RUNS, Idle, Asleep("a"), [Admit("a")]);
    var w1 := Duo({"a"}, [], {}, A_RUNS, SpawnLook("b"), Asleep("a"), [Admit("a")]);
    Reach(1, w, 0, Ask(AskSpawn("b")), w1);
    var w2 := Duo({"a"}, [], {}, A_RUNS, SpawnAdmit("b"), Asleep("a"), [Admit("a")]);
    Reach(1, w1, 0, GO, w2);
    BAdmitted(w2);
  }

  lemma BAdmitted(w: World)
    requires w == Duo({"a"}, [], {}, A_RUNS, SpawnAdmit("b"), Asleep("a"), [Admit("a")]) && Reachable(1, w)
    ensures Reachable(1, Duo({"a"}, ["b"], {}, A_RUNS, PutPending("b"), Asleep("a"), [Admit("a"), Admit("b")]))
  {
    assert |{"a"}| == 1;
    assert [] + ["b"] == ["b"] && [Admit("a")] + [Admit("b")] == [Admit("a"), Admit("b")];
    Reach(1, w, 0, GO, Duo({"a"}, ["b"], {}, A_RUNS, PutPending("b"), Asleep("a"), [Admit("a"), Admit("b")]));
  }

  /** `b` waits, and the request thread has seen that it does and is about to look again. */
  lemma BAsked(ops: seq<Op>)
    requires Reachable(1, Duo({"a"}, ["b"], {}, A_RUNS, PutPending("b"), Asleep("a"), ops))
    ensures Reachable(1, Duo({"a"}, ["b"], {"b"}, B_WAITS, LookAgain("b"), Asleep("a"), ops))
  {
    var w := Duo({"a"}, ["b"], {}, A_RUNS, PutPending("b"), Asleep("a"), ops);
    var w1 := Duo({"a"}, ["b"], {"b"}, A_RUNS, PutQueued("b"), Asleep("a"), ops);
    Reach(1, w, 0, GO, w1);
    var w2 := Duo({"a"}, ["b"], {"b"}, B_WAITS, Idle, Asleep("a"), ops);
    assert A_RUNS["b" := HelperModel.QUEUED] == B_WAITS;
    Reach(1, w1, 0, GO, w2);
    BLookedAt(ops);
  }

  lemma BLookedAt(ops: seq<Op>)
    requires Reachable(1, Duo({"a"}, ["b"], {"b"}, B_WAITS, Idle, Asleep("a"), ops))
    ensures Reachable(1, Duo({"a"}, ["b"], {"b"}, B_WAITS, LookAgain("b"), Asleep("a"), ops))
  {
    var w := Duo({"a"}, ["b"], {"b"}, B_WAITS, Idle, Asleep("a"), ops);
    var w1 := Duo({"a"}, ["b"], {"b"}, B_WAITS, LookQueued("b", true), Asleep("a"), ops);
    Reach(1, w, 0, Ask(AskKill("b")), w1);
    Reach(1, w1, 0, GO, Duo({"a"}, ["b"], {"b"}, B_WAITS, LookAgain("b"), Asleep("a"), ops));
  }

  /** Meanwhile `a` times out and frees its slot. */
  lemma AExpires(ops: seq<Op>)
    requires Reachable(1, Duo({"a"}, ["b"], {"b"}, B_WAITS, LookAgain("b"), Asleep("a"), ops))
    ensures Reachable(1, Duo({}, ["b"], {"b"}, A_ENDED, LookAgain("b"), DrainNext, ops + [Release("a")]))
  {
    var w := Duo({"a"}, ["b"], {"b"}, B_WAITS, LookAgain("b"), Asleep("a"), ops);
    WatchdogMarks(1, w, 1, "a");
    var w1 := Duo({"a"}, ["b"], {"b"}, A_ENDED, LookAgain("b"), Free("a"), ops);
    assert B_WAITS["a" := HelperModel.TIMED_OUT] == A_ENDED;
    assert At(w, 1, Free("a")).(states := A_ENDED) == w1;
    WatchdogFrees(1, w1, 1, "a");
    assert At(w1, 1, DrainNext).pcs == [LookAgain("b"), DrainNext];
  }

  /** Its drain takes `b` off the queue and drops the queued record. */
  lemma BTaken(ops: seq<Op>)
    requires Reachable(1, Duo({}, ["b"], {"b"}, A_ENDED, LookAgain("b"), DrainNext, ops))
    ensures Reachable(1, Duo({"b"}, [], {"b"}, A_ENDED, LookAgain("b"), DrainTake("b"), ops + [StartNext]))
  {
    var w := Duo({}, ["b"], {"b"}, A_ENDED, LookAgain("b"), DrainNext, ops);
    assert {} + {"b"} == {"b"} && ["b"][1..] == [];
    Reach(1, w, 1, GO, Duo({"b"}, [], {"b"}, A_ENDED, LookAgain("b"), DrainTake("b"), ops + [StartNext]));
  }

  lemma BForgotten(ops: seq<Op>)
    requires Reachable(1, Duo({"b"}, [], {"b"}, A_ENDED, LookAgain("b"), DrainTake("b"), ops))
    ensures exists w :: Reachable(1, w) && AboutToPanic(w)
  {
    var w := Duo({"b"}, [], {"b"}, A_ENDED, LookAgain("b"), DrainTake("b"), ops);
    var w1 := Duo({"b"}, [], {"b"} - {"b"}, A_ENDED, LookAgain("b"), DrainForget("b"), ops);
    Reach(1, w, 1, GO, w1);
    var w2 := Duo({"b"}, [], {"b"} - {"b"}, A_ENDED - {"b"}, LookAgain("b"), StartLook("b", true), ops);
    Reach(1, w1, 1, GO, w2);
    assert AboutToPanic(w2);
  }

  /** The request thread is about to look again for a queued record that has gone. */
  predicate AboutToPanic(w: World) {
    w.pcs != [] && w.pcs[0] == LookAgain("b") && "b" !in w.states
  }

  lemma Panics(w: World)
    requires Reachable(1, w) && AboutToPanic(w)
    ensures Reachable(1, At(w, 0, Panicked))
  {
    Reach(1, w, 0, GO, At(w, 0, Panicked));
  }

  /** The second look of a cancellation can find the record gone, between the drain's removal of the queued
      record and the insertion of the started one: the request thread then panics. */
  lemma CancellationCanPanic()
    ensures exists w :: Reachable(1, w) && w.pcs != [] && w.pcs[0] == Panicked
  {
    BothAdmitted();
    BAsked([Admit("a"), Admit("b")]);
    AExpires([Admit("a"), Admit("b")]);
    BTaken([Admit("a"), Admit("b")] + [Release("a")]);
    BForgotten([Admit("a"), Admit("b")] + [Release("a")] + [StartNext]);
    var w :| Reachable(1, w) && AboutToPanic(w);
    Panics(w);
  }

  // ---- a drain that comes too early ----

  /** The parameters of `b` are not in `pending` yet when the watchdog of `a` drains the queue: `b` is passed over.
      It is QUEUED, holds the only slot, and no thread is left to start it (HelperPending.LostForever). */
  lemma WaitingBoxIsStranded()
    ensures exists ops :: Reachable(1, Duo({"b"}, [], {"b"}, A_ENDED, Idle, Finished, ops))
  {
    BothAdmitted();
    var ops := [Admit("a"), Admit("b")];
    AExpiresEarly(ops);
    BPassedOver(ops + [Release("a")]);
    BStranded(ops + [Release("a")] + [StartNext] + [StartNext]);
  }

  const A_ENDED_ALONE: map<BoxId, Status> := map["a" := HelperModel.TIMED_OUT]

  lemma AExpiresEarly(ops: seq<Op>)
    requires Reachable(1, Duo({"a"}, ["b"], {}, A_RUNS, PutPending("b"), Asleep("a"), ops))
    ensures Reachable(1, Duo({}, ["b"], {}, A_ENDED_ALONE, PutPending("b"), DrainNext, ops + [Release("a")]))
  {
    var w := Duo({"a"}, ["b"], {}, A_RUNS, PutPending("b"), Asleep("a"), ops);
    WatchdogMarks(1, w, 1, "a");
    var w1 := Duo({"a"}, ["b"], {}, A_ENDED_ALONE, PutPending("b"), Free("a"), ops);
    assert A_RUNS["a" := HelperModel.TIMED_OUT] == A_ENDED_ALONE;
    assert At(w, 1, Free("a")).(states := A_ENDED_ALONE) == w1;
    WatchdogFrees(1, w1, 1, "a");
    assert At(w1, 1, DrainNext).pcs == [PutPending("b"), DrainNext];
  }

  lemma BPassedOver(ops: seq<Op>)
    requires Reachable(1, Duo({}, ["b"], {}, A_ENDED_ALONE, PutPending("b"), DrainNext, ops))
    ensures Reachable(1, Duo({"b"}, [], {}, A_ENDED_ALONE, PutPending("b"), Finished, ops + [StartNext] + [StartNext]))
  {
    var w := Duo({}, ["b"], {}, A_ENDED_ALONE, PutPending("b"), DrainNext, ops);
    var w1 := Duo({"b"}, [], {}, A_ENDED_ALONE, PutPending("b"), DrainTake("b"), ops + [StartNext]);
    assert {} + {"b"} == {"b"} && ["b"][1..] == [];
    Reach(1, w, 1, GO, w1);
    BNotFound(ops + [StartNext]);
  }

  lemma BNotFound(ops: seq<Op>)
    requires Reachable(1, Duo({"b"}, [], {}, A_ENDED_ALONE, PutPending("b"), DrainTake("b"), ops))
    ensures Reachable(1, Duo({"b"}, [], {}, A_ENDED_ALONE, PutPending("b"), Finished, ops + [StartNext]))
  {
    assert {} - {"b"} == {};
    Reach(1, Duo({"b"}, [], {}, A_ENDED_ALONE, PutPending("b"), DrainTake("b"), ops), 1, GO,
          Duo({"b"}, [], {}, A_ENDED_ALONE, PutPending("b"), DrainNext, ops));
    NothingLeft(ops);
  }

  lemma NothingLeft(ops: seq<Op>)
    requires Reachable(1, Duo({"b"}, [], {}, A_ENDED_ALONE, PutPending("b"), DrainNext, ops))
    ensures Reachable(1, Duo({"b"}, [], {}, A_ENDED_ALONE, PutPending("b"), Finished, ops + [StartNext]))
  {
    Reach(1, Duo({"b"}, [], {}, A_ENDED_ALONE, PutPending("b"), DrainNext, ops), 1, GO,
          Duo({"b"}, [], {}, A_ENDED_ALONE, PutPending("b"), Finished, ops + [StartNext]));
  }

  lemma BStranded(ops: seq<Op>)
    requires Reachable(1, Duo({"b"}, [], {}, A_ENDED_ALONE, PutPending("b"), Finished, ops))
    ensures Reachable(1, Duo({"b"}, [], {"b"}, A_ENDED, Idle, Finished, ops))
  {
    var w := Duo({"b"}, [], {}, A_ENDED_ALONE, PutPending("b"), Finished, ops);
    var w1 := Duo({"b"}, [], {"b"}, A_ENDED_ALONE, PutQueued("b"), Finished, ops);
    Reach(1, w, 0, GO, w1);
    assert A_ENDED_ALONE["b" := HelperModel.QUEUED] == A_ENDED;
    Reach(1, w1, 0, GO, Duo({"b"}, [], {"b"}, A_ENDED, Idle, Finished, ops));
  }

  // ---- a slot that was reserved before the late watchdog's mark ----

  /** A new `b` has its slot and is about to be STARTING; the watchdog of the old one is about to mark. */
  ghost predicate SlotBeforeMark(w: World) {
    && w.pcs == [StartInsert("b", false), Mark("b")] && "b" in w.control.active
    && var w1 := Step(Step(Step(w, 1, GO), 0, GO), 1, GO);
       StartingBoxes(w1) == {"b"} && w1.control.active == {}
  }

  /** A watchdog wakes while its Box `b` is STARTING; `b` is killed and cleaned, and a new `b` has its slot
      reserved before that watchdog marks anything. Three turns on, the new `b` is STARTING without a slot. */
  lemma MarkAfterReservation()
    ensures exists w :: Reachable(1, w) && SlotBeforeMark(w)
  {
    BootIsReachable(1);
    SpawnRuns(1, Boot(1), "b");
    var w := Spawned(Boot(1), "b");
    WatchdogSees(1, w, 1, "b");
    OldBoxGoes(At(w, 1, Mark("b")));
  }

  lemma OldBoxGoes(w: World)
    requires Reachable(1, w) && w.control == Control(1, {"b"}, []) && w.states == map["b" := HelperModel.STARTING]
    requires w.pcs == [Idle, Mark("b")]
    ensures exists w :: Reachable(1, w) && SlotBeforeMark(w)
  {
    KillRuns(1, w, "b");
    var w1 := Killed(w, "b");
    CleanupRuns(1, w1, "b");
    ReservedAgain(w1.(states := w1.states - {"b"}, ops := w1.ops + [StartNext]));
  }

  lemma ReservedAgain(w: World)
    requires Reachable(1, w) && w.control == Control(1, {}, []) && w.states == map[] && w.pcs == [Idle, Mark("b")]
    ensures exists w :: Reachable(1, w) && SlotBeforeMark(w)
  {
    Reach(1, w, 0, Ask(AskSpawn("b")), At(w, 0, SpawnLook("b")));
    SpawnLooks(1, w, "b");
    SpawnReserves(1, w, "b");
    SpawnChecks(1, w, "b");
    var w' := At(Reserved(w, "b"), 0, StartInsert("b", false));
    assert w'.pcs == [StartInsert("b", false), Mark("b")];
    LosesSlot(w');
    assert SlotBeforeMark(w');
  }

  lemma LosesSlot(w: World)
    requires w.pcs == [StartInsert("b", false), Mark("b")] && w.states == map[] && w.control.active == {"b"}
    ensures var w1 := Step(Step(Step(w, 1, GO), 0, GO), 1, GO);
            StartingBoxes(w1) == {"b"} && w1.control.active == {}
  {
    MarksNothing(w);
    StartsBeside(Step(w, 1, GO));
    FreesRunning(Step(Step(w, 1, GO), 0, GO));
  }

  lemma MarksNothing(w: World)
    requires w.pcs == [StartInsert("b", false), Mark("b")] && w.states == map[] && w.control.active == {"b"}
    ensures var w1 := Step(w, 1, GO);
            w1.pcs == [StartInsert("b", false), Free("b")] && w1.states == map[] && w1.control.active == {"b"}
  {
  }

  lemma StartsBeside(w: World)
    requires w.pcs == [StartInsert("b", false), Free("b")] && w.states == map[] && w.control.active == {"b"}
    ensures var w1 := Step(w, 0, GO);
            && |w1.pcs| > 1 && w1.pcs[1] == Free("b") && w1.control.active == {"b"}
            && w1.states == map["b" := HelperModel.STARTING]
  {
  }

  lemma FreesRunning(w: World)
    requires |w.pcs| > 1 && w.pcs[1] == Free("b") && w.control.active == {"b"}
    requires w.states == map["b" := HelperModel.STARTING]
    ensures StartingBoxes(Step(w, 1, GO)) == {"b"} && Step(w, 1, GO).control.active == {}
  {
    assert {"b"} - {"b"} == {};
  }

  // ---- a cleanup that comes too early, and a watchdog that was under way ----

  /** The record of `b` is about to be dropped while `b` is STARTING, and its watchdog is about to mark it: after
      the drop and two turns of the watchdog the slot is free. */
  ghost predicate CleanedAtMark(w: World) {
    && w.pcs == [CleanDrop("b"), Mark("b")] && Starting(w, "b") && w.control.active == {"b"}
    && var w1 := Step(Step(Step(w, 0, GO), 1, GO), 1, GO);
       w1.states == map[] && w1.control.active == {}
  }

  /** A slot whose Box was cleaned while STARTING is not always lost. */
  lemma EarlyCleanupReleased()
    ensures exists w :: Reachable(1, w) && CleanedAtMark(w)
  {
    BootIsReachable(1);
    SpawnRuns(1, Boot(1), "b");
    var w := Spawned(Boot(1), "b");
    WatchdogSees(1, w, 1, "b");
    CleanupAtMark(At(w, 1, Mark("b")));
  }

  lemma CleanupAtMark(w: World)
    requires Reachable(1, w) && w.control == Control(1, {"b"}, []) && w.states == map["b" := HelperModel.STARTING]
    requires w.pcs == [Idle, Mark("b")]
    ensures exists w :: Reachable(1, w) && CleanedAtMark(w)
  {
    Reach(1, w, 0, Ask(AskCleanup("b")), At(w, 0, LookQueued("b", false)));
    Looks(1, w, "b", false);
    Reach(1, At(w, 0, CleanFind("b")), 0, GO, At(w, 0, CleanDrop("b")));
    DropsAndFrees(At(w, 0, CleanDrop("b")));
  }

  lemma DropsAndFrees(w: World)
    requires w.pcs == [CleanDrop("b"), Mark("b")] && w.control == Control(1, {"b"}, [])
    requires w.states == map["b" := HelperModel.STARTING]
    ensures CleanedAtMark(w)
  {
    Drops(w);
    MarksDropped(Step(w, 0, GO));
    FreesDropped(Step(Step(w, 0, GO), 1, GO));
  }

  lemma Drops(w: World)
    requires w.pcs == [CleanDrop("b"), Mark("b")] && w.states == map["b" := HelperModel.STARTING]
    requires w.control == Control(1, {"b"}, [])
    ensures var w1 := Step(w, 0, GO);
            w1.pcs == [DrainNext, Mark("b")] && w1.states == map[] && w1.control == w.control
  {
  }

  lemma MarksDropped(w: World)
    requires w.pcs == [DrainNext, Mark("b")] && w.states == map[] && w.control == Control(1, {"b"}, [])
    ensures var w1 := Step(w, 1, GO);
            w1.pcs == [DrainNext, Free("b")] && w1.states == map[] && w1.control == w.control
  {
  }

  lemma FreesDropped(w: World)
    requires w.pcs == [DrainNext, Free("b")] && w.states == map[] && w.control == Control(1, {"b"}, [])
    ensures var w1 := Step(w, 1, GO); w1.states == map[] && w1.control.active == {}
  {
    assert {"b"} - {"b"} == {};
  }
}
