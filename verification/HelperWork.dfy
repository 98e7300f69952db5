/** No slot is left idle (src/bin/viper-helper.rs): in every interleaving, while a Box waits and a slot is free,
    some thread is on its way to fill it. */
module HelperWork {
  import opened Outcomes
  import opened Admission
  import opened AdmissionOrder
  import opened HelperThreads

  /** A Box waits although a slot is free. */
  predicate Spare(c: Control) {
    c.queued != [] && |c.active| < c.limit
  }

  /** The thread is in the drain loop: it will ask for the next Box. */
  predicate Draining(pc: Pc) {
    || pc.DrainNext? || pc.DrainTake? || pc.DrainForget?
    || ((pc.StartLook? || pc.StartInsert? || pc.StartFail?) && pc.draining)
  }

  /** The thread is starting a Box that did not wait. */
  predicate Direct(pc: Pc) {
    (pc.StartLook? || pc.StartInsert? || pc.StartFail?) && !pc.draining
  }

  ghost predicate DrainedBy(w: World, t: nat) {
    t < |w.pcs| && Draining(w.pcs[t])
  }

  ghost predicate Attended(w: World) {
    Spare(w.control) ==> exists t: nat :: DrainedBy(w, t)
  }

  /** Only the request thread reads requests, and starts Boxes outside a drain; it does so while nobody waits. */
  ghost predicate Manned(w: World) {
    && w.pcs != []
    && (forall t: nat :: 0 < t < |w.pcs| ==> Watching(w.pcs[t]))
    && (Direct(w.pcs[0]) ==> w.control.queued == [])
  }

  predicate Watching(pc: Pc) {
    !RequestOnly(pc) && !Direct(pc)
  }

  // ---- who may do what ----

  lemma WatchingStays(w: World, pc: Pc, t: nat, c: Choice)
    requires 0 < t && Watching(pc)
    ensures Watching(NextPc(w, pc, t, c))
  {
  }

  /** Nobody joins an empty queue but through admission. */
  lemma EmptyStays(c: Control, op: Op)
    requires c.queued == [] && !op.Admit?
    ensures Apply(c, op).queued == []
  {
  }

  lemma AdmitsOnly(pc: Pc)
    ensures OpOf(pc).Some? && OpOf(pc).value.Admit? ==> pc.SpawnAdmit?
  {
  }

  lemma OthersKeepEmpty(w: World, t: nat, c: Choice)
    requires Manned(w) && 0 < t < |w.pcs| && w.control.queued == []
    ensures Step(w, t, c).control.queued == []
  {
    AdmitsOnly(w.pcs[t]);
    if OpOf(w.pcs[t]).Some? {
      EmptyStays(w.control, OpOf(w.pcs[t]).value);
    }
  }

  lemma DirectFollows(w: World, c: Choice)
    requires w.pcs != [] && (Direct(w.pcs[0]) ==> w.control.queued == [])
    requires Direct(NextPc(w, w.pcs[0], 0, c))
    ensures Step(w, 0, c).control.queued == []
  {
  }

  lemma MannedStep(w: World, t: nat, c: Choice)
    requires Manned(w) && t < |w.pcs|
    ensures Manned(Step(w, t, c))
  {
    var w' := Step(w, t, c);
    forall u: nat | 0 < u < |w'.pcs| ensures Watching(w'.pcs[u]) {
      if u == t {
        WatchingStays(w, w.pcs[t], t, c);
      }
    }
    if t == 0 {
      if Direct(w'.pcs[0]) {
        DirectFollows(w, c);
      }
    } else if Direct(w'.pcs[0]) {
      OthersKeepEmpty(w, t, c);
    }
  }

  // ---- when a slot becomes spare ----

  /** Admitting and cancelling leave no slot spare that was not. */
  lemma OperationSpares(c: Control, op: Op)
    requires c.Valid() && Spare(Apply(c, op)) && !op.StartNext?
    ensures Spare(c) || (op.Release? && op.id in c.active)
  {
    if op.Release? && op.id !in c.active {
      assert c.active - {op.id} == c.active;
    }
  }

  /** The thread that gives a slot back goes on to drain, unless it started a Box that did not wait. */
  lemma ReleaseDrains(w: World, pc: Pc, t: nat, c: Choice, id: BoxId)
    requires OpOf(pc) == Some(Op.Release(id)) && id in w.control.active && !Direct(pc)
    ensures Draining(NextPc(w, pc, t, c))
  {
  }

  lemma DrainGoesOn(w: World, pc: Pc, t: nat, c: Choice)
    requires Draining(pc) && !Draining(NextPc(w, pc, t, c))
    ensures pc.DrainNext? && w.control.StartNext().1.None?
  {
  }

  lemma DrainIsOver(w: World, t: nat, c: Choice)
    requires t < |w.pcs| && w.pcs[t].DrainNext? && w.control.StartNext().1.None?
    ensures !Spare(Step(w, t, c).control)
  {
  }

  lemma SpareFollows(w: World, t: nat, c: Choice)
    requires t < |w.pcs| && w.control.Valid() && !Draining(w.pcs[t]) && !Draining(NextPc(w, w.pcs[t], t, c))
    requires Direct(w.pcs[t]) ==> w.control.queued == []
    requires Spare(Step(w, t, c).control)
    ensures Spare(w.control)
  {
    var pc := w.pcs[t];
    if OpOf(pc).Some? {
      var op := OpOf(pc).value;
      OperationSpares(w.control, op);
      if op.Release? && op.id in w.control.active {
        if Direct(pc) {
          EmptyStays(w.control, op);
        } else {
          ReleaseDrains(w, pc, t, c, op.id);
        }
      }
    }
  }

  lemma AttendedStep(w: World, t: nat, c: Choice)
    requires Manned(w) && Attended(w) && w.control.Valid() && t < |w.pcs|
    ensures Attended(Step(w, t, c))
  {
    var w' := Step(w, t, c);
    if Spare(w'.control) {
      if Draining(NextPc(w, w.pcs[t], t, c)) {
        assert DrainedBy(w', t);
      } else {
        if Draining(w.pcs[t]) {
          DrainGoesOn(w, w.pcs[t], t, c);
          DrainIsOver(w, t, c);
        }
        SpareFollows(w, t, c);
        var u: nat :| DrainedBy(w, u);
        assert DrainedBy(w', u);
      }
    }
  }

  // ---- whole runs ----

  /** In every interleaving: while a Box waits and a slot is free, some thread is in the drain loop. */
  lemma {:induction false} EveryInterleavingAttends(limit: nat, turns: seq<Turn>)
    requires 0 < limit
    ensures Manned(Run(Boot(limit), turns)) && Attended(Run(Boot(limit), turns))
  {
    if turns != [] {
      var before := turns[..|turns| - 1];
      var w := Run(Boot(limit), before);
      var t, c := turns[|turns| - 1].thread, turns[|turns| - 1].choice;
      EveryInterleavingAttends(limit, before);
      EveryInterleavingKeepsOrder(limit, before);
      if t < |w.pcs| {
        MannedStep(w, t, c);
        AttendedStep(w, t, c);
      }
    }
  }

  /** Nothing happens any more until the next request or the end of some TTL. */
  predicate AtRest(w: World) {
    forall t :: 0 <= t < |w.pcs| ==> Resting(w.pcs[t])
  }

  predicate Resting(pc: Pc) {
    pc.Idle? || pc.Panicked? || pc.Asleep? || pc.Finished?
  }

  /** Whenever all threads are at rest, a Box waits only if every slot is taken. */
  lemma NoSlotIsIdle(limit: nat, turns: seq<Turn>)
    requires 0 < limit
    ensures var w := Run(Boot(limit), turns);
            AtRest(w) && w.control.queued != [] ==> |w.control.active| == limit
  {
    EveryInterleavingAttends(limit, turns);
    EveryInterleavingKeepsOrder(limit, turns);
    LimitIsFixed(Boot(limit), turns);
  }
}
