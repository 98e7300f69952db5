/** What one turn of a thread does to one Box, and the turns of a run by number. A turn of HelperThreads changes
    the whole helper; most of it does not concern a given Box, and the lemmas here say which turns touch its
    slot, its record and its pending parameters. HelperPanics, HelperSlots, HelperPending and HelperDrops are
    proved from them by going along a run turn by turn. */
module HelperTurns {
  import opened Outcomes
  import opened Admission
  import opened AdmissionOrder
  import opened HelperThreads

  // ---- the effect of a turn on Box `id` ----

  /** The turn reserves a slot for `id`. */
  predicate Reserves(w: World, pc: Pc, id: BoxId) {
    || (pc == SpawnAdmit(id) && w.control.Admit(id).1 == Success(Start))
    || (pc.DrainNext? && w.control.StartNext().1 == Some(id))
  }

  /** The turn puts `id` into the queue. */
  predicate Queues(w: World, pc: Pc, id: BoxId) {
    pc == SpawnAdmit(id) && w.control.Admit(id).1.Success? && w.control.Admit(id).1.value.Queued?
  }

  /** The turn gives the slot of `id` back, if it has one. */
  predicate Releases(pc: Pc, id: BoxId) {
    pc == KillRelease(id) || pc == Free(id) || (pc.StartFail? && pc.id == id)
  }

  /** The turn takes `id` out of `pending`, if it is there. */
  predicate Unpends(pc: Pc, id: BoxId) {
    pc == CancelPending(id) || pc == DrainTake(id)
  }

  predicate Inserts(pc: Pc, id: BoxId) {
    pc.StartInsert? && pc.id == id
  }

  function StatusOf(w: World, id: BoxId): Option<Status> {
    if id in w.states then Some(w.states[id]) else None
  }

  function StatusAfter(w: World, pc: Pc, id: BoxId): Option<Status> {
    if pc == PutQueued(id) then Some(HelperModel.QUEUED)
    else if pc == CancelRecord(id) || pc == CleanDrop(id) || pc == DrainForget(id) then None
    else if Inserts(pc, id) then Some(HelperModel.STARTING)
    else if id !in w.states then None
    else if pc.KillMark? && pc.id == id then Some(HelperModel.KILLED)
    else if pc == Mark(id) then Some(HelperModel.TIMED_OUT)
    else Some(w.states[id])
  }

  ghost predicate StatusTurned(w: World, w': World, pc: Pc, id: BoxId) {
    StatusOf(w', id) == StatusAfter(w, pc, id)
  }

  ghost predicate PendingTurned(w: World, w': World, pc: Pc, id: BoxId) {
    id in w'.pending <==> pc == PutPending(id) || (id in w.pending && !Unpends(pc, id))
  }

  ghost predicate StartedTurned(w: World, w': World, pc: Pc, id: BoxId) {
    && (id in w'.started <==> id in w.started || Inserts(pc, id))
    && (w'.restarted <==> w.restarted || (pc.StartInsert? && pc.id in w.started))
  }

  /** The other threads stay where they are; a new one is the watchdog of the Box just started. */
  ghost predicate ThreadsTurned(w: World, w': World, t: nat, pc: Pc) {
    && t < |w.pcs| <= |w'.pcs|
    && (forall u :: 0 <= u < |w.pcs| && u != t ==> w'.pcs[u] == w.pcs[u])
    && (forall u :: |w.pcs| <= u < |w'.pcs| ==> pc.StartInsert? && w'.pcs[u] == Asleep(pc.id))
  }

  ghost predicate ControlTurned(w: World, w': World, pc: Pc) {
    match OpOf(pc)
    case None => w'.control == w.control
    case Some(op) => w'.control == Apply(w.control, op)
  }

  ghost predicate ActiveTurned(w: World, w': World, pc: Pc, id: BoxId) {
    id in w'.control.active <==> Reserves(w, pc, id) || (id in w.control.active && !Releases(pc, id))
  }

  ghost predicate QueueTurned(w: World, w': World, pc: Pc, id: BoxId) {
    && (id in w'.control.queued ==> id in w.control.queued || Queues(w, pc, id))
    && (id in w.control.queued && id !in w'.control.queued ==> pc == CancelTicket(id) || Reserves(w, pc, id))
    && (Queues(w, pc, id) ==> id in w'.control.queued)
  }

  lemma StatusFrame(w: World, t: nat, c: Choice, id: BoxId)
    requires t < |w.pcs|
    ensures StatusTurned(w, Step(w, t, c), w.pcs[t], id)
  {
  }

  lemma PendingFrame(w: World, t: nat, c: Choice, id: BoxId)
    requires t < |w.pcs|
    ensures PendingTurned(w, Step(w, t, c), w.pcs[t], id)
  {
  }

  lemma StartedFrame(w: World, t: nat, c: Choice, id: BoxId)
    requires t < |w.pcs|
    ensures StartedTurned(w, Step(w, t, c), w.pcs[t], id)
  {
  }

  lemma ThreadsFrame(w: World, t: nat, c: Choice)
    requires t < |w.pcs|
    ensures ThreadsTurned(w, Step(w, t, c), t, w.pcs[t])
  {
  }

  lemma ControlFrame(w: World, t: nat, c: Choice)
    requires t < |w.pcs|
    ensures ControlTurned(w, Step(w, t, c), w.pcs[t])
  {
  }

  /** The Box for which an operation reserves a slot, if it does. */
  function Reserved(c: Control, op: Op): Option<BoxId> {
    match op
    case Admit(id) => if c.Admit(id).1 == Success(Start) then Some(id) else None
    case StartNext => c.StartNext().1
    case _ => None
  }

  lemma OperationReserves(c: Control, op: Op, id: BoxId)
    ensures id in Apply(c, op).active <==> Reserved(c, op) == Some(id) || (id in c.active && op != Release(id))
  {
  }

  lemma ReservationIsOperation(w: World, pc: Pc, id: BoxId)
    ensures Reserves(w, pc, id) <==> OpOf(pc).Some? && Reserved(w.control, OpOf(pc).value) == Some(id)
    ensures Releases(pc, id) <==> OpOf(pc) == Some(Op.Release(id))
  {
  }

  lemma ActiveFrame(w: World, w': World, pc: Pc, id: BoxId)
    requires ControlTurned(w, w', pc)
    ensures ActiveTurned(w, w', pc, id)
  {
    ReservationIsOperation(w, pc, id);
    if OpOf(pc).Some? {
      OperationReserves(w.control, OpOf(pc).value, id);
    }
  }

  lemma QueueFrame(w: World, w': World, pc: Pc, id: BoxId)
    requires ControlTurned(w, w', pc) && w.control.Valid()
    ensures QueueTurned(w, w', pc, id)
  {
    if pc.CancelTicket? {
      CancelKeepsValid(w.control, pc.id);
    }
  }

  lemma ValidFrame(w: World, w': World, pc: Pc)
    requires ControlTurned(w, w', pc) && w.control.Valid()
    ensures w'.control.Valid()
  {
    if OpOf(pc).Some? {
      OperateKeepsValid(w.control, OpOf(pc).value);
    }
  }

  /** Where a thread may be after a turn at `pc`, as far as `id` is concerned. */
  ghost predicate Comes(w: World, pc: Pc, next: Pc, id: BoxId) {
    && (Owner(next) == Some(id) ==> Owner(pc) == Some(id) || Reserves(w, pc, id))
    && (Releases(pc, id) || Inserts(pc, id) ==> Owner(next) == None)
  }

  ghost predicate ComesToTake(w: World, pc: Pc, next: Pc, id: BoxId) {
    && (next == DrainTake(id) ==> pc.DrainNext? && Reserves(w, pc, id))
    && (pc.DrainNext? && Reserves(w, pc, id) ==> next == DrainTake(id))
    && (pc == DrainTake(id) ==> next == if id in w.pending then DrainForget(id) else DrainNext)
  }

  ghost predicate ComesToPut(w: World, pc: Pc, next: Pc, id: BoxId) {
    && (next == PutPending(id) <==> Queues(w, pc, id))
    && (next == PutQueued(id) <==> pc == PutPending(id))
    && (pc == CancelTicket(id) ==> next == CancelPending(id))
    && (pc == CancelPending(id) ==> next == CancelRecord(id))
  }

  ghost predicate ComesToKill(w: World, pc: Pc, next: Pc, id: BoxId) {
    && (next == KillRelease(id) ==> pc == KillMark(id, true))
    && (next.KillMark? && next.id == id ==> pc == KillFind(id) && next.found == (id in w.states))
    && (next == KillFind(id) ==> pc.LookKnown? && pc.id == id && id in w.states)
    && (next.LookKnown? && next.id == id ==> pc.LookQueued? && pc.id == id && !HasStatus(w, id, HelperModel.QUEUED))
    && (next == Mark(id) ==> pc == Asleep(id) && id in w.states)
    && (next == Free(id) <==> pc == Mark(id))
    && next != Asleep(id)
  }

  lemma NextFrame(w: World, t: nat, c: Choice, id: BoxId)
    requires t < |w.pcs|
    ensures t < |Step(w, t, c).pcs| && Comes(w, w.pcs[t], Step(w, t, c).pcs[t], id)
  {
  }

  lemma NextTakeFrame(w: World, t: nat, c: Choice, id: BoxId)
    requires t < |w.pcs|
    ensures t < |Step(w, t, c).pcs| && ComesToTake(w, w.pcs[t], Step(w, t, c).pcs[t], id)
  {
  }

  lemma NextPutFrame(w: World, t: nat, c: Choice, id: BoxId)
    requires t < |w.pcs|
    ensures t < |Step(w, t, c).pcs| && ComesToPut(w, w.pcs[t], Step(w, t, c).pcs[t], id)
  {
  }

  lemma NextKillFrame(w: World, t: nat, c: Choice, id: BoxId)
    requires t < |w.pcs|
    ensures t < |Step(w, t, c).pcs| && ComesToKill(w, w.pcs[t], Step(w, t, c).pcs[t], id)
  {
  }

  /** A turn of thread `t`, as far as `id` is concerned. */
  ghost predicate Turned(w: World, w': World, t: nat, id: BoxId) {
    && t < |w.pcs|
    && var pc := w.pcs[t];
    && ThreadsTurned(w, w', t, pc)
    && StatusTurned(w, w', pc, id) && PendingTurned(w, w', pc, id) && StartedTurned(w, w', pc, id)
    && ControlTurned(w, w', pc)
    && ActiveTurned(w, w', pc, id)
    && (w.control.Valid() ==> w'.control.Valid() && QueueTurned(w, w', pc, id))
    && Comes(w, pc, w'.pcs[t], id) && ComesToTake(w, pc, w'.pcs[t], id)
    && ComesToPut(w, pc, w'.pcs[t], id) && ComesToKill(w, pc, w'.pcs[t], id)
  }

  lemma TurnsTurn(w: World, t: nat, c: Choice, id: BoxId)
    requires t < |w.pcs|
    ensures Turned(w, Step(w, t, c), t, id)
  {
    ThreadsFrame(w, t, c);
    StatusFrame(w, t, c, id);
    PendingFrame(w, t, c, id);
    StartedFrame(w, t, c, id);
    ControlFrame(w, t, c);
    NextFrame(w, t, c, id);
    NextTakeFrame(w, t, c, id);
    NextPutFrame(w, t, c, id);
    NextKillFrame(w, t, c, id);
    Controlled(w, Step(w, t, c), w.pcs[t], id);
  }

  lemma Controlled(w: World, w': World, pc: Pc, id: BoxId)
    requires ControlTurned(w, w', pc)
    ensures ActiveTurned(w, w', pc, id)
    ensures w.control.Valid() ==> w'.control.Valid() && QueueTurned(w, w', pc, id)
  {
    ActiveFrame(w, w', pc, id);
    if w.control.Valid() {
      QueueFrame(w, w', pc, id);
      ValidFrame(w, w', pc);
    }
  }

  // ---- the turns of a run, by number ----

  /** The state before turn `k`. */
  function Before(limit: nat, turns: seq<Turn>, k: nat): World
    requires k <= |turns|
  {
    Run(Boot(limit), turns[..k])
  }

  /** Where the thread of turn `k` is when it takes it; a turn of a thread that is not there does nothing. */
  function Taken(limit: nat, turns: seq<Turn>, k: nat): Pc
    requires k < |turns|
  {
    var w := Before(limit, turns, k);
    if turns[k].thread < |w.pcs| then w.pcs[turns[k].thread] else Finished
  }

  lemma NextTurn(limit: nat, turns: seq<Turn>, k: nat)
    requires k < |turns|
    ensures Before(limit, turns, k + 1) == Step(Before(limit, turns, k), turns[k].thread, turns[k].choice)
  {
    assert turns[..k + 1][..k] == turns[..k];
  }

  /** From one turn to the next: nothing, or a turn of a thread that is there. */
  ghost predicate Passes(limit: nat, turns: seq<Turn>, k: nat, id: BoxId)
    requires k < |turns|
  {
    var w, w' := Before(limit, turns, k), Before(limit, turns, k + 1);
    if turns[k].thread < |w.pcs| then Turned(w, w', turns[k].thread, id) else w' == w
  }

  lemma TurnPasses(limit: nat, turns: seq<Turn>, k: nat, id: BoxId)
    requires k < |turns|
    ensures Passes(limit, turns, k, id)
  {
    NextTurn(limit, turns, k);
    var w := Before(limit, turns, k);
    if turns[k].thread < |w.pcs| {
      TurnsTurn(w, turns[k].thread, turns[k].choice, id);
    }
  }

  /** What holds at the start and passes from state to state holds before every turn. */
  lemma {:induction false} Invariantly(limit: nat, turns: seq<Turn>, from: nat, holds: World -> bool, k: nat)
    requires from <= k <= |turns| && holds(Before(limit, turns, from))
    requires forall i :: from <= i < k && holds(Before(limit, turns, i)) ==> holds(Before(limit, turns, i + 1))
    ensures holds(Before(limit, turns, k))
    decreases k - from
  {
    if from < k {
      Invariantly(limit, turns, from, holds, k - 1);
    }
  }
}
