/** The helper with one step per lock acquisition: the request thread (thread 0) and any number of TTL
    watchdog threads interleave freely, and the locks are dropped between the steps of one handler. */
module HelperThreads {
  import opened Collections
  import opened Outcomes
  import opened Admission
  import opened AdmissionOrder
  import HelperModel

  type Status = HelperModel.Status

  /** Where a thread stands: the lock acquisition it will do next, with the locals it carries. */
  datatype Pc =
    // the request thread only
    | Idle
    | SpawnLook(id: BoxId)
    | SpawnAdmit(id: BoxId)
    | PutPending(id: BoxId)
    | PutQueued(id: BoxId)
    | LookQueued(id: BoxId, kill: bool)
    | LookAgain(id: BoxId)
    | CancelTicket(id: BoxId)
    | CancelPending(id: BoxId)
    | CancelRecord(id: BoxId)
    | LookKnown(id: BoxId, kill: bool)
    | KillFind(id: BoxId)
    | KillMark(id: BoxId, found: bool)
    | KillRelease(id: BoxId)
    | CleanFind(id: BoxId)
    | CleanDrop(id: BoxId)
    | Panicked
    // `spawn_box` and `drain_queue`, on any thread
    | StartLook(id: BoxId, draining: bool)
    | StartInsert(id: BoxId, draining: bool)
    | StartFail(id: BoxId, draining: bool)
    | DrainNext
    | DrainTake(id: BoxId)
    | DrainForget(id: BoxId)
    // watchdog threads only
    | Asleep(id: BoxId)
    | Mark(id: BoxId)
    | Free(id: BoxId)
    | Finished

  datatype Request = AskSpawn(id: BoxId) | AskDrain | AskKill(id: BoxId) | AskCleanup(id: BoxId)

  /** What the environment decides during a step: the next request, or an oracle's answer. */
  datatype Choice = Choice(request: Request, ok: bool)

  /** A unit names its Box (HelperModel.OneBoxPerUnit), so records are looked up by Box ID here.
      `started`, `restarted` and `ops` are history: Boxes ever started, whether one was started again,
      and the controller operations so far. */
  datatype World = World(
    control: Control,
    pending: set<BoxId>,
    states: map<BoxId, Status>,
    pcs: seq<Pc>,
    started: set<BoxId>,
    restarted: bool,
    ops: seq<Op>)

  function Boot(limit: nat): World {
    World(Fresh(limit), {}, map[], [Idle], {}, false, [])
  }

  function At(w: World, t: nat, pc: Pc): World
    requires t < |w.pcs|
  {
    w.(pcs := w.pcs[t := pc])
  }

  /** The controller operation of a lock acquisition, if it is one on the admission mutex that calls
      the controller. */
  function OpOf(pc: Pc): Option<Op> {
    match pc
    case SpawnAdmit(id) => Some(Admit(id))
    case CancelTicket(id) => Some(Cancel(id))
    case KillRelease(id) => Some(Release(id))
    case StartFail(id, _) => Some(Release(id))
    case DrainNext => Some(StartNext)
    case Free(id) => Some(Release(id))
    case _ => None
  }

  /** The end of a handler or of a watchdog thread. */
  function Rest(t: nat): Pc {
    if t == 0 then Idle else Finished
  }

  predicate HasStatus(w: World, id: BoxId, status: Status) {
    id in w.states && w.states[id] == status
  }

  /** What a turn does to `pending`. */
  function PendingAfter(w: World, pc: Pc): set<BoxId> {
    match pc
    case PutPending(id) => w.pending + {id}
    case CancelPending(id) => w.pending - {id}
    case DrainTake(id) => w.pending - {id}
    case _ => w.pending
  }

  /** What a turn does to `states`. */
  function StatesAfter(w: World, pc: Pc): map<BoxId, Status> {
    match pc
    case PutQueued(id) => w.states[id := HelperModel.QUEUED]
    case CancelRecord(id) => w.states - {id}
    case CleanDrop(id) => w.states - {id}
    case DrainForget(id) => w.states - {id}
    case StartInsert(id, _) => w.states[id := HelperModel.STARTING]
    case KillMark(id, _) => if id in w.states then w.states[id := HelperModel.KILLED] else w.states
    case Mark(id) => if id in w.states then w.states[id := HelperModel.TIMED_OUT] else w.states
    case _ => w.states
  }

  /** Where the thread goes; it sees the state before its turn. */
  function NextPc(w: World, pc: Pc, t: nat, c: Choice): Pc {
    match pc
    case Idle =>
      (match c.request
       case AskSpawn(id) => SpawnLook(id)
       case AskDrain => DrainNext
       case AskKill(id) => LookQueued(id, true)
       case AskCleanup(id) => LookQueued(id, false))
    case SpawnLook(id) => if id in w.states || !c.ok then Idle else SpawnAdmit(id)
    case SpawnAdmit(id) =>
      (match w.control.Admit(id).1
       case Failure(_) => Idle
       case Success(Start) => StartLook(id, false)
       case Success(Queued(_)) => PutPending(id))
    case PutPending(id) => PutQueued(id)
    case PutQueued(_) => Idle
    case LookQueued(id, kill) => if HasStatus(w, id, HelperModel.QUEUED) then LookAgain(id) else LookKnown(id, kill)
    case LookAgain(id) => if HasStatus(w, id, HelperModel.QUEUED) then CancelTicket(id) else Panicked
    case CancelTicket(id) => CancelPending(id)
    case CancelPending(id) => CancelRecord(id)
    case CancelRecord(_) => Idle
    case LookKnown(id, kill) =>
      if id !in w.states || !c.ok then Idle else if kill then KillFind(id) else CleanFind(id)
    case KillFind(id) => KillMark(id, id in w.states)
    case KillMark(id, found) => if found then KillRelease(id) else Idle
    case KillRelease(id) => if id in w.control.active then DrainNext else Idle
    case CleanFind(id) => if id in w.states && !c.ok then Idle else CleanDrop(id)
    case CleanDrop(_) => DrainNext
    case Panicked => Panicked
    case StartLook(id, draining) =>
      if id in w.states || !c.ok then StartFail(id, draining) else StartInsert(id, draining)
    case StartInsert(_, draining) => if draining then DrainNext else Rest(t)
    case StartFail(_, draining) => if draining then DrainNext else Rest(t)
    case DrainNext =>
      (match w.control.StartNext().1
       case None => Rest(t)
       case Some(id) => DrainTake(id))
    case DrainTake(id) => if id in w.pending then DrainForget(id) else DrainNext
    case DrainForget(id) => StartLook(id, true)
    case Asleep(id) =>
      if HasStatus(w, id, HelperModel.STARTING) || HasStatus(w, id, HelperModel.ACTIVE) then Mark(id) else Finished
    case Mark(id) => Free(id)
    case Free(id) => if id in w.control.active then DrainNext else Finished
    case Finished => Finished
  }

  /** One turn of thread `t`; a start also gives life to a watchdog. */
  function Step(w: World, t: nat, c: Choice): World {
    if t >= |w.pcs| then w
    else
      var pc := w.pcs[t];
      var moved := w.pcs[t := NextPc(w, pc, t, c)];
      World(
        if OpOf(pc).Some? then Apply(w.control, OpOf(pc).value) else w.control,
        PendingAfter(w, pc),
        StatesAfter(w, pc),
        if pc.StartInsert? then moved + [Asleep(pc.id)] else moved,
        if pc.StartInsert? then w.started + {pc.id} else w.started,
        w.restarted || (pc.StartInsert? && pc.id in w.started),
        if OpOf(pc).Some? then w.ops + [OpOf(pc).value] else w.ops)
  }

  datatype Turn = Turn(thread: nat, choice: Choice)

  function Run(w: World, turns: seq<Turn>): World {
    if turns == [] then w
    else Step(Run(w, turns[..|turns| - 1]), turns[|turns| - 1].thread, turns[|turns| - 1].choice)
  }

  // ---- the controller, in every interleaving ----

  lemma OperateKeepsValid(c: Control, op: Op)
    requires c.Valid()
    ensures Apply(c, op).Valid()
  {
    match op
    case Admit(id) => AdmitKeepsValid(c, id);
    case Release(id) => ReleaseKeepsValid(c, id);
    case StartNext => StartNextKeepsValid(c);
    case Cancel(id) => CancelKeepsValid(c, id);
  }

  /** Every interleaving drives the controller through a run of whole operations; hence active never
      exceeds the limit, the queue stays duplicate-free and disjoint from active, and slots are reserved
      in admission order. */
  lemma {:induction false} EveryInterleavingKeepsOrder(limit: nat, turns: seq<Turn>)
    requires 0 < limit
    ensures var w := Run(Boot(limit), turns);
            && w.control.Valid()
            && w.control == ApplyAll(Fresh(limit), w.ops)
            && Balanced(RecordAll(Opened(limit), w.ops))
  {
    var w := Run(Boot(limit), turns);
    if turns != [] {
      var before := turns[..|turns| - 1];
      var w0 := Run(Boot(limit), before);
      EveryInterleavingKeepsOrder(limit, before);
      var t, c := turns[|turns| - 1].thread, turns[|turns| - 1].choice;
      if t < |w0.pcs| && OpOf(w0.pcs[t]).Some? {
        OperateKeepsValid(w0.control, OpOf(w0.pcs[t]).value);
        assert w.ops[..|w.ops| - 1] == w0.ops;
      }
    }
    EveryRunBalances(limit, w.ops);
  }

  // ---- slots and STARTING Boxes ----

  predicate Starting(w: World, id: BoxId) {
    HasStatus(w, id, HelperModel.STARTING)
  }

  predicate RequestOnly(pc: Pc) {
    pc.Idle? || pc.SpawnLook? || pc.SpawnAdmit? || pc.PutPending? || pc.PutQueued? || pc.LookQueued?
    || pc.LookAgain? || pc.CancelTicket? || pc.CancelPending? || pc.CancelRecord? || pc.LookKnown?
    || pc.KillFind? || pc.KillMark? || pc.KillRelease? || pc.CleanFind? || pc.CleanDrop? || pc.Panicked?
  }

  /** The Box whose slot the thread has reserved and not yet used. */
  function Owner(pc: Pc): Option<BoxId> {
    if pc.StartLook? || pc.StartInsert? || pc.StartFail? || pc.DrainTake? || pc.DrainForget? then Some(pc.id)
    else None
  }

  ghost predicate ThreadOk(w: World, t: nat)
    requires t < |w.pcs|
  {
    var pc := w.pcs[t];
    && (t != 0 ==> !RequestOnly(pc))
    && (Owner(pc).Some? ==> !Starting(w, pc.id) && (pc.id !in w.started ==> pc.id in w.control.active))
    && (pc.Asleep? || pc.Mark? || pc.Free? || pc.KillRelease? || (pc.KillMark? && pc.found) ==> pc.id in w.started)
    && (pc.Free? || pc.KillRelease? ==> !Starting(w, pc.id))
    && (pc.LookKnown? || pc.KillFind? || pc.KillMark? ==> !HasStatus(w, pc.id, HelperModel.QUEUED))
  }

  ghost predicate BoxOk(w: World, id: BoxId) {
    && (Starting(w, id) ==> id in w.control.active)
    && (id in w.states && w.states[id] != HelperModel.QUEUED ==> id in w.started)
  }

  /** Two threads hold reservations of one Box only after it has been started. */
  ghost predicate Apart(w: World, t: nat, u: nat)
    requires t < |w.pcs| && u < |w.pcs|
  {
    t != u && Owner(w.pcs[t]).Some? && Owner(w.pcs[t]) == Owner(w.pcs[u]) ==> w.pcs[t].id in w.started
  }

  ghost predicate Good(w: World) {
    && w.control.Valid()
    && (forall id :: BoxOk(w, id))
    && (forall t: nat :: t < |w.pcs| ==> ThreadOk(w, t))
    && (forall t: nat, u: nat :: t < |w.pcs| && u < |w.pcs| ==> Apart(w, t, u))
  }

  ghost predicate SameBox(w: World, w': World, id: BoxId) {
    && (id in w'.states <==> id in w.states)
    && (id in w.states ==> w'.states[id] == w.states[id])
    && (id in w'.control.active <==> id in w.control.active)
    && (id in w'.started <==> id in w.started)
  }

  /** Thread `t` took a step that touched no Box but `k`. */
  ghost predicate Local(w: World, w': World, t: nat, k: BoxId) {
    && t < |w.pcs| <= |w'.pcs|
    && (forall u: nat :: u < |w.pcs| && u != t ==> w'.pcs[u] == w.pcs[u])
    && (forall u: nat :: |w.pcs| <= u < |w'.pcs| ==> w'.pcs[u] == Asleep(k))
    && (|w.pcs| < |w'.pcs| ==> k in w'.started)
    && w.started <= w'.started
    && (forall id :: id != k ==> SameBox(w, w', id))
  }

  /** What the other threads need of such a step. */
  ghost predicate Polite(w: World, w': World, t: nat, k: BoxId)
    requires t < |w.pcs| && t < |w'.pcs|
  {
    && (Starting(w', k) && !Starting(w, k) ==> k !in w.started && Owner(w.pcs[t]) == Some(k))
    && (k in w.control.active && k !in w'.control.active ==> k in w.started || Owner(w.pcs[t]) == Some(k))
    && (HasStatus(w', k, HelperModel.QUEUED) && !HasStatus(w, k, HelperModel.QUEUED) ==> t == 0)
    && (Owner(w'.pcs[t]).Some? ==>
          || Owner(w'.pcs[t]) == Owner(w.pcs[t])
          || (w'.pcs[t].id == k && k !in w.control.active))
  }

  lemma OtherThreadOk(w: World, w': World, t: nat, k: BoxId, u: nat)
    requires Good(w) && Local(w, w', t, k) && Polite(w, w', t, k)
    requires u < |w.pcs| && u != t
    ensures ThreadOk(w', u)
  {
    assert ThreadOk(w, u) && Apart(w, t, u);
    var pc := w.pcs[u];
    assert w'.pcs[u] == pc;
    if !(pc.Idle? || pc.DrainNext? || pc.Finished? || pc.Panicked?) && pc.id != k {
      assert SameBox(w, w', pc.id);
    }
  }

  lemma StaysApart(w: World, w': World, t: nat, k: BoxId, u: nat, v: nat)
    requires Good(w) && Local(w, w', t, k) && Polite(w, w', t, k)
    requires u < |w'.pcs| && v < |w'.pcs|
    ensures Apart(w', u, v)
  {
    if u < |w.pcs| && v < |w.pcs| && u != v {
      assert Apart(w, u, v) && ThreadOk(w, u) && ThreadOk(w, v);
      assert u != t ==> w'.pcs[u] == w.pcs[u];
      assert v != t ==> w'.pcs[v] == w.pcs[v];
    }
  }

  lemma PoliteStepKeeps(w: World, w': World, t: nat, k: BoxId)
    requires Good(w) && Local(w, w', t, k) && Polite(w, w', t, k)
    requires w'.control.Valid() && BoxOk(w', k) && ThreadOk(w', t)
    ensures Good(w')
  {
    forall id ensures BoxOk(w', id) {
      assert BoxOk(w, id);
      if id != k {
        assert SameBox(w, w', id);
      }
    }
    forall u: nat | u < |w'.pcs| ensures ThreadOk(w', u) {
      if u < |w.pcs| && u != t {
        OtherThreadOk(w, w', t, k, u);
      } else if u != t {
        assert w'.pcs[u] == Asleep(k);
      }
    }
    forall u: nat, v: nat | u < |w'.pcs| && v < |w'.pcs| ensures Apart(w', u, v) {
      StaysApart(w, w', t, k, u, v);
    }
  }

  // ---- the steps, one kind at a time ----

  /** The Box a step is about; for `DrainNext`, the head of the queue. */
  function Touched(w: World, pc: Pc): BoxId {
    match pc
    case Idle => ""
    case Panicked => ""
    case Finished => ""
    case DrainNext => w.control.StartNext().1.GetOr("")
    case _ => pc.id
  }

  /** What a step of thread `t` may rely on. */
  ghost predicate Ready(w: World, t: nat) {
    t < |w.pcs| && w.control.Valid() && ThreadOk(w, t) && BoxOk(w, Touched(w, w.pcs[t]))
  }

  ghost predicate Mannered(w: World, w': World, t: nat)
    requires t < |w.pcs|
  {
    var k := Touched(w, w.pcs[t]);
    && Local(w, w', t, k) && Polite(w, w', t, k)
    && w'.control.Valid() && BoxOk(w', k) && ThreadOk(w', t)
  }

  /** Steps that only look, or change `pending`. */
  lemma Receives(w: World, t: nat, c: Choice)
    requires Ready(w, t) && w.pcs[t].Idle?
    ensures Mannered(w, Step(w, t, c), t)
  {
  }

  lemma LooksAtSpawn(w: World, t: nat, c: Choice)
    requires Ready(w, t) && (w.pcs[t].SpawnLook? || w.pcs[t].PutPending?)
    ensures Mannered(w, Step(w, t, c), t)
  {
  }

  lemma LooksForQueued(w: World, t: nat, c: Choice)
    requires Ready(w, t) && (w.pcs[t].LookQueued? || w.pcs[t].LookAgain?)
    ensures Mannered(w, Step(w, t, c), t)
  {
  }

  lemma LooksForKnown(w: World, t: nat, c: Choice)
    requires Ready(w, t) && (w.pcs[t].LookKnown? || w.pcs[t].KillFind?)
    ensures Mannered(w, Step(w, t, c), t)
  {
  }

  lemma LooksToClean(w: World, t: nat, c: Choice)
    requires Ready(w, t) && (w.pcs[t].CancelPending? || w.pcs[t].CleanFind?)
    ensures Mannered(w, Step(w, t, c), t)
  {
  }

  lemma LooksBeforeStart(w: World, t: nat, c: Choice)
    requires Ready(w, t) && w.pcs[t].StartLook?
    ensures Mannered(w, Step(w, t, c), t)
  {
  }

  lemma TakesPending(w: World, t: nat, c: Choice)
    requires Ready(w, t) && w.pcs[t].DrainTake?
    ensures Mannered(w, Step(w, t, c), t)
  {
  }

  lemma WakesUp(w: World, t: nat, c: Choice)
    requires Ready(w, t) && w.pcs[t].Asleep?
    ensures Mannered(w, Step(w, t, c), t)
  {
  }

  lemma Ended(w: World, t: nat, c: Choice)
    requires Ready(w, t) && (w.pcs[t].Finished? || w.pcs[t].Panicked?)
    ensures Mannered(w, Step(w, t, c), t)
  {
  }

  /** Steps that write one record other than to STARTING. */
  lemma PutsRecord(w: World, t: nat, c: Choice)
    requires Ready(w, t) && w.pcs[t].PutQueued?
    ensures Mannered(w, Step(w, t, c), t)
  {
  }

  lemma RemovesRecord(w: World, t: nat, c: Choice)
    requires Ready(w, t) && (w.pcs[t].CancelRecord? || w.pcs[t].CleanDrop?)
    ensures Mannered(w, Step(w, t, c), t)
  {
  }

  lemma ForgetsRecord(w: World, t: nat, c: Choice)
    requires Ready(w, t) && w.pcs[t].DrainForget?
    ensures Mannered(w, Step(w, t, c), t)
  {
  }

  lemma MarksKilled(w: World, t: nat, c: Choice)
    requires Ready(w, t) && w.pcs[t].KillMark?
    ensures Mannered(w, Step(w, t, c), t)
  {
  }

  lemma MarksTimedOut(w: World, t: nat, c: Choice)
    requires Ready(w, t) && w.pcs[t].Mark?
    ensures Mannered(w, Step(w, t, c), t)
  {
  }

  /** The step that makes a Box STARTING, when it is the first time. */
  lemma FirstStart(w: World, t: nat, c: Choice)
    requires Ready(w, t) && w.pcs[t].StartInsert? && w.pcs[t].id !in w.started
    ensures Mannered(w, Step(w, t, c), t)
  {
  }

  /** Steps that reserve a slot. */
  lemma AdmitReserves(w: World, t: nat, c: Choice)
    requires Ready(w, t) && w.pcs[t].SpawnAdmit?
    ensures Mannered(w, Step(w, t, c), t)
  {
    AdmitKeepsValid(w.control, w.pcs[t].id);
  }

  lemma DrainReserves(w: World, t: nat, c: Choice)
    requires Ready(w, t) && w.pcs[t].DrainNext? && w.control.StartNext().1.Some?
    ensures Mannered(w, Step(w, t, c), t)
  {
    StartNextKeepsValid(w.control);
  }

  lemma DrainEnds(w: World, t: nat, c: Choice)
    requires Ready(w, t) && w.pcs[t].DrainNext? && w.control.StartNext().1.None?
    ensures Mannered(w, Step(w, t, c), t)
  {
  }

  /** Steps that cancel a ticket or give a slot back. */
  lemma CancelGivesBack(w: World, t: nat, c: Choice)
    requires Ready(w, t) && w.pcs[t].CancelTicket?
    ensures Mannered(w, Step(w, t, c), t)
  {
    CancelKeepsValid(w.control, w.pcs[t].id);
  }

  lemma FailureGivesBack(w: World, t: nat, c: Choice)
    requires Ready(w, t) && w.pcs[t].StartFail?
    ensures Mannered(w, Step(w, t, c), t)
  {
    ReleaseKeepsValid(w.control, w.pcs[t].id);
  }

  lemma KillGivesBack(w: World, t: nat, c: Choice)
    requires Ready(w, t) && w.pcs[t].KillRelease?
    ensures Mannered(w, Step(w, t, c), t)
  {
    ReleaseKeepsValid(w.control, w.pcs[t].id);
  }

  lemma ExpiryGivesBack(w: World, t: nat, c: Choice)
    requires Ready(w, t) && w.pcs[t].Free? && w.pcs[t].id in w.control.active
    ensures Mannered(w, Step(w, t, c), t)
  {
    ReleaseKeepsValid(w.control, w.pcs[t].id);
  }

  lemma ExpiryHasNothing(w: World, t: nat, c: Choice)
    requires Ready(w, t) && w.pcs[t].Free? && w.pcs[t].id !in w.control.active
    ensures Mannered(w, Step(w, t, c), t)
  {
    ReleaseKeepsValid(w.control, w.pcs[t].id);
  }

  lemma StepIsMannered(w: World, t: nat, c: Choice)
    requires Ready(w, t) && (w.pcs[t].StartInsert? ==> w.pcs[t].id !in w.started)
    ensures Mannered(w, Step(w, t, c), t)
  {
    match w.pcs[t]
    case Idle => Receives(w, t, c);
    case SpawnLook(_) => LooksAtSpawn(w, t, c);
    case PutPending(_) => LooksAtSpawn(w, t, c);
    case LookQueued(_, _) => LooksForQueued(w, t, c);
    case LookAgain(_) => LooksForQueued(w, t, c);
    case LookKnown(_, _) => LooksForKnown(w, t, c);
    case KillFind(_) => LooksForKnown(w, t, c);
    case CancelPending(_) => LooksToClean(w, t, c);
    case CleanFind(_) => LooksToClean(w, t, c);
    case StartLook(_, _) => LooksBeforeStart(w, t, c);
    case DrainTake(_) => TakesPending(w, t, c);
    case Asleep(_) => WakesUp(w, t, c);
    case Finished => Ended(w, t, c);
    case Panicked => Ended(w, t, c);
    case PutQueued(_) => PutsRecord(w, t, c);
    case CancelRecord(_) => RemovesRecord(w, t, c);
    case CleanDrop(_) => RemovesRecord(w, t, c);
    case DrainForget(_) => ForgetsRecord(w, t, c);
    case KillMark(_, _) => MarksKilled(w, t, c);
    case Mark(_) => MarksTimedOut(w, t, c);
    case StartInsert(_, _) => FirstStart(w, t, c);
    case SpawnAdmit(_) => AdmitReserves(w, t, c);
    case DrainNext =>
      if w.control.StartNext().1.Some? {
        DrainReserves(w, t, c);
      } else {
        DrainEnds(w, t, c);
      }
    case CancelTicket(_) => CancelGivesBack(w, t, c);
    case StartFail(_, _) => FailureGivesBack(w, t, c);
    case KillRelease(_) => KillGivesBack(w, t, c);
    case Free(id) =>
      if id in w.control.active {
        ExpiryGivesBack(w, t, c);
      } else {
        ExpiryHasNothing(w, t, c);
      }
  }

  lemma StepKeeps(w: World, t: nat, c: Choice)
    requires Good(w) && !Step(w, t, c).restarted
    ensures Good(Step(w, t, c))
  {
    if t < |w.pcs| {
      assert ThreadOk(w, t) && BoxOk(w, Touched(w, w.pcs[t]));
      StepIsMannered(w, t, c);
      PoliteStepKeeps(w, Step(w, t, c), t, Touched(w, w.pcs[t]));
    }
  }

  lemma RestartIsRemembered(w: World, t: nat, c: Choice)
    ensures w.restarted ==> Step(w, t, c).restarted
  {
  }

  ghost function StartingBoxes(w: World): set<BoxId> {
    set id | id in w.states && w.states[id] == HelperModel.STARTING
  }

  lemma {:induction false} EveryInterleavingIsGood(limit: nat, turns: seq<Turn>)
    requires 0 < limit && !Run(Boot(limit), turns).restarted
    ensures Good(Run(Boot(limit), turns))
  {
    if turns != [] {
      var before := turns[..|turns| - 1];
      var w0 := Run(Boot(limit), before);
      var t, c := turns[|turns| - 1].thread, turns[|turns| - 1].choice;
      RestartIsRemembered(w0, t, c);
      EveryInterleavingIsGood(limit, before);
      StepKeeps(w0, t, c);
    }
  }

  /** In every interleaving in which no Box ID is started twice, every STARTING Box holds a slot, so at
      most `limit` Boxes are ever STARTING. */
  lemma CapacityInEveryInterleaving(limit: nat, turns: seq<Turn>)
    requires 0 < limit && !Run(Boot(limit), turns).restarted
    ensures var w := Run(Boot(limit), turns);
            StartingBoxes(w) <= w.control.active && |StartingBoxes(w)| <= limit
  {
    EveryInterleavingIsGood(limit, turns);
    LimitIsFixed(Boot(limit), turns);
    var w := Run(Boot(limit), turns);
    forall id | id in StartingBoxes(w) ensures id in w.control.active {
      assert BoxOk(w, id);
    }
    SubsetSize(StartingBoxes(w), w.control.active);
  }

  lemma {:induction false} LimitIsFixed(w: World, turns: seq<Turn>)
    ensures Run(w, turns).control.limit == w.control.limit
  {
    if turns != [] {
      LimitIsFixed(w, turns[..|turns| - 1]);
    }
  }
}
