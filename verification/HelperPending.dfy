/** What a drain finds in `pending` (src/bin/viper-helper.rs): the lock is dropped between the admission of a
    waiting Box and the insertion of its parameters, so a drain on another thread may come too early. */
module HelperPending {
  import opened Admission
  import opened HelperThreads
  import opened HelperTurns
  import opened HelperPanics
  import opened HelperSlots

  // ---- in every run: the last turn that wrote `pending` decides ----

  ghost predicate PutsAt(limit: nat, turns: seq<Turn>, k: nat, id: BoxId)
    requires k < |turns|
  {
    Taken(limit, turns, k) == PutPending(id)
  }

  ghost predicate UnpendsAt(limit: nat, turns: seq<Turn>, k: nat, id: BoxId)
    requires k < |turns|
  {
    Unpends(Taken(limit, turns, k), id)
  }

  /** Turn `k` put the parameters, and no turn since has taken them. */
  ghost predicate PutAndLeft(limit: nat, turns: seq<Turn>, k: nat, j: nat, id: BoxId)
    requires j <= |turns|
  {
    k < j && PutsAt(limit, turns, k, id) && forall m :: k < m < j ==> !UnpendsAt(limit, turns, m, id)
  }

  ghost predicate Present(limit: nat, turns: seq<Turn>, j: nat, id: BoxId)
    requires j <= |turns|
  {
    exists k: nat :: PutAndLeft(limit, turns, k, j, id)
  }

  lemma PendingByTurn(limit: nat, turns: seq<Turn>, k: nat, id: BoxId)
    requires k < |turns|
    ensures id in Before(limit, turns, k + 1).pending <==>
              PutsAt(limit, turns, k, id)
              || (id in Before(limit, turns, k).pending && !UnpendsAt(limit, turns, k, id))
  {
    TurnPasses(limit, turns, k, id);
  }

  lemma {:induction false} PendingExactly(limit: nat, turns: seq<Turn>, j: nat, id: BoxId)
    requires j <= |turns|
    ensures id in Before(limit, turns, j).pending <==> Present(limit, turns, j, id)
  {
    if j > 0 {
      PendingExactly(limit, turns, j - 1, id);
      PendingByTurn(limit, turns, j - 1, id);
      PresentOneMore(limit, turns, j - 1, id);
    }
  }

  lemma PresentOneMore(limit: nat, turns: seq<Turn>, j: nat, id: BoxId)
    requires j < |turns|
    ensures Present(limit, turns, j + 1, id) <==>
              PutsAt(limit, turns, j, id) || (Present(limit, turns, j, id) && !UnpendsAt(limit, turns, j, id))
  {
    if PutsAt(limit, turns, j, id) {
      assert PutAndLeft(limit, turns, j, j + 1, id);
    }
    if Present(limit, turns, j, id) && !UnpendsAt(limit, turns, j, id) {
      var k: nat :| PutAndLeft(limit, turns, k, j, id);
      assert PutAndLeft(limit, turns, k, j + 1, id);
    }
    if Present(limit, turns, j + 1, id) {
      var k: nat :| PutAndLeft(limit, turns, k, j + 1, id);
      assert k < j ==> PutAndLeft(limit, turns, k, j, id) && !UnpendsAt(limit, turns, j, id);
    }
  }

  /** The drain takes its `continue` arm at turn `j`: the slot is reserved and the Box is passed over. */
  ghost predicate PassedOver(limit: nat, turns: seq<Turn>, j: nat, id: BoxId)
    requires j < |turns|
  {
    Taken(limit, turns, j) == DrainTake(id) && id !in Before(limit, turns, j).pending
  }

  /** That arm leads back to `start_next`, the other one on to the queued record. */
  lemma PassedOverGoesOn(limit: nat, turns: seq<Turn>, j: nat, id: BoxId)
    requires j < |turns| && Taken(limit, turns, j) == DrainTake(id)
    ensures turns[j].thread < |Before(limit, turns, j + 1).pcs|
    ensures Before(limit, turns, j + 1).pcs[turns[j].thread]
         == if PassedOver(limit, turns, j, id) then DrainNext else DrainForget(id)
  {
    NextTurn(limit, turns, j);
  }

  /** In every run, restarts included: a Box is passed over exactly if no turn has put its parameters, or one has
      taken them since the last that did. */
  lemma PassedOverExactly(limit: nat, turns: seq<Turn>, j: nat, id: BoxId)
    requires j < |turns| && Taken(limit, turns, j) == DrainTake(id)
    ensures PassedOver(limit, turns, j, id) <==> !Present(limit, turns, j, id)
  {
    PendingExactly(limit, turns, j, id);
  }

  // ---- a Box that has not been started ----

  ghost predicate Quiescent(w: World, id: BoxId) {
    && id !in w.started && w.control.Valid() && Workers(w)
    && (id in w.states ==> w.states[id] == HelperModel.QUEUED)
    && (forall t :: 0 <= t < |w.pcs| ==> !OfWatchdog(w.pcs[t], id))
    && !(w.pcs[0] == KillFind(id) || (w.pcs[0].KillMark? && w.pcs[0].id == id) || w.pcs[0] == KillRelease(id))
    && (w.pcs[0].LookKnown? && w.pcs[0].id == id ==> id !in w.states)
  }

  ghost predicate Admitted(w: World, id: BoxId) {
    id in w.control.queued || id in w.control.active
  }

  /** The parameters of `id` are in `pending` only between their insertion and their removal. */
  ghost predicate Kept(w: World, id: BoxId)
    requires w.pcs != []
  {
    && (id in w.pending ==> Admitted(w, id) || w.pcs[0] == CancelPending(id))
    && (w.pcs[0] == PutPending(id) ==> Admitted(w, id) && id !in w.pending)
    && (forall t: nat :: Owns(w, t, id) && w.pcs[t] != DrainTake(id) ==> id !in w.pending && w.pcs[0] != PutPending(id))
  }

  lemma QuiescentTurn(w: World, w': World, t: nat, id: BoxId)
    requires Turned(w, w', t, id) && Quiescent(w, id) && id !in w'.started && Workers(w')
    ensures Quiescent(w', id)
  {
    forall u | 0 <= u < |w'.pcs| ensures !OfWatchdog(w'.pcs[u], id) {
      if u < |w.pcs| {
        assert !OfWatchdog(w.pcs[u], id);
      }
    }
  }

  lemma NoStray(w: World, t: nat, id: BoxId)
    requires Quiescent(w, id) && t < |w.pcs|
    ensures !Stray(w, w.pcs[t], id)
    ensures Releases(w.pcs[t], id) ==> w.pcs[t].StartFail?
  {
    assert !OfWatchdog(w.pcs[t], id);
  }

  // ---- the parameters of such a Box ----

  lemma AdmittedStays(w: World, w': World, t: nat, id: BoxId)
    requires Turned(w, w', t, id) && Quiescent(w, id) && Admitted(w, id)
    ensures Admitted(w', id) || w.pcs[t] == CancelTicket(id) || (w.pcs[t].StartFail? && w.pcs[t].id == id)
  {
    NoStray(w, t, id);
  }

  lemma RequestPc(w: World, w': World, t: nat, id: BoxId)
    requires Turned(w, w', t, id) && Workers(w)
    ensures t > 0 ==> w'.pcs[0] == w.pcs[0] && !RequestOnly(w.pcs[t])
  {
  }

  lemma KeptAdmitted(w: World, w': World, t: nat, id: BoxId)
    requires Turned(w, w', t, id) && Quiescent(w, id) && Kept(w, id)
    ensures id in w'.pending ==> Admitted(w', id) || w'.pcs[0] == CancelPending(id)
  {
    RequestPc(w, w', t, id);
    if Admitted(w, id) {
      AdmittedStays(w, w', t, id);
    }
    if w.pcs[t].StartFail? && w.pcs[t].id == id {
      assert Owns(w, t, id);
    }
  }

  lemma KeptPut(w: World, w': World, t: nat, id: BoxId)
    requires Turned(w, w', t, id) && Quiescent(w, id) && Kept(w, id)
    ensures w'.pcs[0] == PutPending(id) ==> Admitted(w', id) && id !in w'.pending
  {
    RequestPc(w, w', t, id);
    if Admitted(w, id) {
      AdmittedStays(w, w', t, id);
    }
    if w.pcs[t].StartFail? && w.pcs[t].id == id {
      assert Owns(w, t, id);
    }
  }

  lemma KeptNewOwner(w: World, w': World, t: nat, id: BoxId)
    requires Turned(w, w', t, id) && Quiescent(w, id) && Kept(w, id) && Reserves(w, w.pcs[t], id)
    requires Owns(w', t, id) && w'.pcs[t] != DrainTake(id)
    ensures id !in w'.pending && w'.pcs[0] != PutPending(id)
  {
    RequestPc(w, w', t, id);
  }

  lemma KeptOldOwner(w: World, w': World, t: nat, id: BoxId, u: nat)
    requires Turned(w, w', t, id) && Quiescent(w, id) && Kept(w, id) && Holds(w, id)
    requires Owns(w, u, id) && Owns(w', u, id) && w'.pcs[u] != DrainTake(id)
    ensures id !in w'.pending && w'.pcs[0] != PutPending(id)
  {
    RequestPc(w, w', t, id);
    if w.pcs[u] == DrainTake(id) {
      assert u == t;
    }
  }

  lemma KeptTurn(w: World, w': World, t: nat, id: BoxId)
    requires Turned(w, w', t, id) && Quiescent(w, id) && Kept(w, id) && Holds(w, id)
    ensures Kept(w', id)
  {
    KeptAdmitted(w, w', t, id);
    KeptPut(w, w', t, id);
    forall u: nat | Owns(w', u, id) && w'.pcs[u] != DrainTake(id)
      ensures id !in w'.pending && w'.pcs[0] != PutPending(id)
    {
      OwnsAfter(w, w', t, id, u);
      if Owns(w, u, id) {
        KeptOldOwner(w, w', t, id, u);
      } else {
        KeptNewOwner(w, w', t, id);
      }
    }
  }

  /** Everything above, before turn `k` of a run in which `id` has not been started by then. */
  ghost predicate Settled(w: World, id: BoxId) {
    Quiescent(w, id) && Holds(w, id) && Sole(w, id) && Kept(w, id)
  }

  lemma SettledTurn(w: World, w': World, t: nat, id: BoxId)
    requires Turned(w, w', t, id) && Settled(w, id) && id !in w'.started && Workers(w')
    ensures Settled(w', id)
  {
    QuiescentTurn(w, w', t, id);
    NoStray(w, t, id);
    KeepsSole(w, w', t, id);
    KeepsSlot(w, w', t, id);
    KeptTurn(w, w', t, id);
  }

  lemma {:induction false} AlwaysSettled(limit: nat, turns: seq<Turn>, k: nat, id: BoxId)
    requires 0 < limit && k <= |turns| && id !in Before(limit, turns, k).started
    ensures Settled(Before(limit, turns, k), id)
  {
    if k > 0 {
      TurnPasses(limit, turns, k - 1, id);
      AlwaysSettled(limit, turns, k - 1, id);
      AlwaysWorkers(limit, turns, k);
      var w := Before(limit, turns, k - 1);
      if turns[k - 1].thread < |w.pcs| {
        SettledTurn(w, Before(limit, turns, k), turns[k - 1].thread, id);
      }
    }
  }

  // ---- the ticket that a drain has taken ----

  ghost predicate QueuesAt(limit: nat, turns: seq<Turn>, k: nat, id: BoxId)
    requires k < |turns|
  {
    Queues(Before(limit, turns, k), Taken(limit, turns, k), id)
  }

  /** Turn `a` is the last before turn `j` at which `id` was put into the queue. */
  ghost predicate Ticket(limit: nat, turns: seq<Turn>, a: nat, j: nat, id: BoxId)
    requires j <= |turns|
  {
    a < j && QueuesAt(limit, turns, a, id) && forall m :: a < m < j ==> !QueuesAt(limit, turns, m, id)
  }

  ghost predicate CancelsAt(limit: nat, turns: seq<Turn>, k: nat, id: BoxId)
    requires k < |turns|
  {
    Taken(limit, turns, k) == CancelPending(id)
  }

  /** Waiting, or taken off the queue and not yet looked up. */
  ghost predicate Waiting(w: World, id: BoxId) {
    id in w.control.queued || exists t :: 0 <= t < |w.pcs| && w.pcs[t] == DrainTake(id)
  }

  lemma WaitingFollows(w: World, w': World, t: nat, id: BoxId)
    requires Turned(w, w', t, id) && w.control.Valid() && Waiting(w', id)
    ensures Queues(w, w.pcs[t], id) || Waiting(w, id)
  {
    if id !in w'.control.queued {
      var u :| 0 <= u < |w'.pcs| && w'.pcs[u] == DrainTake(id);
      assert u < |w.pcs| && u != t ==> w.pcs[u] == DrainTake(id);
    }
  }

  lemma WaitingFollowsAt(limit: nat, turns: seq<Turn>, k: nat, id: BoxId)
    requires 0 < limit && k < |turns| && Waiting(Before(limit, turns, k + 1), id)
    ensures QueuesAt(limit, turns, k, id) || Waiting(Before(limit, turns, k), id)
  {
    AlwaysValid(limit, turns, k);
    TurnPasses(limit, turns, k, id);
    var w := Before(limit, turns, k);
    if turns[k].thread < |w.pcs| {
      WaitingFollows(w, Before(limit, turns, k + 1), turns[k].thread, id);
    }
  }

  lemma NobodyWaitsAtBoot(limit: nat, turns: seq<Turn>, id: BoxId)
    ensures !Waiting(Before(limit, turns, 0), id)
  {
  }

  lemma {:induction false} WaitingHasTicket(limit: nat, turns: seq<Turn>, j: nat, id: BoxId) returns (a: nat)
    requires 0 < limit && j <= |turns| && Waiting(Before(limit, turns, j), id)
    ensures Ticket(limit, turns, a, j, id)
  {
    NobodyWaitsAtBoot(limit, turns, id);
    if QueuesAt(limit, turns, j - 1, id) {
      a := j - 1;
      TicketNow(limit, turns, a, id);
    } else {
      WaitingFollowsAt(limit, turns, j - 1, id);
      a := WaitingHasTicket(limit, turns, j - 1, id);
      TicketStays(limit, turns, a, j - 1, id);
    }
  }

  lemma TicketNow(limit: nat, turns: seq<Turn>, a: nat, id: BoxId)
    requires a < |turns| && QueuesAt(limit, turns, a, id)
    ensures Ticket(limit, turns, a, a + 1, id)
  {
  }

  lemma TicketStays(limit: nat, turns: seq<Turn>, a: nat, j: nat, id: BoxId)
    requires j < |turns| && Ticket(limit, turns, a, j, id) && !QueuesAt(limit, turns, j, id)
    ensures Ticket(limit, turns, a, j + 1, id)
  {
  }

  lemma RequestTurn(limit: nat, turns: seq<Turn>, k: nat)
    requires k < |turns| && RequestOnly(Taken(limit, turns, k))
    ensures turns[k].thread == 0 && Before(limit, turns, k).pcs != []
    ensures Before(limit, turns, k).pcs[0] == Taken(limit, turns, k)
  {
    AlwaysWorkers(limit, turns, k);
  }

  /** When a Box is admitted its parameters are not in `pending`. */
  lemma AdmittedAfresh(limit: nat, turns: seq<Turn>, a: nat, id: BoxId)
    requires 0 < limit && a < |turns| && QueuesAt(limit, turns, a, id) && id !in Before(limit, turns, a).started
    ensures !Present(limit, turns, a, id)
  {
    AlwaysSettled(limit, turns, a, id);
    RequestTurn(limit, turns, a);
    PendingExactly(limit, turns, a, id);
  }

  ghost predicate NotPutting(w: World, id: BoxId) {
    w.pcs != [] && w.pcs[0] != PutPending(id)
  }

  lemma NotPutTurn(limit: nat, turns: seq<Turn>, k: nat, id: BoxId)
    requires k < |turns| && NotPutting(Before(limit, turns, k), id) && !QueuesAt(limit, turns, k, id)
    ensures NotPutting(Before(limit, turns, k + 1), id)
  {
    TurnPasses(limit, turns, k, id);
  }

  lemma {:induction false} NotPutAgain(limit: nat, turns: seq<Turn>, i: nat, j: nat, id: BoxId)
    requires i <= j <= |turns| && NotPutting(Before(limit, turns, i), id)
    requires forall m :: i <= m < j ==> !QueuesAt(limit, turns, m, id)
    ensures NotPutting(Before(limit, turns, j), id)
    decreases j
  {
    if i < j {
      NotPutAgain(limit, turns, i, j - 1, id);
      NotPutTurn(limit, turns, j - 1, id);
    }
  }

  lemma NotPutAfterCancel(limit: nat, turns: seq<Turn>, a: nat, c: nat, k: nat, j: nat, id: BoxId)
    requires a < c < k < j <= |turns| && Ticket(limit, turns, a, j, id) && CancelsAt(limit, turns, c, id)
    ensures !PutsAt(limit, turns, k, id)
  {
    RequestTurn(limit, turns, c);
    TurnPasses(limit, turns, c, id);
    NotPutAgain(limit, turns, c + 1, k, id);
    if PutsAt(limit, turns, k, id) {
      RequestTurn(limit, turns, k);
    }
  }

  /** Once a Box is looked up, no thread looks it up again before it is admitted again. */
  ghost predicate LookedUp(w: World, id: BoxId) {
    w.control.Valid() && !Waiting(w, id)
  }

  lemma LookedUpNow(w: World, w': World, t: nat, id: BoxId)
    requires Turned(w, w', t, id) && Settled(w, id) && w.pcs[t] == DrainTake(id)
    ensures LookedUp(w', id)
  {
    assert Owns(w, t, id);
    forall u: nat | u < |w'.pcs| ensures w'.pcs[u] != DrainTake(id) {
      OneOwner(w, t, u, id);
    }
  }

  lemma OneOwner(w: World, t: nat, u: nat, id: BoxId)
    requires Sole(w, id) && Owns(w, t, id)
    ensures u < |w.pcs| && u != t ==> w.pcs[u] != DrainTake(id)
  {
    assert Owns(w, u, id) ==> u == t;
  }

  lemma {:induction false} NotLookedUpAgain(limit: nat, turns: seq<Turn>, i: nat, j: nat, id: BoxId)
    requires i <= j <= |turns| && LookedUp(Before(limit, turns, i), id)
    requires forall m :: i <= m < j ==> !QueuesAt(limit, turns, m, id)
    ensures LookedUp(Before(limit, turns, j), id)
    decreases j
  {
    if i < j {
      NotLookedUpAgain(limit, turns, i, j - 1, id);
      TurnPasses(limit, turns, j - 1, id);
      assert !QueuesAt(limit, turns, j - 1, id);
      var w, w' := Before(limit, turns, j - 1), Before(limit, turns, j);
      if turns[j - 1].thread < |w.pcs| && Waiting(w', id) {
        WaitingFollows(w, w', turns[j - 1].thread, id);
      }
    }
  }

  lemma LookedUpAt(limit: nat, turns: seq<Turn>, m: nat, id: BoxId)
    requires 0 < limit && m < |turns| && Taken(limit, turns, m) == DrainTake(id)
    requires id !in Before(limit, turns, m).started
    ensures LookedUp(Before(limit, turns, m + 1), id)
  {
    AlwaysSettled(limit, turns, m, id);
    TurnPasses(limit, turns, m, id);
    LookedUpNow(Before(limit, turns, m), Before(limit, turns, m + 1), turns[m].thread, id);
  }

  lemma OneLookUpPerTicket(limit: nat, turns: seq<Turn>, a: nat, m: nat, j: nat, id: BoxId)
    requires 0 < limit && a < m < j < |turns| && Ticket(limit, turns, a, j, id)
    requires id !in Before(limit, turns, m).started && Waiting(Before(limit, turns, j), id)
    ensures Taken(limit, turns, m) != DrainTake(id)
  {
    if Taken(limit, turns, m) == DrainTake(id) {
      LookedUpAt(limit, turns, m, id);
      NotLookedUpAgain(limit, turns, m + 1, j, id);
    }
  }

  /** The parameters of the ticket are there. */
  ghost predicate PutForTicket(limit: nat, turns: seq<Turn>, a: nat, j: nat, id: BoxId)
    requires j <= |turns|
  {
    && (exists k :: a < k < j && PutsAt(limit, turns, k, id))
    && !(exists c :: a < c < j && CancelsAt(limit, turns, c, id))
  }

  lemma PresentForTicket(limit: nat, turns: seq<Turn>, a: nat, j: nat, id: BoxId)
    requires 0 < limit && j < |turns| && Ticket(limit, turns, a, j, id)
    requires id !in Before(limit, turns, j).started && Taken(limit, turns, j) == DrainTake(id)
    requires PutForTicket(limit, turns, a, j, id)
    ensures Present(limit, turns, j, id)
  {
    var k: nat :| a < k < j && PutsAt(limit, turns, k, id);
    assert Before(limit, turns, j).pcs[turns[j].thread] == DrainTake(id);
    forall m: nat | k < m < j ensures !UnpendsAt(limit, turns, m, id) {
      StartedSince(limit, turns, m, j, id);
      OneLookUpPerTicket(limit, turns, a, m, j, id);
      assert !CancelsAt(limit, turns, m, id);
    }
    assert PutAndLeft(limit, turns, k, j, id);
  }

  lemma AbsentForTicket(limit: nat, turns: seq<Turn>, a: nat, j: nat, id: BoxId)
    requires 0 < limit && j < |turns| && Ticket(limit, turns, a, j, id)
    requires id !in Before(limit, turns, j).started && Present(limit, turns, j, id)
    ensures PutForTicket(limit, turns, a, j, id)
  {
    var k: nat :| PutAndLeft(limit, turns, k, j, id);
    StartedSince(limit, turns, a, j, id);
    AdmittedAfresh(limit, turns, a, id);
    if k < a {
      assert PutAndLeft(limit, turns, k, a, id);
    }
    forall c: nat | a < c < j ensures !CancelsAt(limit, turns, c, id) {
      if CancelsAt(limit, turns, c, id) {
        assert UnpendsAt(limit, turns, c, id);
        NotPutAfterCancel(limit, turns, a, c, k, j, id);
      }
    }
  }

  /** A Box that has not been started is passed over exactly if its drain comes before the request thread has put
      its parameters, or after a cancellation has taken them, for the ticket of its last admission. */
  lemma PassedOverByTicket(limit: nat, turns: seq<Turn>, j: nat, id: BoxId) returns (a: nat)
    requires 0 < limit && j < |turns| && Taken(limit, turns, j) == DrainTake(id)
    requires id !in Before(limit, turns, j).started
    ensures Ticket(limit, turns, a, j, id)
    ensures PassedOver(limit, turns, j, id) <==> !PutForTicket(limit, turns, a, j, id)
  {
    var w := Before(limit, turns, j);
    assert w.pcs[turns[j].thread] == DrainTake(id);
    a := WaitingHasTicket(limit, turns, j, id);
    PassedOverExactly(limit, turns, j, id);
    if PutForTicket(limit, turns, a, j, id) {
      PresentForTicket(limit, turns, a, j, id);
    }
    if Present(limit, turns, j, id) {
      AbsentForTicket(limit, turns, a, j, id);
    }
  }

  // ---- what becomes of a Box that was passed over ----

  /** It holds a slot, and no thread will start it. */
  ghost predicate Lost(w: World, id: BoxId) {
    Quiescent(w, id) && id in w.control.active && !Owned(w, id)
  }

  lemma LostTurn(w: World, w': World, t: nat, id: BoxId)
    requires Turned(w, w', t, id) && Lost(w, id) && Workers(w')
    ensures Lost(w', id)
  {
    assert !Owns(w, t, id);
    NoStray(w, t, id);
    forall u: nat ensures !Owns(w', u, id) {
      if Owns(w', u, id) {
        OwnsAfter(w, w', t, id, u);
      }
    }
    QuiescentTurn(w, w', t, id);
  }

  lemma LostAt(limit: nat, turns: seq<Turn>, k: nat, id: BoxId)
    requires k < |turns| && Lost(Before(limit, turns, k), id)
    ensures Lost(Before(limit, turns, k + 1), id)
  {
    TurnPasses(limit, turns, k, id);
    AlwaysWorkers(limit, turns, k + 1);
    var w := Before(limit, turns, k);
    if turns[k].thread < |w.pcs| {
      LostTurn(w, Before(limit, turns, k + 1), turns[k].thread, id);
    }
  }

  /** It never starts, and its slot is never free again, whatever the clients ask for. */
  lemma {:induction false} LostForever(limit: nat, turns: seq<Turn>, i: nat, j: nat, id: BoxId)
    requires i <= j <= |turns| && Lost(Before(limit, turns, i), id)
    ensures Lost(Before(limit, turns, j), id)
    decreases j
  {
    if i < j {
      LostForever(limit, turns, i, j - 1, id);
      LostAt(limit, turns, j - 1, id);
    }
  }

  lemma PassedOverIsLost(limit: nat, turns: seq<Turn>, j: nat, id: BoxId)
    requires 0 < limit && j < |turns| && PassedOver(limit, turns, j, id) && id !in Before(limit, turns, j).started
    ensures Lost(Before(limit, turns, j + 1), id)
  {
    var w, w' := Before(limit, turns, j), Before(limit, turns, j + 1);
    AlwaysSettled(limit, turns, j, id);
    TurnPasses(limit, turns, j, id);
    AlwaysWorkers(limit, turns, j + 1);
    QuiescentTurn(w, w', turns[j].thread, id);
    assert Owns(w, turns[j].thread, id);
    forall u: nat ensures !Owns(w', u, id) {
      if Owns(w', u, id) {
        OwnsAfter(w, w', turns[j].thread, id, u);
      }
    }
  }
}
