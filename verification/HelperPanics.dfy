/** When a cancellation panics (src/bin/viper-helper.rs): over every run, between its two looks. */
module HelperPanics {
  import opened Admission
  import opened HelperThreads
  import opened HelperTurns

  /** Only the request thread reads requests. */
  ghost predicate Workers(w: World) {
    w.pcs != [] && forall t :: 0 < t < |w.pcs| ==> !RequestOnly(w.pcs[t])
  }

  lemma WorkerStaysWorker(w: World, pc: Pc, t: nat, c: Choice)
    requires t > 0 && !RequestOnly(pc)
    ensures !RequestOnly(NextPc(w, pc, t, c))
  {
  }

  lemma {:induction false} AlwaysWorkers(limit: nat, turns: seq<Turn>, k: nat)
    requires k <= |turns|
    ensures Workers(Before(limit, turns, k))
  {
    if k > 0 {
      AlwaysWorkers(limit, turns, k - 1);
      NextTurn(limit, turns, k - 1);
      WorkersTurn(Before(limit, turns, k - 1), turns[k - 1].thread, turns[k - 1].choice);
    }
  }

  lemma WorkersTurn(w: World, t: nat, c: Choice)
    requires Workers(w)
    ensures Workers(Step(w, t, c))
  {
    if 0 < t < |w.pcs| {
      WorkerStaysWorker(w, w.pcs[t], t, c);
    }
  }

  // ---- between the two looks ----

  /** A turn after which the record of `id` is not, or no longer, QUEUED. */
  predicate Interferes(pc: Pc, id: BoxId) {
    pc == DrainForget(id) || Inserts(pc, id) || pc == Mark(id)
  }

  ghost predicate InterferesAt(limit: nat, turns: seq<Turn>, k: nat, id: BoxId)
    requires k < |turns|
  {
    Interferes(Taken(limit, turns, k), id)
  }

  ghost predicate Interfered(limit: nat, turns: seq<Turn>, i: nat, j: nat, id: BoxId)
    requires j <= |turns|
  {
    exists k :: i < k < j && InterferesAt(limit, turns, k, id)
  }

  /** The request thread takes no turn strictly between turns `i` and `j`. */
  ghost predicate Parked(turns: seq<Turn>, i: nat, j: nat)
    requires j <= |turns|
  {
    forall k :: i < k < j ==> turns[k].thread != 0
  }

  lemma OtherTurn(w: World, w': World, t: nat, id: BoxId)
    requires Turned(w, w', t, id) && t > 0 && Workers(w)
    ensures w'.pcs[0] == w.pcs[0]
    ensures HasStatus(w', id, HelperModel.QUEUED) <==>
              HasStatus(w, id, HelperModel.QUEUED) && !Interferes(w.pcs[t], id)
  {
  }

  /** Parked since turn `i`: the request thread is where it was, and `id` is QUEUED if it was and no turn has
      interfered. */
  ghost predicate Waited(limit: nat, turns: seq<Turn>, i: nat, j: nat, id: BoxId)
    requires i < j <= |turns|
  {
    var w, w' := Before(limit, turns, i + 1), Before(limit, turns, j);
    && w.pcs != [] && w'.pcs != [] && w'.pcs[0] == w.pcs[0]
    && (HasStatus(w', id, HelperModel.QUEUED) <==>
          HasStatus(w, id, HelperModel.QUEUED) && !Interfered(limit, turns, i, j, id))
  }

  lemma WaitsOn(limit: nat, turns: seq<Turn>, i: nat, j: nat, id: BoxId)
    requires i < j < |turns| && turns[j].thread != 0 && Waited(limit, turns, i, j, id)
    ensures Waited(limit, turns, i, j + 1, id)
  {
    AlwaysWorkers(limit, turns, j);
    TurnPasses(limit, turns, j, id);
    ParkedOneMore(limit, turns, i, j, id);
    var w, w' := Before(limit, turns, j), Before(limit, turns, j + 1);
    if turns[j].thread < |w.pcs| {
      OtherTurn(w, w', turns[j].thread, id);
    }
  }

  lemma {:induction false} WhileParked(limit: nat, turns: seq<Turn>, i: nat, j: nat, id: BoxId)
    requires i < j <= |turns| && Parked(turns, i, j)
    ensures Waited(limit, turns, i, j, id)
    decreases j
  {
    if i + 1 < j {
      WhileParked(limit, turns, i, j - 1, id);
      WaitsOn(limit, turns, i, j - 1, id);
    } else {
      AlwaysWorkers(limit, turns, j);
    }
  }

  lemma ParkedOneMore(limit: nat, turns: seq<Turn>, i: nat, j: nat, id: BoxId)
    requires i < j < |turns|
    ensures Interfered(limit, turns, i, j + 1, id) <==>
              Interfered(limit, turns, i, j, id) || InterferesAt(limit, turns, j, id)
  {
    if Interfered(limit, turns, i, j + 1, id) {
      var k :| i < k < j + 1 && InterferesAt(limit, turns, k, id);
      assert k < j ==> Interfered(limit, turns, i, j, id);
    }
  }

  /** Turns `i` and `j` are the two looks of one cancellation. */
  ghost predicate Looks(limit: nat, turns: seq<Turn>, i: nat, j: nat, id: BoxId) {
    && i < j < |turns| && Parked(turns, i, j)
    && turns[i].thread == 0 && turns[j].thread == 0
    && Taken(limit, turns, i).LookQueued? && Taken(limit, turns, i).id == id
    && Taken(limit, turns, j) == LookAgain(id)
  }

  ghost predicate Panics(limit: nat, turns: seq<Turn>, j: nat)
    requires j < |turns|
  {
    var w := Before(limit, turns, j + 1); w.pcs != [] && w.pcs[0] == Panicked
  }

  /** A request thread that has panicked serves nothing more: turns of its own change nothing. */
  lemma {:induction false} PanicIsFinal(limit: nat, turns: seq<Turn>, j: nat, k: nat)
    requires j <= k < |turns| && Panics(limit, turns, j)
    ensures Panics(limit, turns, k)
    ensures k > j && turns[k].thread == 0 ==> Before(limit, turns, k + 1) == Before(limit, turns, k)
    decreases k
  {
    if j < k {
      PanicIsFinal(limit, turns, j, k - 1);
      NextTurn(limit, turns, k);
      PanickedTurn(Before(limit, turns, k), turns[k].thread, turns[k].choice);
    }
  }

  lemma PanickedTurn(w: World, t: nat, c: Choice)
    requires w.pcs != [] && w.pcs[0] == Panicked
    ensures Step(w, t, c).pcs != [] && Step(w, t, c).pcs[0] == Panicked
    ensures t == 0 ==> Step(w, t, c) == w
  {
  }

  lemma LookAgainTurn(limit: nat, turns: seq<Turn>, j: nat, id: BoxId)
    requires j < |turns| && turns[j].thread == 0 && Taken(limit, turns, j) == LookAgain(id)
    ensures Panics(limit, turns, j) <==> !HasStatus(Before(limit, turns, j), id, HelperModel.QUEUED)
  {
    NextTurn(limit, turns, j);
  }

  lemma LookQueuedTurn(limit: nat, turns: seq<Turn>, i: nat, id: BoxId)
    requires i < |turns| && turns[i].thread == 0
    requires Taken(limit, turns, i).LookQueued? && Taken(limit, turns, i).id == id
    ensures var w := Before(limit, turns, i + 1);
            w.pcs != [] && (w.pcs[0] == LookAgain(id) ==> HasStatus(w, id, HelperModel.QUEUED))
  {
    NextTurn(limit, turns, i);
  }

  /** The second look panics exactly if, since the first, some thread dropped the queued record, started the
      Box, or marked it as timed out. */
  lemma PanicsExactly(limit: nat, turns: seq<Turn>, i: nat, j: nat, id: BoxId)
    requires Looks(limit, turns, i, j, id)
    ensures Panics(limit, turns, j) <==> Interfered(limit, turns, i, j, id)
  {
    LookQueuedTurn(limit, turns, i, id);
    WhileParked(limit, turns, i, j, id);
    LookAgainTurn(limit, turns, j, id);
  }

  // ---- every panic is one of these ----

  ghost predicate Looked(limit: nat, turns: seq<Turn>, i: nat, j: nat, id: BoxId) {
    && i < j <= |turns| && Parked(turns, i, j)
    && turns[i].thread == 0 && Taken(limit, turns, i).LookQueued? && Taken(limit, turns, i).id == id
  }

  lemma LookAgainFollows(w: World, t: nat, c: Choice, id: BoxId)
    requires Workers(w) && Step(w, t, c).pcs[0] == LookAgain(id)
    ensures if t == 0 then w.pcs[0].LookQueued? && w.pcs[0].id == id else w.pcs[0] == LookAgain(id)
  {
  }

  lemma {:induction false} SecondLookHasFirst(limit: nat, turns: seq<Turn>, j: nat, id: BoxId)
    requires j <= |turns| && Before(limit, turns, j).pcs != [] && Before(limit, turns, j).pcs[0] == LookAgain(id)
    ensures exists i :: Looked(limit, turns, i, j, id)
  {
    if j > 0 {
      AlwaysWorkers(limit, turns, j - 1);
      NextTurn(limit, turns, j - 1);
      LookAgainFollows(Before(limit, turns, j - 1), turns[j - 1].thread, turns[j - 1].choice, id);
      if turns[j - 1].thread == 0 {
        assert Looked(limit, turns, j - 1, j, id);
      } else {
        SecondLookHasFirst(limit, turns, j - 1, id);
        var i :| Looked(limit, turns, i, j - 1, id);
        assert Looked(limit, turns, i, j, id);
      }
    }
  }

  lemma PanicFollows(w: World, t: nat, c: Choice)
    requires Workers(w) && w.pcs[0] != Panicked && Step(w, t, c).pcs[0] == Panicked
    ensures t == 0 && w.pcs[0].LookAgain?
  {
  }

  /** The request thread panics at turn `j` exactly if that is the second look of a cancellation, and some thread
      has interfered since the first. */
  lemma EveryPanic(limit: nat, turns: seq<Turn>, j: nat)
    requires j < |turns| && Before(limit, turns, j).pcs != [] && Before(limit, turns, j).pcs[0] != Panicked
    ensures Panics(limit, turns, j) <==>
              exists i, id :: Looks(limit, turns, i, j, id) && Interfered(limit, turns, i, j, id)
  {
    if Panics(limit, turns, j) {
      AlwaysWorkers(limit, turns, j);
      NextTurn(limit, turns, j);
      PanicFollows(Before(limit, turns, j), turns[j].thread, turns[j].choice);
      var id := Taken(limit, turns, j).id;
      SecondLookHasFirst(limit, turns, j, id);
      var i :| Looked(limit, turns, i, j, id);
      assert Looks(limit, turns, i, j, id);
      PanicsExactly(limit, turns, i, j, id);
    }
    forall i, id | Looks(limit, turns, i, j, id) && Interfered(limit, turns, i, j, id) ensures Panics(limit, turns, j) {
      PanicsExactly(limit, turns, i, j, id);
    }
  }

  // ---- without restarts ----

  /** Watchdogs are of Boxes that have been started. */
  ghost predicate Timed(w: World, id: BoxId) {
    id !in w.started ==> forall t :: 0 <= t < |w.pcs| ==> !OfWatchdog(w.pcs[t], id)
  }

  predicate OfWatchdog(pc: Pc, id: BoxId) {
    pc == Asleep(id) || pc == Mark(id) || pc == Free(id)
  }

  lemma TimedTurn(w: World, w': World, t: nat, id: BoxId)
    requires Turned(w, w', t, id) && Timed(w, id)
    ensures Timed(w', id)
  {
    if id !in w'.started {
      forall u | 0 <= u < |w'.pcs| ensures !OfWatchdog(w'.pcs[u], id) {
        if u < |w.pcs| {
          assert !OfWatchdog(w.pcs[u], id);
        }
      }
    }
  }

  lemma {:induction false} AlwaysTimed(limit: nat, turns: seq<Turn>, k: nat, id: BoxId)
    requires k <= |turns|
    ensures Timed(Before(limit, turns, k), id)
  {
    if k > 0 {
      AlwaysTimed(limit, turns, k - 1, id);
      TurnPasses(limit, turns, k - 1, id);
      var w := Before(limit, turns, k - 1);
      if turns[k - 1].thread < |w.pcs| {
        TimedTurn(w, Before(limit, turns, k), turns[k - 1].thread, id);
      }
    }
  }

  ghost predicate StartsAt(limit: nat, turns: seq<Turn>, k: nat, id: BoxId)
    requires k < |turns|
  {
    Inserts(Taken(limit, turns, k), id)
  }

  ghost predicate StartedIn(limit: nat, turns: seq<Turn>, i: nat, j: nat, id: BoxId)
    requires j <= |turns|
  {
    exists k :: i <= k < j && StartsAt(limit, turns, k, id)
  }

  lemma StartedOneMore(limit: nat, turns: seq<Turn>, i: nat, j: nat, id: BoxId)
    requires i <= j < |turns|
    ensures StartedIn(limit, turns, i, j + 1, id) <==>
              StartedIn(limit, turns, i, j, id) || StartsAt(limit, turns, j, id)
  {
    if StartedIn(limit, turns, i, j + 1, id) {
      var k :| i <= k < j + 1 && StartsAt(limit, turns, k, id);
      assert k < j ==> StartedIn(limit, turns, i, j, id);
    }
  }

  lemma {:induction false} RestartedStays(limit: nat, turns: seq<Turn>, i: nat, j: nat)
    requires i <= j <= |turns| && Before(limit, turns, i).restarted
    ensures Before(limit, turns, j).restarted
    decreases j
  {
    if i < j {
      RestartedStays(limit, turns, i, j - 1);
      NextTurn(limit, turns, j - 1);
      RestartedTurn(Before(limit, turns, j - 1), turns[j - 1].thread, turns[j - 1].choice);
    }
  }

  lemma RestartedTurn(w: World, t: nat, c: Choice)
    requires w.restarted
    ensures Step(w, t, c).restarted
  {
  }

  lemma StartedByTurn(limit: nat, turns: seq<Turn>, k: nat, id: BoxId)
    requires k < |turns|
    ensures id in Before(limit, turns, k + 1).started <==>
              id in Before(limit, turns, k).started || StartsAt(limit, turns, k, id)
  {
    TurnPasses(limit, turns, k, id);
  }

  /** A Box is started by a turn, and that is never forgotten. */
  lemma {:induction false} StartedSince(limit: nat, turns: seq<Turn>, i: nat, j: nat, id: BoxId)
    requires i <= j <= |turns|
    ensures id in Before(limit, turns, j).started <==>
              id in Before(limit, turns, i).started || StartedIn(limit, turns, i, j, id)
    decreases j
  {
    if i < j {
      StartedSince(limit, turns, i, j - 1, id);
      StartedByTurn(limit, turns, j - 1, id);
      StartedOneMore(limit, turns, i, j - 1, id);
    }
  }

  lemma StartAgainIsRestart(limit: nat, turns: seq<Turn>, i: nat, k: nat, id: BoxId)
    requires i <= k < |turns| && id in Before(limit, turns, i).started && Inserts(Taken(limit, turns, k), id)
    ensures Before(limit, turns, |turns|).restarted
  {
    StartedSince(limit, turns, i, k, id);
    TurnPasses(limit, turns, k, id);
    RestartedStays(limit, turns, k + 1, |turns|);
  }

  /** What can interfere when no Box ID is started twice: a drain that takes the Box off the queue, and, if a Box
      of that ID has run before, its late watchdog. */
  ghost predicate DrainsOrExpires(limit: nat, turns: seq<Turn>, i: nat, k: nat, id: BoxId)
    requires i < |turns| && k < |turns|
  {
    var pc := Taken(limit, turns, k);
    pc == DrainForget(id) || (if id in Before(limit, turns, i).started then pc == Mark(id) else Inserts(pc, id))
  }

  lemma PanicsWithoutRestarts(limit: nat, turns: seq<Turn>, i: nat, j: nat, id: BoxId)
    requires Looks(limit, turns, i, j, id) && !Before(limit, turns, |turns|).restarted
    ensures Panics(limit, turns, j) <==> exists k :: i < k < j && DrainsOrExpires(limit, turns, i, k, id)
  {
    PanicsExactly(limit, turns, i, j, id);
    if Interfered(limit, turns, i, j, id) {
      var k :| i < k < j && InterferesAt(limit, turns, k, id);
      var k' := Interference(limit, turns, i, k, id);
    }
    forall k | i < k < j && DrainsOrExpires(limit, turns, i, k, id) ensures InterferesAt(limit, turns, k, id) {
    }
  }

  lemma Interference(limit: nat, turns: seq<Turn>, i: nat, k: nat, id: BoxId) returns (k': nat)
    requires i < k < |turns| && InterferesAt(limit, turns, k, id) && Taken(limit, turns, i).LookQueued?
    requires !Before(limit, turns, |turns|).restarted
    ensures i < k' <= k && DrainsOrExpires(limit, turns, i, k', id)
  {
    k' := k;
    if id in Before(limit, turns, i).started {
      if Inserts(Taken(limit, turns, k), id) {
        StartAgainIsRestart(limit, turns, i, k, id);
      }
    } else if Taken(limit, turns, k) == Mark(id) {
      AlwaysTimed(limit, turns, k, id);
      StartedSince(limit, turns, i, k, id);
      k' :| i <= k' < k && StartsAt(limit, turns, k', id);
    }
  }
}
