/** A cleanup that comes too early, one lock acquisition at a time (src/bin/viper-helper.rs): what becomes of the
    slot of a Box whose record is dropped while it is STARTING. */
module HelperDrops {
  import opened Admission
  import opened HelperThreads
  import opened HelperTurns
  import opened HelperPanics
  import opened HelperSlots

  /** The request thread is not about to write the record of `id` or to release its slot. */
  predicate Unconcerned(pc: Pc, id: BoxId) {
    && pc != PutPending(id) && pc != PutQueued(id) && pc != KillFind(id) && pc != KillRelease(id)
    && !(pc.KillMark? && pc.id == id)
  }

  /** A slot without a record: no thread is starting its Box, and no request will end it. */
  ghost predicate OffRecord(w: World, id: BoxId) {
    && w.control.Valid() && Workers(w) && Unconcerned(w.pcs[0], id)
    && id in w.control.active && id !in w.states && !Owned(w, id)
  }

  lemma StaysUnowned(w: World, w': World, t: nat, id: BoxId)
    requires Turned(w, w', t, id) && OffRecord(w, id)
    ensures !Reserves(w, w.pcs[t], id) && !Owned(w', id)
  {
    assert !Owns(w, t, id);
    forall u: nat ensures !Owns(w', u, id) {
      if Owns(w', u, id) {
        OwnsAfter(w, w', t, id, u);
      }
    }
  }

  lemma StaysUnconcerned(w: World, w': World, t: nat, id: BoxId)
    requires Turned(w, w', t, id) && OffRecord(w, id)
    ensures Unconcerned(w'.pcs[0], id)
  {
  }

  /** Only a watchdog on its way to free the slot can change that. */
  lemma OffRecordTurn(w: World, w': World, t: nat, id: BoxId)
    requires Turned(w, w', t, id) && OffRecord(w, id) && Workers(w')
    ensures if w.pcs[t] == Free(id) then id !in w'.control.active else OffRecord(w', id)
  {
    StaysUnowned(w, w', t, id);
    StaysUnconcerned(w, w', t, id);
    assert !Owns(w, t, id);
    assert t > 0 ==> !RequestOnly(w.pcs[t]);
  }

  // ---- the watchdogs that stood at their mark when the record was dropped ----

  ghost predicate AtMark(w: World, t: nat, id: BoxId) {
    t < |w.pcs| && w.pcs[t] == Mark(id)
  }

  ghost predicate AtFree(w: World, t: nat, id: BoxId) {
    t < |w.pcs| && w.pcs[t] == Free(id)
  }

  /** Thread `t` takes a turn strictly between turns `k` and `j`. */
  ghost predicate Moved(turns: seq<Turn>, k: nat, j: nat, t: nat)
    requires j <= |turns|
  {
    exists i :: k < i < j && turns[i].thread == t
  }

  /** Thread `t` is where its turns since turn `k` have taken it. */
  ghost predicate Tracked(limit: nat, turns: seq<Turn>, k: nat, j: nat, t: nat, id: BoxId)
    requires k <= j <= |turns|
  {
    && (AtMark(Before(limit, turns, j), t, id) <==>
          AtMark(Before(limit, turns, k), t, id) && !Moved(turns, k, j, t))
    && (AtFree(Before(limit, turns, j), t, id) <==>
          AtMark(Before(limit, turns, k), t, id) && Moved(turns, k, j, t))
  }

  /** Not given back so far. */
  ghost predicate Leaking(limit: nat, turns: seq<Turn>, k: nat, j: nat, id: BoxId)
    requires k <= j <= |turns|
  {
    OffRecord(Before(limit, turns, j), id) && forall t: nat :: Tracked(limit, turns, k, j, t, id)
  }

  ghost predicate GivesBackAt(limit: nat, turns: seq<Turn>, m: nat, id: BoxId)
    requires m < |turns|
  {
    id in Before(limit, turns, m).control.active && id !in Before(limit, turns, m + 1).control.active
  }

  ghost predicate GivenBack(limit: nat, turns: seq<Turn>, k: nat, j: nat, id: BoxId)
    requires j <= |turns|
  {
    exists m :: k < m < j && GivesBackAt(limit, turns, m, id)
  }

  /** Turn `k` is the cleanup of a Box that is STARTING, in a run in which no Box has been started twice so far. */
  ghost predicate DropsEarly(limit: nat, turns: seq<Turn>, k: nat, id: BoxId) {
    && k < |turns| && Taken(limit, turns, k) == CleanDrop(id)
    && Starting(Before(limit, turns, k), id) && !Before(limit, turns, k).restarted
  }

  lemma MovedOneMore(turns: seq<Turn>, k: nat, j: nat, t: nat)
    requires k < j < |turns|
    ensures Moved(turns, k, j + 1, t) <==> Moved(turns, k, j, t) || turns[j].thread == t
  {
    if Moved(turns, k, j + 1, t) {
      var i :| k < i < j + 1 && turns[i].thread == t;
      assert i < j ==> Moved(turns, k, j, t);
    }
  }

  lemma TracksTurn(w: World, w': World, t: nat, id: BoxId, u: nat)
    requires Turned(w, w', t, id) && OffRecord(w, id) && w.pcs[t] != Free(id)
    ensures AtMark(w', u, id) <==> AtMark(w, u, id) && u != t
    ensures AtFree(w', u, id) <==> AtFree(w, u, id) || (AtMark(w, u, id) && u == t)
  {
  }

  lemma TrackedOneMore(limit: nat, turns: seq<Turn>, k: nat, j: nat, t: nat, id: BoxId)
    requires k < j < |turns| && Leaking(limit, turns, k, j, id) && Taken(limit, turns, j) != Free(id)
    ensures Tracked(limit, turns, k, j + 1, t, id)
  {
    assert Tracked(limit, turns, k, j, t, id);
    TurnPasses(limit, turns, j, id);
    MovedOneMore(turns, k, j, t);
    var w, w' := Before(limit, turns, j), Before(limit, turns, j + 1);
    if turns[j].thread < |w.pcs| {
      TracksTurn(w, w', turns[j].thread, id, t);
    }
  }

  lemma LeaksOn(limit: nat, turns: seq<Turn>, k: nat, j: nat, id: BoxId)
    requires k < j < |turns| && Leaking(limit, turns, k, j, id)
    ensures if Taken(limit, turns, j) == Free(id) then GivesBackAt(limit, turns, j, id)
            else Leaking(limit, turns, k, j + 1, id)
  {
    TurnPasses(limit, turns, j, id);
    AlwaysWorkers(limit, turns, j + 1);
    var w := Before(limit, turns, j);
    if turns[j].thread < |w.pcs| {
      OffRecordTurn(w, Before(limit, turns, j + 1), turns[j].thread, id);
    }
    if Taken(limit, turns, j) != Free(id) {
      var next := j + 1;
      forall t: nat ensures Tracked(limit, turns, k, next, t, id) {
        TrackedOneMore(limit, turns, k, j, t, id);
      }
    }
  }

  lemma UntilNext(limit: nat, turns: seq<Turn>, k: nat, j: nat, id: BoxId)
    requires k < j < |turns| && (GivenBack(limit, turns, k, j, id) || Leaking(limit, turns, k, j, id))
    ensures GivenBack(limit, turns, k, j + 1, id) || Leaking(limit, turns, k, j + 1, id)
  {
    if GivenBack(limit, turns, k, j, id) {
      var m :| k < m < j && GivesBackAt(limit, turns, m, id);
      assert GivenBack(limit, turns, k, j + 1, id);
    } else {
      LeaksOn(limit, turns, k, j, id);
    }
  }

  lemma {:induction false} UntilGivenBack(limit: nat, turns: seq<Turn>, k: nat, j: nat, id: BoxId)
    requires 0 < limit && DropsEarly(limit, turns, k, id) && k < j <= |turns|
    ensures GivenBack(limit, turns, k, j, id) || Leaking(limit, turns, k, j, id)
    decreases j
  {
    if j == k + 1 {
      DropLeaks(limit, turns, k, id);
    } else {
      UntilGivenBack(limit, turns, k, j - 1, id);
      UntilNext(limit, turns, k, j - 1, id);
    }
  }

  // ---- the cleanup itself ----

  /** No thread is starting a Box that is STARTING, or past marking it. */
  lemma NobodyElse(w: World, t: nat, id: BoxId)
    requires Good(w) && Starting(w, id)
    ensures !Owns(w, t, id) && !AtFree(w, t, id)
  {
    assert t < |w.pcs| ==> ThreadOk(w, t);
  }

  lemma DropTurn(w: World, c: Choice, id: BoxId)
    requires Good(w) && Workers(w) && w.pcs[0] == CleanDrop(id) && Starting(w, id)
    ensures var w' := Step(w, 0, c); Workers(w') ==> OffRecord(w', id)
    ensures forall t: nat :: !AtFree(Step(w, 0, c), t, id) && (AtMark(Step(w, 0, c), t, id) <==> AtMark(w, t, id))
  {
    assert BoxOk(w, id);
    var w' := Step(w, 0, c);
    forall t: nat ensures !Owns(w', t, id) && !AtFree(w', t, id) && (AtMark(w', t, id) <==> AtMark(w, t, id)) {
      NobodyElse(w, t, id);
    }
  }

  lemma DropLeaks(limit: nat, turns: seq<Turn>, k: nat, id: BoxId)
    requires 0 < limit && DropsEarly(limit, turns, k, id)
    ensures Leaking(limit, turns, k, k + 1, id)
  {
    AlwaysWorkers(limit, turns, k);
    AlwaysWorkers(limit, turns, k + 1);
    EveryInterleavingIsGood(limit, turns[..k]);
    NextTurn(limit, turns, k);
    DropTurn(Before(limit, turns, k), turns[k].choice, id);
  }

  // ---- when the slot comes back ----

  /** Thread `t` stood at its mark at turn `k`, and took turns `i` and `j` later. */
  ghost predicate GoesOn(limit: nat, turns: seq<Turn>, k: nat, t: nat, i: nat, j: nat, id: BoxId) {
    k < i < j < |turns| && AtMark(Before(limit, turns, k), t, id) && turns[i].thread == t && turns[j].thread == t
  }

  /** While the slot leaks, it is given back by no other turn than the second one of such a thread. */
  lemma GivenBackBy(limit: nat, turns: seq<Turn>, k: nat, m: nat, id: BoxId) returns (i: nat)
    requires k < m < |turns| && Leaking(limit, turns, k, m, id) && GivesBackAt(limit, turns, m, id)
    ensures GoesOn(limit, turns, k, turns[m].thread, i, m, id)
  {
    LeaksOn(limit, turns, k, m, id);
    var t := turns[m].thread;
    assert AtFree(Before(limit, turns, m), t, id) && Tracked(limit, turns, k, m, t, id);
    i :| k < i < m && turns[i].thread == t;
  }

  lemma {:induction false} FirstGivenBack(limit: nat, turns: seq<Turn>, k: nat, j: nat, id: BoxId)
    returns (t: nat, i: nat, m: nat)
    requires 0 < limit && DropsEarly(limit, turns, k, id) && k < j <= |turns| && GivenBack(limit, turns, k, j, id)
    ensures GoesOn(limit, turns, k, t, i, m, id)
    decreases j
  {
    m :| k < m < j && GivesBackAt(limit, turns, m, id);
    UntilGivenBack(limit, turns, k, m, id);
    if GivenBack(limit, turns, k, m, id) {
      t, i, m := FirstGivenBack(limit, turns, k, m, id);
    } else {
      t := turns[m].thread;
      i := GivenBackBy(limit, turns, k, m, id);
    }
  }

  lemma SecondTurnGivesBack(limit: nat, turns: seq<Turn>, k: nat, t: nat, i: nat, j: nat, id: BoxId)
    requires 0 < limit && DropsEarly(limit, turns, k, id) && GoesOn(limit, turns, k, t, i, j, id)
    ensures GivenBack(limit, turns, k, j + 1, id)
  {
    UntilGivenBack(limit, turns, k, j, id);
    if GivenBack(limit, turns, k, j, id) {
      var m :| k < m < j && GivesBackAt(limit, turns, m, id);
    } else {
      assert Tracked(limit, turns, k, j, t, id) && Moved(turns, k, j, t);
      LeaksOn(limit, turns, k, j, id);
    }
  }

  /** The slot of a Box cleaned while STARTING is given back exactly if a watchdog had already found the Box
      STARTING, stood at its mark when the record was dropped, and takes its two turns after that. */
  lemma DroppedSlotExactly(limit: nat, turns: seq<Turn>, k: nat, id: BoxId)
    requires 0 < limit && DropsEarly(limit, turns, k, id)
    ensures GivenBack(limit, turns, k, |turns|, id) <==> exists t, i, j :: GoesOn(limit, turns, k, t, i, j, id)
  {
    if GivenBack(limit, turns, k, |turns|, id) {
      var t, i, j := FirstGivenBack(limit, turns, k, |turns|, id);
    }
    if exists t, i, j :: GoesOn(limit, turns, k, t, i, j, id) {
      var t, i, j :| GoesOn(limit, turns, k, t, i, j, id);
      SecondTurnGivesBack(limit, turns, k, t, i, j, id);
      var m :| k < m < j + 1 && GivesBackAt(limit, turns, m, id);
    }
  }

  /** Without such a watchdog the slot is held for good, with no record: whatever is asked, whatever threads do,
      and whether or not other Boxes are started again. */
  lemma LeaksForGood(limit: nat, turns: seq<Turn>, k: nat, j: nat, id: BoxId)
    requires 0 < limit && DropsEarly(limit, turns, k, id) && k < j <= |turns|
    requires forall t: nat :: !AtMark(Before(limit, turns, k), t, id)
    ensures id in Before(limit, turns, j).control.active && id !in Before(limit, turns, j).states
  {
    UntilGivenBack(limit, turns, k, j, id);
    if GivenBack(limit, turns, k, j, id) {
      var t, i, m := FirstGivenBack(limit, turns, k, j, id);
    }
  }
}
