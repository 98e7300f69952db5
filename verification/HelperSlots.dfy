/** When a Box loses its slot (src/bin/viper-helper.rs): over every run, restarts included. */
module HelperSlots {
  import opened Collections
  import opened Outcomes
  import opened Admission
  import opened HelperThreads
  import opened HelperTurns

  /** Thread `t` has reserved a slot for `id` and is about to use it. */
  ghost predicate Owns(w: World, t: nat, id: BoxId) {
    t < |w.pcs| && Owner(w.pcs[t]) == Some(id)
  }

  ghost predicate Owned(w: World, id: BoxId) {
    exists t: nat :: Owns(w, t, id)
  }

  /** A Box that is STARTING or being started has a slot. */
  ghost predicate Holds(w: World, id: BoxId) {
    Starting(w, id) || Owned(w, id) ==> id in w.control.active
  }

  /** It is started by one thread, once. */
  ghost predicate Sole(w: World, id: BoxId) {
    && (Starting(w, id) ==> !Owned(w, id))
    && (forall t: nat, u: nat :: Owns(w, t, id) && Owns(w, u, id) ==> t == u)
  }

  /** A kill or a watchdog gives back the slot of a Box that is STARTING, or that another thread is starting. */
  ghost predicate Stray(w: World, pc: Pc, id: BoxId) {
    (pc == Free(id) || pc == KillRelease(id)) && (Starting(w, id) || Owned(w, id))
  }

  lemma OwnsAfter(w: World, w': World, t: nat, id: BoxId, u: nat)
    requires Turned(w, w', t, id) && Owns(w', u, id)
    ensures Owns(w, u, id) || (u == t && Reserves(w, w.pcs[t], id))
    ensures u == t ==> !Releases(w.pcs[t], id) && !Inserts(w.pcs[t], id)
  {
  }

  lemma ReservesFree(w: World, pc: Pc, id: BoxId)
    requires w.control.Valid() && Reserves(w, pc, id)
    ensures id !in w.control.active
  {
  }

  lemma ReservedNowOnly(w: World, w': World, t: nat, id: BoxId)
    requires Turned(w, w', t, id) && w.control.Valid() && Holds(w, id) && Reserves(w, w.pcs[t], id)
    ensures !Starting(w', id) && forall u: nat :: Owns(w', u, id) ==> u == t
  {
    ReservesFree(w, w.pcs[t], id);
    forall u: nat | Owns(w', u, id) ensures u == t {
      OwnsAfter(w, w', t, id, u);
    }
  }

  lemma OwnersRemain(w: World, w': World, t: nat, id: BoxId)
    requires Turned(w, w', t, id) && !Reserves(w, w.pcs[t], id)
    ensures forall u: nat :: Owns(w', u, id) ==> Owns(w, u, id)
    ensures Inserts(w.pcs[t], id) || Releases(w.pcs[t], id) ==> !Owns(w', t, id)
    ensures Inserts(w.pcs[t], id) ==> Owns(w, t, id)
  {
    forall u: nat | Owns(w', u, id) ensures Owns(w, u, id) {
      OwnsAfter(w, w', t, id, u);
    }
  }

  lemma KeepsSole(w: World, w': World, t: nat, id: BoxId)
    requires Turned(w, w', t, id) && w.control.Valid() && Holds(w, id) && Sole(w, id)
    ensures Sole(w', id)
  {
    if Reserves(w, w.pcs[t], id) {
      ReservedNowOnly(w, w', t, id);
    } else {
      OwnersRemain(w, w', t, id);
      assert Starting(w', id) ==> Starting(w, id) || Inserts(w.pcs[t], id);
    }
  }

  lemma KeepsSlot(w: World, w': World, t: nat, id: BoxId)
    requires Turned(w, w', t, id) && w.control.Valid() && Holds(w, id) && Sole(w, id)
    requires !Stray(w, w.pcs[t], id)
    ensures Holds(w', id)
  {
    if !Reserves(w, w.pcs[t], id) {
      OwnersRemain(w, w', t, id);
      assert Starting(w', id) ==> Starting(w, id) || Owns(w, t, id);
      if w.pcs[t].StartFail? && w.pcs[t].id == id {
        assert Owns(w, t, id);
      }
    }
  }

  /** A stray turn takes the slot of a Box that needs it, at once. */
  lemma StrayBreaks(w: World, w': World, t: nat, id: BoxId)
    requires Turned(w, w', t, id) && Stray(w, w.pcs[t], id)
    ensures !Holds(w', id)
    ensures Starting(w, id) ==> Starting(w', id) && id !in w'.control.active
  {
    if !Starting(w, id) {
      var u: nat :| Owns(w, u, id);
      assert Owns(w', u, id);
    }
  }

  // ---- whole runs ----

  ghost predicate StrayAt(limit: nat, turns: seq<Turn>, k: nat, id: BoxId)
    requires k < |turns|
  {
    Stray(Before(limit, turns, k), Taken(limit, turns, k), id)
  }

  ghost predicate HoldsAt(limit: nat, turns: seq<Turn>, k: nat, id: BoxId)
    requires k <= |turns|
  {
    Holds(Before(limit, turns, k), id)
  }

  lemma {:induction false} AlwaysValid(limit: nat, turns: seq<Turn>, k: nat)
    requires 0 < limit && k <= |turns|
    ensures Before(limit, turns, k).control.Valid()
  {
    EveryInterleavingKeepsOrder(limit, turns[..k]);
  }

  lemma {:induction false} HeldUntil(limit: nat, turns: seq<Turn>, k: nat, id: BoxId)
    requires 0 < limit && k <= |turns| && forall i :: 0 <= i < k ==> !StrayAt(limit, turns, i, id)
    ensures HoldsAt(limit, turns, k, id) && Sole(Before(limit, turns, k), id)
  {
    if k > 0 {
      HeldUntil(limit, turns, k - 1, id);
      AlwaysValid(limit, turns, k - 1);
      TurnPasses(limit, turns, k - 1, id);
      assert !StrayAt(limit, turns, k - 1, id);
      var w, w' := Before(limit, turns, k - 1), Before(limit, turns, k);
      if turns[k - 1].thread < |w.pcs| {
        KeepsSole(w, w', turns[k - 1].thread, id);
        KeepsSlot(w, w', turns[k - 1].thread, id);
      }
    }
  }

  lemma StrayShows(limit: nat, turns: seq<Turn>, k: nat, id: BoxId)
    requires k < |turns| && StrayAt(limit, turns, k, id)
    ensures !HoldsAt(limit, turns, k + 1, id)
  {
    TurnPasses(limit, turns, k, id);
    StrayBreaks(Before(limit, turns, k), Before(limit, turns, k + 1), turns[k].thread, id);
  }

  /** A Box holds a slot whenever it is STARTING or being started, throughout a run, if and only if no turn of
      the run is stray for it; however often its ID is started. */
  lemma SlotHeldExactly(limit: nat, turns: seq<Turn>, id: BoxId)
    requires 0 < limit
    ensures (forall k :: 0 <= k <= |turns| ==> HoldsAt(limit, turns, k, id))
            <==> (forall k :: 0 <= k < |turns| ==> !StrayAt(limit, turns, k, id))
  {
    if forall k :: 0 <= k <= |turns| ==> HoldsAt(limit, turns, k, id) {
      forall k | 0 <= k < |turns| ensures !StrayAt(limit, turns, k, id) {
        if StrayAt(limit, turns, k, id) {
          StrayShows(limit, turns, k, id);
        }
      }
    }
    if forall k :: 0 <= k < |turns| ==> !StrayAt(limit, turns, k, id) {
      forall k | 0 <= k <= |turns| ensures HoldsAt(limit, turns, k, id) {
        HeldUntil(limit, turns, k, id);
      }
    }
  }

  /** Without stray turns at most `limit` Boxes are STARTING, restarts or not. */
  lemma CapacityWithoutStrays(limit: nat, turns: seq<Turn>)
    requires 0 < limit && forall k, id :: 0 <= k < |turns| ==> !StrayAt(limit, turns, k, id)
    ensures var w := Before(limit, turns, |turns|);
            StartingBoxes(w) <= w.control.active && |StartingBoxes(w)| <= limit
  {
    var w := Before(limit, turns, |turns|);
    forall id | id in StartingBoxes(w) ensures id in w.control.active {
      HeldUntil(limit, turns, |turns|, id);
    }
    AlwaysValid(limit, turns, |turns|);
    LimitIsFixed(Boot(limit), turns[..|turns|]);
    SubsetSize(StartingBoxes(w), w.control.active);
  }
}
