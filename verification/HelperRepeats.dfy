/** Asking twice (src/bin/viper-helper.rs): the backend contract calls both KILL and CLEANUP idempotent. */
module HelperRepeats {
  import opened Outcomes
  import opened Admission
  import opened HelperModel
  import opened HelperRuns

  lemma OnlyNamed(h: Helper, unit: string, id: BoxId)
    requires Linked(h) && Names(h.states, unit, id)
    ensures FindUnit(h.states, unit) == Some(id)
    ensures FindQueued(h.states, unit).Some? <==> HasStatus(h, id, QUEUED)
  {
    OnlyBox(h, unit, id);
    assert NamesQueued(h.states, unit, id) <==> HasStatus(h, id, QUEUED);
    assert forall other :: NamesQueued(h.states, unit, other) ==> Names(h.states, unit, other);
  }

  lemma EndedAlready(h: Helper, id: BoxId, hosts: BoxId -> Host)
    requires Linked(h) && HasStatus(h, id, KILLED)
    ensures EndBox(h, id, KILLED, hosts) == (h, [])
  {
    assert Entry(h, id);
    assert h.states[id := h.states[id].(status := KILLED)] == h.states;
    assert h.control.active - {id} == h.control.active;
  }

  /** Without a record of its Box, a unit is named by none. */
  lemma UnitIsForgotten(h: Helper, id: BoxId)
    requires Linked(h) && id !in h.states
    ensures FindUnit(h.states, UnitName(id)).None? && FindQueued(h.states, UnitName(id)).None?
  {
    forall other ensures !Names(h.states, UnitName(id), other) {
      if Names(h.states, UnitName(id), other) {
        assert Entry(h, other);
        SameUnit(other, id);
      }
    }
    assert forall other :: NamesQueued(h.states, UnitName(id), other) ==> Names(h.states, UnitName(id), other);
  }

  lemma KillStopped(h: Helper, handle: string, stopped: bool, first: BoxId -> Host, again: bool,
                    second: BoxId -> Host)
    requires Linked(h) && Conserving(h)
    requires Kill(h, handle, stopped, first).1.Success? && Kill(h, handle, stopped, first).1.value.Stopped?
    ensures var h1 := Kill(h, handle, stopped, first).0;
            Kill(h1, handle, again, second)
            == (h1, if again then Success(Stopped([])) else Failure("ERR_KILL_FAILED"))
  {
    KillStep(h, handle, stopped, first);
    var unit := UnitOf(handle).value;
    var h1 := Kill(h, handle, stopped, first).0;
    var id :| Names(h.states, unit, id) && HasStatus(h1, id, KILLED);
    assert Entry(h, id) && Entry(h1, id);
    OnlyNamed(h1, unit, id);
    EndedAlready(h1, id, second);
  }

  lemma KillCancelled(h: Helper, handle: string, stopped: bool, first: BoxId -> Host, again: bool,
                      second: BoxId -> Host)
    requires Linked(h) && Conserving(h)
    requires Kill(h, handle, stopped, first).1.Success? && Kill(h, handle, stopped, first).1.value.Cancelled?
    ensures var h1 := Kill(h, handle, stopped, first).0;
            Kill(h1, handle, again, second) == (h1, Failure("ERR_HANDLE_UNKNOWN"))
  {
    KillStep(h, handle, stopped, first);
    var id := FindQueued(h.states, UnitOf(handle).value).value;
    assert Entry(h, id);
    UnitIsForgotten(Kill(h, handle, stopped, first).0, id);
  }

  /** After a kill that succeeded another changes nothing. It succeeds exactly if the first stopped a Box and its
      unit can be stopped again, which `systemctl` decides and not the record; a Box cancelled while it waited is
      not known any more. */
  lemma KillAgain(h: Helper, handle: string, stopped: bool, first: BoxId -> Host, again: bool,
                  second: BoxId -> Host)
    requires Linked(h) && Conserving(h) && Kill(h, handle, stopped, first).1.Success?
    ensures var (h1, reply) := Kill(h, handle, stopped, first);
            && Kill(h1, handle, again, second).0 == h1
            && (Kill(h1, handle, again, second).1.Success? <==> reply.value.Stopped? && again)
            && Kill(h1, handle, again, second).1
               == if reply.value.Cancelled? then Failure("ERR_HANDLE_UNKNOWN")
                  else if again then Success(Stopped([]))
                  else Failure("ERR_KILL_FAILED")
  {
    if Kill(h, handle, stopped, first).1.value.Stopped? {
      KillStopped(h, handle, stopped, first, again, second);
    } else {
      KillCancelled(h, handle, stopped, first, again, second);
    }
  }

  /** A Box that timed out is not left in its final state: killing it makes its record KILLED and, as it holds no
      slot, changes nothing else. */
  lemma KillAfterTimeout(h: Helper, handle: string, id: BoxId, stopped: bool, hosts: BoxId -> Host)
    requires Linked(h) && HasStatus(h, id, TIMED_OUT)
    requires UnitOf(handle).Some? && Names(h.states, UnitOf(handle).value, id)
    ensures var (h1, reply) := Kill(h, handle, stopped, hosts);
            if stopped then
              && h1 == h.(states := h.states[id := h.states[id].(status := KILLED)]) && h1 != h
              && reply == Success(Stopped([]))
            else h1 == h && reply == Failure("ERR_KILL_FAILED")
  {
    assert Entry(h, id);
    OnlyNamed(h, UnitOf(handle).value, id);
    assert h.control.active - {id} == h.control.active;
    assert h.states[id].status != KILLED && h.states[id].(status := KILLED).status == KILLED;
    assert h.states[id := h.states[id].(status := KILLED)][id] != h.states[id];
  }

  lemma NamedBefore(h: Helper, handle: string, reset: bool, removed: bool, hosts: BoxId -> Host)
    returns (id: BoxId)
    requires Linked(h) && Cleanup(h, handle, reset, removed, hosts).1.Success?
    ensures UnitOf(handle).Some? && Names(h.states, UnitOf(handle).value, id)
  {
    var unit := UnitOf(handle).value;
    id := if FindQueued(h.states, unit).Some? then FindQueued(h.states, unit).value
          else FindUnit(h.states, unit).value;
  }

  /** A cleanup that succeeded is not known any more: asked again it fails, contrary to the contract, though it
      changes nothing. */
  lemma CleanupAgain(h: Helper, handle: string, reset: bool, removed: bool, first: BoxId -> Host,
                     resetAgain: bool, removedAgain: bool, second: BoxId -> Host)
    requires Linked(h) && Conserving(h) && Cleanup(h, handle, reset, removed, first).1.Success?
    ensures var h1 := Cleanup(h, handle, reset, removed, first).0;
            Cleanup(h1, handle, resetAgain, removedAgain, second) == (h1, Failure("ERR_HANDLE_UNKNOWN"))
  {
    var e := CleanUp(handle, reset, removed, first);
    CleanUpStep(h, e);
    var unit, h1 := UnitOf(handle).value, Step(h, e);
    var id := NamedBefore(h, handle, reset, removed, first);
    assert Entry(h, id);
    UnitIsForgotten(h1, id);
  }
}
