/** A handler that runs without interruption, one lock acquisition after the other, does what the atomic handler of
    HelperModel does: the two models of the helper (src/bin/viper-helper.rs) are one. Where no other
    thread steps in, a step of HelperModel is a stretch of a run of HelperThreads. */
module HelperSolo {
  import opened Collections
  import opened Outcomes
  import opened Admission
  import opened AdmissionOrder
  import HelperAnswers
  import HelperModel
  import HelperRepeats
  import HelperRuns
  import opened HelperThreads

  type Helper = HelperModel.Helper
  type Host = HelperModel.Host

  function Statuses(states: HelperModel.States): map<BoxId, Status> {
    map id | id in states :: states[id].status
  }

  /** The world shows what the helper holds; where its threads stand is left open. */
  ghost predicate Shows(w: World, h: Helper) {
    w.control == h.control && w.pending == h.pending.Keys && w.states == Statuses(h.states)
  }

  /** Turns of thread `t` alone. */
  function Alone(w: World, t: nat, choices: seq<Choice>): World
    decreases |choices|
  {
    if choices == [] then w else Alone(Step(w, t, choices[0]), t, choices[1..])
  }

  lemma {:induction false} AloneJoined(w: World, t: nat, a: seq<Choice>, b: seq<Choice>)
    ensures Alone(w, t, a + b) == Alone(Alone(w, t, a), t, b)
    decreases |a|
  {
    if a == [] {
      assert a + b == b;
    } else {
      assert (a + b)[0] == a[0] && (a + b)[1..] == a[1..] + b;
      AloneJoined(Step(w, t, a[0]), t, a[1..], b);
    }
  }

  /** Taking these turns alone, thread `t` goes from where it stands to `pc`, the helper is then `h`, and the other
      threads are where they were; threads that are new sleep. */
  ghost predicate Comes(w: World, t: nat, choices: seq<Choice>, pc: Pc, h: Helper) {
    var w' := Alone(w, t, choices);
    && t < |w.pcs| <= |w'.pcs| && w'.pcs[t] == pc && Shows(w', h)
    && (forall u :: 0 <= u < |w.pcs| && u != t ==> w'.pcs[u] == w.pcs[u])
    && (forall u :: |w.pcs| <= u < |w'.pcs| ==> w'.pcs[u].Asleep?)
  }

  lemma ComesJoined(w: World, t: nat, a: seq<Choice>, pc: Pc, h: Helper, b: seq<Choice>, pc': Pc, h': Helper)
    requires Comes(w, t, a, pc, h) && Comes(Alone(w, t, a), t, b, pc', h')
    ensures Comes(w, t, a + b, pc', h')
  {
    AloneJoined(w, t, a, b);
  }

  lemma OneTurn(w: World, t: nat, c: Choice)
    ensures Alone(w, t, [c]) == Step(w, t, c)
  {
    assert [c][1..] == [];
  }

  function Ok(ok: bool): Choice {
    Choice(AskDrain, ok)
  }

  // ---- turns that only look, or write one structure ----

  lemma Looks(w: World, t: nat, c: Choice, h: Helper)
    requires t < |w.pcs| && Shows(w, h)
    requires OpOf(w.pcs[t]).None? && PendingAfter(w, w.pcs[t]) == w.pending && StatesAfter(w, w.pcs[t]) == w.states
    requires !w.pcs[t].StartInsert?
    ensures Comes(w, t, [c], NextPc(w, w.pcs[t], t, c), h)
  {
    OneTurn(w, t, c);
  }

  lemma Operates(w: World, t: nat, c: Choice, h: Helper)
    requires t < |w.pcs| && Shows(w, h) && OpOf(w.pcs[t]).Some?
    ensures Comes(w, t, [c], NextPc(w, w.pcs[t], t, c), h.(control := Apply(h.control, OpOf(w.pcs[t]).value)))
  {
    OneTurn(w, t, c);
  }

  lemma Writes(w: World, t: nat, c: Choice, h: Helper, h': Helper)
    requires t < |w.pcs| && Shows(w, h) && OpOf(w.pcs[t]).None? && h'.control == h.control
    requires PendingAfter(w, w.pcs[t]) == h'.pending.Keys && StatesAfter(w, w.pcs[t]) == Statuses(h'.states)
    ensures Comes(w, t, [c], NextPc(w, w.pcs[t], t, c), h')
  {
    OneTurn(w, t, c);
  }

  lemma StatusSet(states: HelperModel.States, id: BoxId, u: HelperModel.UnitState)
    ensures Statuses(states[id := u]) == Statuses(states)[id := u.status]
  {
  }

  lemma StatusDropped(states: HelperModel.States, id: BoxId)
    ensures Statuses(states - {id}) == Statuses(states) - {id}
  {
  }

  // ---- starting a Box whose slot is reserved ----

  /** What `spawn_box` leaves when the checks pass or fail, the slot being given back by its caller. */
  ghost function Started(h: Helper, p: HelperModel.SpawnParams, host: Host): Helper {
    match HelperModel.SpawnBox(p, h.states, h.gateways, host)
    case Success((u, _)) => HelperModel.Record(h, p.Id(), u)
    case Failure(_) => h.(control := h.control.Release(p.Id()))
  }

  lemma Inserts(w: World, t: nat, h: Helper, p: HelperModel.SpawnParams, host: Host, draining: bool)
    requires t < |w.pcs| && Shows(w, h) && w.pcs[t] == StartInsert(p.Id(), draining)
    requires HelperModel.SpawnBox(p, h.states, h.gateways, host).Success?
    ensures Comes(w, t, [Ok(true)], if draining then DrainNext else Rest(t), Started(h, p, host))
  {
    StatusSet(h.states, p.Id(), HelperModel.SpawnBox(p, h.states, h.gateways, host).value.0);
    Writes(w, t, Ok(true), h, Started(h, p, host));
  }

  lemma Fails(w: World, t: nat, h: Helper, p: HelperModel.SpawnParams, host: Host, draining: bool)
    requires t < |w.pcs| && Shows(w, h) && w.pcs[t] == StartFail(p.Id(), draining)
    requires HelperModel.SpawnBox(p, h.states, h.gateways, host).Failure?
    ensures Comes(w, t, [Ok(true)], if draining then DrainNext else Rest(t), Started(h, p, host))
  {
    Operates(w, t, Ok(true), h);
  }

  lemma Starts(w: World, t: nat, h: Helper, p: HelperModel.SpawnParams, host: Host, draining: bool)
    returns (choices: seq<Choice>)
    requires t < |w.pcs| && Shows(w, h) && w.pcs[t] == StartLook(p.Id(), draining)
    ensures Comes(w, t, choices, if draining then DrainNext else Rest(t), Started(h, p, host))
  {
    var r := HelperModel.SpawnBox(p, h.states, h.gateways, host);
    var a, next := [Ok(r.Success?)], if r.Success? then StartInsert(p.Id(), draining) else StartFail(p.Id(), draining);
    Looks(w, t, Ok(r.Success?), h);
    if r.Success? {
      Inserts(Alone(w, t, a), t, h, p, host, draining);
    } else {
      Fails(Alone(w, t, a), t, h, p, host, draining);
    }
    choices := a + [Ok(true)];
    ComesJoined(w, t, a, next, h, [Ok(true)], if draining then DrainNext else Rest(t), Started(h, p, host));
  }

  // ---- the drain loop ----

  lemma Pops(w: World, t: nat, h: Helper, popped: Helper, id: BoxId)
    requires t < |w.pcs| && Shows(w, h) && w.pcs[t] == DrainNext && HelperRuns.Popped(h, popped, id)
    ensures Comes(w, t, [Ok(true)], DrainTake(id), popped)
  {
    Operates(w, t, Ok(true), h);
  }

  /** One turn of the loop, from `start_next` to the next `start_next`. */
  lemma Launches(w: World, t: nat, h: Helper, popped: Helper, id: BoxId, host: Host) returns (choices: seq<Choice>)
    requires t < |w.pcs| && Shows(w, h) && w.pcs[t] == DrainNext
    requires HelperModel.Linked(h) && HelperRuns.Popped(h, popped, id)
    ensures Comes(w, t, choices, DrainNext, HelperModel.Launch(popped, id, host).0)
  {
    HelperRuns.PoppedFacts(h, popped, id);
    Pops(w, t, h, popped, id);
    var rest := TakesUp(Alone(w, t, [Ok(true)]), t, popped, id, host);
    ComesJoined(w, t, [Ok(true)], DrainTake(id), popped, rest, DrainNext, HelperModel.Launch(popped, id, host).0);
    choices := [Ok(true)] + rest;
  }

  lemma TakesUp(w: World, t: nat, h: Helper, id: BoxId, host: Host) returns (choices: seq<Choice>)
    requires t < |w.pcs| && Shows(w, h) && w.pcs[t] == DrainTake(id) && id in h.pending && h.pending[id].Id() == id
    ensures Comes(w, t, choices, DrainNext, HelperModel.Launch(h, id, host).0)
  {
    var c, h1 := Ok(true), h.(pending := h.pending - {id});
    Writes(w, t, c, h, h1);
    var rest := Forgets(Alone(w, t, [c]), t, h1, h.pending[id], host);
    ComesJoined(w, t, [c], DrainForget(id), h1, rest, DrainNext, HelperModel.Launch(h, id, host).0);
    choices := [c] + rest;
  }

  lemma Forgets(w: World, t: nat, h: Helper, p: HelperModel.SpawnParams, host: Host) returns (choices: seq<Choice>)
    requires t < |w.pcs| && Shows(w, h) && w.pcs[t] == DrainForget(p.Id())
    ensures Comes(w, t, choices, DrainNext, Started(h.(states := h.states - {p.Id()}), p, host))
  {
    var c, h1 := Ok(true), h.(states := h.states - {p.Id()});
    StatusDropped(h.states, p.Id());
    Writes(w, t, c, h, h1);
    var rest := Starts(Alone(w, t, [c]), t, h1, p, host, true);
    ComesJoined(w, t, [c], StartLook(p.Id(), true), h1, rest, DrainNext, Started(h1, p, host));
    choices := [c] + rest;
  }

  lemma {:induction false} Drains(w: World, t: nat, h: Helper, hosts: BoxId -> Host) returns (choices: seq<Choice>)
    requires t < |w.pcs| && Shows(w, h) && w.pcs[t] == DrainNext && HelperModel.Linked(h)
    ensures Comes(w, t, choices, Rest(t), HelperModel.DrainQueue(h, hosts).0)
    decreases |h.control.queued|
  {
    var (control, next) := h.control.StartNext();
    if next.None? {
      choices := [Ok(true)];
      Operates(w, t, Ok(true), h);
    } else {
      var popped := h.(control := control);
      var first := Launches(w, t, h, popped, next.value, hosts(next.value));
      var h1 := HelperModel.Launch(popped, next.value, hosts(next.value)).0;
      HelperRuns.LaunchKeeps(h, popped, next.value, hosts(next.value));
      var rest := Drains(Alone(w, t, first), t, h1, hosts);
      ComesJoined(w, t, first, DrainNext, h1, rest, Rest(t), HelperModel.DrainQueue(h1, hosts).0);
      choices := first + rest;
    }
  }

  // ---- a request to spawn ----

  /** A spawn request, alone: the state of the atomic handler, and the request thread idle again. */
  lemma SpawnsAlone(w: World, h: Helper, p: HelperModel.SpawnParams, live: set<string>, host: Host)
    returns (choices: seq<Choice>)
    requires w.pcs != [] && w.pcs[0] == Idle && Shows(w, h)
    ensures Comes(w, 0, choices, Idle, HelperModel.AdmitSpawn(h, p, live, host).0)
  {
    var ask, ok := Choice(AskSpawn(p.Id()), true), HelperModel.QueueableSpawn(p, h.states, h.gateways, live).Success?;
    Looks(w, 0, ask, h);
    var w1 := Alone(w, 0, [ask]);
    Looks(w1, 0, Ok(ok), h);
    ComesJoined(w, 0, [ask], SpawnLook(p.Id()), h, [Ok(ok)], if ok then SpawnAdmit(p.Id()) else Idle, h);
    if ok {
      var rest := Admits(Alone(w, 0, [ask] + [Ok(ok)]), h, p, live, host);
      ComesJoined(w, 0, [ask] + [Ok(ok)], SpawnAdmit(p.Id()), h, rest, Idle,
                  HelperModel.AdmitSpawn(h, p, live, host).0);
      choices := [ask] + [Ok(ok)] + rest;
    } else {
      choices := [ask] + [Ok(ok)];
    }
  }

  lemma Admits(w: World, h: Helper, p: HelperModel.SpawnParams, live: set<string>, host: Host)
    returns (choices: seq<Choice>)
    requires w.pcs != [] && w.pcs[0] == SpawnAdmit(p.Id()) && Shows(w, h)
    requires HelperModel.QueueableSpawn(p, h.states, h.gateways, live).Success?
    ensures Comes(w, 0, choices, Idle, HelperModel.AdmitSpawn(h, p, live, host).0)
  {
    var (control, decision) := h.control.Admit(p.Id());
    var c, h1 := Ok(true), h.(control := control);
    Operates(w, 0, c, h);
    var w1 := Alone(w, 0, [c]);
    match decision
    case Failure(_) =>
      choices := [c];
    case Success(Start) =>
      var rest := Starts(w1, 0, h1, p, host, false);
      ComesJoined(w, 0, [c], StartLook(p.Id(), false), h1, rest, Idle, Started(h1, p, host));
      choices := [c] + rest;
    case Success(Queued(_)) =>
      Puts(w1, h1, p);
      var h2 := Queued(h1, p);
      ComesJoined(w, 0, [c], PutPending(p.Id()), h1, [c] + [c], Idle, h2);
      choices := [c] + ([c] + [c]);
  }

  function Queued(h: Helper, p: HelperModel.SpawnParams): Helper {
    h.(pending := h.pending[p.Id() := p],
       states := h.states[p.Id() := HelperModel.UnitState(HelperModel.UnitName(p.Id()), HelperModel.QUEUED, "", 0, 0)])
  }

  lemma Puts(w: World, h: Helper, p: HelperModel.SpawnParams)
    requires w.pcs != [] && w.pcs[0] == PutPending(p.Id()) && Shows(w, h)
    ensures Comes(w, 0, [Ok(true)] + [Ok(true)], Idle, Queued(h, p))
  {
    var c, h1 := Ok(true), h.(pending := h.pending[p.Id() := p]);
    Writes(w, 0, c, h, h1);
    StatusSet(h.states, p.Id(), Queued(h, p).states[p.Id()]);
    Writes(Alone(w, 0, [c]), 0, c, h1, Queued(h, p));
    ComesJoined(w, 0, [c], PutQueued(p.Id()), h1, [c], Idle, Queued(h, p));
  }

  // ---- requests that end a Box ----

  /** Cancelling a Box that waits, from the first look on. */
  lemma CancelsAlone(w: World, h: Helper, id: BoxId, kill: bool) returns (choices: seq<Choice>)
    requires w.pcs != [] && w.pcs[0] == LookQueued(id, kill) && Shows(w, h)
    requires HelperModel.HasStatus(h, id, HelperModel.QUEUED)
    ensures Comes(w, 0, choices, Idle, HelperModel.CancelQueuedBox(h, id))
  {
    var c := Ok(true);
    Looks(w, 0, c, h);
    var w1 := Alone(w, 0, [c]);
    Looks(w1, 0, c, h);
    ComesJoined(w, 0, [c], LookAgain(id), h, [c], CancelTicket(id), h);
    var rest := CancelsOn(Alone(w, 0, [c] + [c]), h, id);
    ComesJoined(w, 0, [c] + [c], CancelTicket(id), h, rest, Idle, HelperModel.CancelQueuedBox(h, id));
    choices := [c] + [c] + rest;
  }

  lemma CancelsOn(w: World, h: Helper, id: BoxId) returns (choices: seq<Choice>)
    requires w.pcs != [] && w.pcs[0] == CancelTicket(id) && Shows(w, h)
    ensures Comes(w, 0, choices, Idle, HelperModel.CancelQueuedBox(h, id))
  {
    var c := Ok(true);
    var h1 := h.(control := h.control.CancelQueued(id));
    Operates(w, 0, c, h);
    var rest := CancelsLast(Alone(w, 0, [c]), h1, id);
    ComesJoined(w, 0, [c], CancelPending(id), h1, rest, Idle, HelperModel.CancelQueuedBox(h, id));
    choices := [c] + rest;
  }

  lemma CancelsLast(w: World, h: Helper, id: BoxId) returns (choices: seq<Choice>)
    requires w.pcs != [] && w.pcs[0] == CancelPending(id) && Shows(w, h)
    ensures Comes(w, 0, choices, Idle, h.(pending := h.pending - {id}, states := h.states - {id}))
  {
    var c := Ok(true);
    var h1 := h.(pending := h.pending - {id});
    var h2 := h1.(states := h.states - {id});
    Writes(w, 0, c, h, h1);
    StatusDropped(h.states, id);
    Writes(Alone(w, 0, [c]), 0, c, h1, h2);
    ComesJoined(w, 0, [c], CancelRecord(id), h1, [c], Idle, h2);
    choices := [c] + [c];
  }

  /** Looking up a Box that does not wait; `ok` is what `systemctl` answers. */
  lemma LooksUp(w: World, h: Helper, id: BoxId, kill: bool, ok: bool) returns (choices: seq<Choice>)
    requires w.pcs != [] && w.pcs[0] == LookQueued(id, kill) && Shows(w, h)
    requires !HelperModel.HasStatus(h, id, HelperModel.QUEUED)
    ensures Comes(w, 0, choices,
                  if id !in h.states || !ok then Idle else if kill then KillFind(id) else CleanFind(id), h)
  {
    Looks(w, 0, Ok(true), h);
    var w1 := Alone(w, 0, [Ok(true)]);
    Looks(w1, 0, Ok(ok), h);
    ComesJoined(w, 0, [Ok(true)], LookKnown(id, kill), h, [Ok(ok)], NextPc(w1, LookKnown(id, kill), 0, Ok(ok)), h);
    choices := [Ok(true)] + [Ok(ok)];
  }

  /** A Box whose record is marked gives its slot back and drains if it held one. */
  lemma ReleasesAlone(w: World, t: nat, h: Helper, id: BoxId, hosts: BoxId -> Host) returns (choices: seq<Choice>)
    requires t < |w.pcs| && Shows(w, h) && (w.pcs[t] == KillRelease(id) || w.pcs[t] == Free(id))
    requires w.pcs[t].KillRelease? ==> t == 0
    requires w.pcs[t].Free? ==> t > 0
    requires HelperModel.Linked(h.(control := h.control.Release(id)))
    ensures var h1 := h.(control := h.control.Release(id));
            Comes(w, t, choices, Rest(t),
                  if id in h.control.active then HelperModel.DrainQueue(h1, hosts).0 else h1)
  {
    var c := Ok(true);
    var h1 := h.(control := h.control.Release(id));
    Operates(w, t, c, h);
    if id in h.control.active {
      var rest := Drains(Alone(w, t, [c]), t, h1, hosts);
      ComesJoined(w, t, [c], DrainNext, h1, rest, Rest(t), HelperModel.DrainQueue(h1, hosts).0);
      choices := [c] + rest;
    } else {
      choices := [c];
    }
  }

  lemma MarkLinked(h: Helper, id: BoxId, status: Status)
    requires HelperModel.Linked(h) && id in h.states && h.states[id].status != HelperModel.QUEUED
    requires status == HelperModel.KILLED || status == HelperModel.TIMED_OUT
    ensures HelperModel.Linked(HelperRuns.Marked(h, id, status))
  {
    HelperRuns.MarkEnded(h, id, status);
  }

  /** The record of `id` with its new status. */
  function Remarked(h: Helper, id: BoxId, status: Status): Helper
    requires id in h.states
  {
    h.(states := h.states[id := h.states[id].(status := status)])
  }

  lemma KillsOn(w: World, h: Helper, id: BoxId, hosts: BoxId -> Host) returns (choices: seq<Choice>)
    requires w.pcs != [] && w.pcs[0] == KillFind(id) && Shows(w, h) && HelperModel.Linked(h)
    requires id in h.states && h.states[id].status != HelperModel.QUEUED
    ensures Comes(w, 0, choices, Idle, HelperModel.EndBox(h, id, HelperModel.KILLED, hosts).0)
  {
    var c := Ok(true);
    Looks(w, 0, c, h);
    var w1 := Alone(w, 0, [c]);
    MarksKilled(w1, h, id);
    MarkLinked(h, id, HelperModel.KILLED);
    var h1 := Remarked(h, id, HelperModel.KILLED);
    ComesJoined(w, 0, [c], KillMark(id, true), h, [c], KillRelease(id), h1);
    var rest := ReleasesAlone(Alone(w, 0, [c] + [c]), 0, h1, id, hosts);
    ComesJoined(w, 0, [c] + [c], KillRelease(id), h1, rest, Idle,
                HelperModel.EndBox(h, id, HelperModel.KILLED, hosts).0);
    choices := [c] + [c] + rest;
  }

  lemma MarksKilled(w: World, h: Helper, id: BoxId)
    requires w.pcs != [] && w.pcs[0] == KillMark(id, true) && Shows(w, h) && id in h.states
    ensures Comes(w, 0, [Ok(true)], KillRelease(id), Remarked(h, id, HelperModel.KILLED))
  {
    StatusSet(h.states, id, h.states[id].(status := HelperModel.KILLED));
    Writes(w, 0, Ok(true), h, Remarked(h, id, HelperModel.KILLED));
  }

  /** A kill, alone. */
  lemma KillsAlone(w: World, h: Helper, id: BoxId, stopped: bool, hosts: BoxId -> Host) returns (choices: seq<Choice>)
    requires w.pcs != [] && w.pcs[0] == Idle && Shows(w, h) && HelperModel.Linked(h)
    ensures Comes(w, 0, choices, Idle, HelperModel.Kill(h, HelperModel.HandleOf(id), stopped, hosts).0)
  {
    var ask := Choice(AskKill(id), true);
    Looks(w, 0, ask, h);
    var rest := KillsAsked(Alone(w, 0, [ask]), h, id, stopped, hosts);
    ComesJoined(w, 0, [ask], LookQueued(id, true), h, rest, Idle,
                HelperModel.Kill(h, HelperModel.HandleOf(id), stopped, hosts).0);
    choices := [ask] + rest;
  }

  /** What the atomic handlers do with the handle of `id`. */
  lemma HandleIsMeant(h: Helper, id: BoxId, stopped: bool, hosts: BoxId -> Host)
    requires HelperModel.Linked(h)
    ensures HelperModel.Kill(h, HelperModel.HandleOf(id), stopped, hosts).0
         == if id !in h.states then h
            else if h.states[id].status == HelperModel.QUEUED then HelperModel.CancelQueuedBox(h, id)
            else if !stopped then h
            else HelperModel.EndBox(h, id, HelperModel.KILLED, hosts).0
    ensures forall reset, removed ::
              HelperModel.Cleanup(h, HelperModel.HandleOf(id), reset, removed, hosts).0
              == if id !in h.states then h
                 else if h.states[id].status == HelperModel.QUEUED then HelperModel.CancelQueuedBox(h, id)
                 else if !reset || !removed then h
                 else HelperModel.DrainQueue(h.(states := h.states - {id}), hosts).0
  {
    HelperModel.HandleNames(id);
    if id in h.states {
      HelperAnswers.NamedByHandle(h, id);
      HelperAnswers.WithoutExactly(h, id);
    } else {
      HelperRepeats.UnitIsForgotten(h, id);
    }
  }

  lemma KillsAsked(w: World, h: Helper, id: BoxId, stopped: bool, hosts: BoxId -> Host) returns (choices: seq<Choice>)
    requires w.pcs != [] && w.pcs[0] == LookQueued(id, true) && Shows(w, h) && HelperModel.Linked(h)
    ensures Comes(w, 0, choices, Idle, HelperModel.Kill(h, HelperModel.HandleOf(id), stopped, hosts).0)
  {
    HandleIsMeant(h, id, stopped, hosts);
    if HelperModel.HasStatus(h, id, HelperModel.QUEUED) {
      choices := CancelsAlone(w, h, id, true);
    } else {
      choices := LooksUp(w, h, id, true, stopped);
      if id in h.states && stopped {
        var rest := KillsOn(Alone(w, 0, choices), h, id, hosts);
        ComesJoined(w, 0, choices, KillFind(id), h, rest, Idle,
                    HelperModel.EndBox(h, id, HelperModel.KILLED, hosts).0);
        choices := choices + rest;
      }
    }
  }

  lemma CleansOn(w: World, h: Helper, id: BoxId, removed: bool, hosts: BoxId -> Host) returns (choices: seq<Choice>)
    requires w.pcs != [] && w.pcs[0] == CleanFind(id) && Shows(w, h) && HelperModel.Linked(h)
    requires id in h.states && h.states[id].status != HelperModel.QUEUED
    ensures Comes(w, 0, choices, Idle,
                  if removed then HelperModel.DrainQueue(h.(states := h.states - {id}), hosts).0 else h)
  {
    Looks(w, 0, Ok(removed), h);
    choices := [Ok(removed)];
    if removed {
      var rest := DropsAlone(Alone(w, 0, choices), h, id, hosts);
      ComesJoined(w, 0, choices, CleanDrop(id), h, rest, Idle,
                  HelperModel.DrainQueue(h.(states := h.states - {id}), hosts).0);
      choices := choices + rest;
    }
  }

  lemma DropsAlone(w: World, h: Helper, id: BoxId, hosts: BoxId -> Host) returns (choices: seq<Choice>)
    requires w.pcs != [] && w.pcs[0] == CleanDrop(id) && Shows(w, h) && HelperModel.Linked(h)
    requires id in h.states && h.states[id].status != HelperModel.QUEUED
    ensures Comes(w, 0, choices, Idle, HelperModel.DrainQueue(h.(states := h.states - {id}), hosts).0)
  {
    var c, h1 := Ok(true), h.(states := h.states - {id});
    StatusDropped(h.states, id);
    Writes(w, 0, c, h, h1);
    DropLinked(h, id);
    var rest := Drains(Alone(w, 0, [c]), 0, h1, hosts);
    ComesJoined(w, 0, [c], DrainNext, h1, rest, Idle, HelperModel.DrainQueue(h1, hosts).0);
    choices := [c] + rest;
  }

  lemma DropLinked(h: Helper, id: BoxId)
    requires HelperModel.Linked(h) && id in h.states && h.states[id].status != HelperModel.QUEUED
    ensures HelperModel.Linked(h.(states := h.states - {id}))
  {
    HelperAnswers.NamedByHandle(h, id);
    HelperAnswers.WithoutExactly(h, id);
    HelperRuns.DropKeeps(h, HelperModel.UnitName(id));
  }

  /** A cleanup, alone. */
  lemma CleansAlone(w: World, h: Helper, id: BoxId, reset: bool, removed: bool, hosts: BoxId -> Host)
    returns (choices: seq<Choice>)
    requires w.pcs != [] && w.pcs[0] == Idle && Shows(w, h) && HelperModel.Linked(h)
    ensures Comes(w, 0, choices, Idle, HelperModel.Cleanup(h, HelperModel.HandleOf(id), reset, removed, hosts).0)
  {
    var ask := Choice(AskCleanup(id), true);
    Looks(w, 0, ask, h);
    var rest := CleansAsked(Alone(w, 0, [ask]), h, id, reset, removed, hosts);
    ComesJoined(w, 0, [ask], LookQueued(id, false), h, rest, Idle,
                HelperModel.Cleanup(h, HelperModel.HandleOf(id), reset, removed, hosts).0);
    choices := [ask] + rest;
  }

  lemma CleansAsked(w: World, h: Helper, id: BoxId, reset: bool, removed: bool, hosts: BoxId -> Host)
    returns (choices: seq<Choice>)
    requires w.pcs != [] && w.pcs[0] == LookQueued(id, false) && Shows(w, h) && HelperModel.Linked(h)
    ensures Comes(w, 0, choices, Idle, HelperModel.Cleanup(h, HelperModel.HandleOf(id), reset, removed, hosts).0)
  {
    HandleIsMeant(h, id, true, hosts);
    if HelperModel.HasStatus(h, id, HelperModel.QUEUED) {
      choices := CancelsAlone(w, h, id, false);
    } else {
      choices := LooksUp(w, h, id, false, reset);
      if id in h.states && reset {
        var rest := CleansOn(Alone(w, 0, choices), h, id, removed, hosts);
        ComesJoined(w, 0, choices, CleanFind(id), h, rest, Idle,
                    HelperModel.Cleanup(h, HelperModel.HandleOf(id), reset, removed, hosts).0);
        choices := choices + rest;
      }
    }
  }

  // ---- a watchdog, and a request to drain ----

  lemma MarksTimedOut(w: World, t: nat, h: Helper, id: BoxId)
    requires 0 < t < |w.pcs| && w.pcs[t] == Mark(id) && Shows(w, h) && id in h.states
    ensures Comes(w, t, [Ok(true)], Free(id), Remarked(h, id, HelperModel.TIMED_OUT))
  {
    StatusSet(h.states, id, h.states[id].(status := HelperModel.TIMED_OUT));
    Writes(w, t, Ok(true), h, Remarked(h, id, HelperModel.TIMED_OUT));
  }

  /** A watchdog that wakes, alone; the list of TTL threads still to fire is the atomic model's own. */
  lemma FiresAlone(w: World, t: nat, h: Helper, id: BoxId, hosts: BoxId -> Host) returns (choices: seq<Choice>)
    requires 0 < t < |w.pcs| && w.pcs[t] == Asleep(id) && Shows(w, h) && HelperModel.Linked(h) && id in h.watchdogs
    ensures Comes(w, t, choices, Finished, HelperModel.Expire(h, id, hosts))
  {
    var fired := h.(watchdogs := h.watchdogs - multiset{id});
    HelperAnswers.FiredKeeps(h, id);
    Looks(w, t, Ok(true), fired);
    choices := [Ok(true)];
    assert HelperModel.Entry(h, id);
    if HelperModel.HasStatus(h, id, HelperModel.STARTING) {
      var rest := FiresOn(Alone(w, t, choices), t, fired, id, hosts);
      ComesJoined(w, t, choices, Mark(id), fired, rest, Finished, HelperModel.Expire(h, id, hosts));
      choices := choices + rest;
    }
  }

  lemma FiresOn(w: World, t: nat, h: Helper, id: BoxId, hosts: BoxId -> Host) returns (choices: seq<Choice>)
    requires 0 < t < |w.pcs| && w.pcs[t] == Mark(id) && Shows(w, h) && HelperModel.Linked(h)
    requires HelperModel.HasStatus(h, id, HelperModel.STARTING)
    ensures Comes(w, t, choices, Finished, HelperModel.EndBox(h, id, HelperModel.TIMED_OUT, hosts).0)
  {
    var h1 := Remarked(h, id, HelperModel.TIMED_OUT);
    MarksTimedOut(w, t, h, id);
    MarkLinked(h, id, HelperModel.TIMED_OUT);
    var rest := ReleasesAlone(Alone(w, t, [Ok(true)]), t, h1, id, hosts);
    ComesJoined(w, t, [Ok(true)], Free(id), h1, rest, Finished,
                HelperModel.EndBox(h, id, HelperModel.TIMED_OUT, hosts).0);
    choices := [Ok(true)] + rest;
  }

  lemma DrainsAlone(w: World, h: Helper, hosts: BoxId -> Host) returns (choices: seq<Choice>)
    requires w.pcs != [] && w.pcs[0] == Idle && Shows(w, h) && HelperModel.Linked(h)
    ensures Comes(w, 0, choices, Idle, HelperModel.DrainQueue(h, hosts).0)
  {
    Looks(w, 0, Ok(true), h);
    var rest := Drains(Alone(w, 0, [Ok(true)]), 0, h, hosts);
    ComesJoined(w, 0, [Ok(true)], DrainNext, h, rest, Idle, HelperModel.DrainQueue(h, hosts).0);
    choices := [Ok(true)] + rest;
  }
}
