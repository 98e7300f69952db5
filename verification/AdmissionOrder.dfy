/** FIFO order of the admission controller over whole runs, with cancellation and Box ID reuse.
    Every successful `admit` is given the next ticket; tickets are never reused, Box IDs may be. */
module AdmissionOrder {
  import opened Collections
  import opened Outcomes
  import opened Admission

  datatype Op = Admit(id: BoxId) | Release(id: BoxId) | StartNext | Cancel(id: BoxId)

  function Apply(c: Control, op: Op): Control {
    match op
    case Admit(id) => c.Admit(id).0
    case Release(id) => c.Release(id)
    case StartNext => c.StartNext().0
    case Cancel(id) => c.CancelQueued(id)
  }

  function ApplyAll(c: Control, ops: seq<Op>): Control {
    if ops == [] then c else Apply(ApplyAll(c, ops[..|ops| - 1]), ops[|ops| - 1])
  }

  /** `issued[t]` is the Box ID of ticket `t`; `waiting` is the queue in tickets. */
  datatype Ledger = Ledger(
    control: Control,
    issued: seq<BoxId>,
    enqueued: seq<nat>,
    cancelled: set<nat>,
    waiting: seq<nat>,
    popped: seq<nat>,
    reserved: seq<nat>)

  function Opened(limit: nat): Ledger {
    Ledger(Fresh(limit), [], [], {}, [], [], [])
  }

  function Record(l: Ledger, op: Op): Ledger {
    var next := l.(control := Apply(l.control, op));
    match op
    case Admit(id) =>
      var t := |l.issued|;
      (match l.control.Admit(id).1
       case Failure(_) => next
       case Success(Start) => next.(issued := l.issued + [id], reserved := l.reserved + [t])
       case Success(Queued(_)) =>
         next.(issued := l.issued + [id], enqueued := l.enqueued + [t], waiting := l.waiting + [t]))
    case Release(_) => next
    case StartNext =>
      if l.control.StartNext().1.None? || l.waiting == [] then next
      else next.(waiting := l.waiting[1..],
                 popped := l.popped + [l.waiting[0]],
                 reserved := l.reserved + [l.waiting[0]])
    case Cancel(id) =>
      var k := IndexOf(l.control.queued, id);
      if k == |l.control.queued| || |l.waiting| <= k then next
      else next.(waiting := RemoveAt(l.waiting, k), cancelled := l.cancelled + {l.waiting[k]})
  }

  function RecordAll(l: Ledger, ops: seq<Op>): Ledger {
    if ops == [] then l else Record(RecordAll(l, ops[..|ops| - 1]), ops[|ops| - 1])
  }

  // ---- sequences of tickets ----

  function Tickets(n: nat): seq<nat> {
    seq(n, i => i)
  }

  /** `s` without the elements of `gone`, in order. */
  function Minus(s: seq<nat>, gone: set<nat>): seq<nat> {
    if s == [] then []
    else Minus(s[..|s| - 1], gone) + (if s[|s| - 1] in gone then [] else [s[|s| - 1]])
  }

  lemma MinusAppend(s: seq<nat>, x: nat, gone: set<nat>)
    ensures Minus(s + [x], gone) == Minus(s, gone) + (if x in gone then [] else [x])
  {
    assert (s + [x])[..|s|] == s;
  }

  lemma {:induction false} MinusMembers(s: seq<nat>, gone: set<nat>)
    ensures forall x :: x in Minus(s, gone) <==> x in s && x !in gone
  {
    if s != [] {
      MinusMembers(s[..|s| - 1], gone);
      assert s == s[..|s| - 1] + [s[|s| - 1]];
    }
  }

  lemma {:induction false} MinusDistinct(s: seq<nat>, gone: set<nat>)
    requires Distinct(s)
    ensures Distinct(Minus(s, gone))
  {
    if s != [] {
      MinusDistinct(s[..|s| - 1], gone);
      MinusMembers(s[..|s| - 1], gone);
    }
  }

  /** Striking out one surviving ticket removes exactly its place. */
  lemma {:induction false} MinusOne(s: seq<nat>, gone: set<nat>, k: nat)
    requires Distinct(s) && k < |Minus(s, gone)|
    ensures Minus(s, gone + {Minus(s, gone)[k]}) == RemoveAt(Minus(s, gone), k)
  {
    var front, last := s[..|s| - 1], s[|s| - 1];
    var m, t, tail := Minus(front, gone), Minus(s, gone)[k], if last in gone then [] else [last];
    if k < |m| {
      MinusMembers(front, gone);
      assert m[k] in m;
      MinusOne(front, gone, k);
      RemoveBefore(m, tail, k);
    } else {
      MinusAbsent(front, gone, t);
    }
  }

  lemma RemoveBefore(m: seq<nat>, tail: seq<nat>, k: nat)
    requires k < |m|
    ensures RemoveAt(m + tail, k) == RemoveAt(m, k) + tail
  {
  }

  lemma {:induction false} MinusAbsent(s: seq<nat>, gone: set<nat>, t: nat)
    requires t !in s
    ensures Minus(s, gone + {t}) == Minus(s, gone)
  {
    if s != [] {
      MinusAbsent(s[..|s| - 1], gone, t);
    }
  }

  ghost predicate Ascending(s: seq<nat>) {
    forall i, j :: 0 <= i < j < |s| ==> s[i] < s[j]
  }

  lemma {:induction false} TicketsAscending(n: nat, gone: set<nat>)
    ensures Ascending(Minus(Tickets(n), gone))
    ensures forall t: nat :: t in Minus(Tickets(n), gone) <==> t < n && t !in gone
  {
    MinusMembers(Tickets(n), gone);
    forall t: nat | t < n ensures t in Tickets(n) { assert Tickets(n)[t] == t; }
    if n != 0 {
      TicketsAscending(n - 1, gone);
      assert Tickets(n)[..n - 1] == Tickets(n - 1);
      var m := Minus(Tickets(n - 1), gone);
      forall i | 0 <= i < |m| ensures m[i] < n - 1 { assert m[i] in m; }
    }
  }

  // ---- conservation ----

  /** The queue in tickets is the queue in Box IDs. */
  ghost predicate Matched(l: Ledger) {
    && l.control.Valid()
    && |l.waiting| == |l.control.queued|
    && (forall i :: 0 <= i < |l.waiting| ==>
          l.waiting[i] < |l.issued| && l.issued[l.waiting[i]] == l.control.queued[i])
  }

  /** Survivors of the tickets issued so far are the reserved ones followed by the waiting ones, in
      ticket order; survivors of the enqueued ones are the popped ones followed by the waiting ones. */
  ghost predicate Sums(n: nat, cancelled: set<nat>, enqueued: seq<nat>, reserved: seq<nat>, popped: seq<nat>,
                       waiting: seq<nat>) {
    && (forall t :: t in cancelled ==> t < n)
    && (forall t :: t in enqueued ==> t < n)
    && Distinct(enqueued)
    && reserved + waiting == Minus(Tickets(n), cancelled)
    && popped + waiting == Minus(enqueued, cancelled)
  }

  ghost predicate Counted(l: Ledger) {
    Sums(|l.issued|, l.cancelled, l.enqueued, l.reserved, l.popped, l.waiting)
  }

  ghost predicate Balanced(l: Ledger) {
    Matched(l) && Counted(l)
  }

  lemma TicketIssued(n: nat, cancelled: set<nat>, s: seq<nat>)
    requires forall t :: t in cancelled ==> t < n
    ensures Minus(Tickets(n + 1), cancelled) == Minus(Tickets(n), cancelled) + [n]
    ensures Minus(s + [n], cancelled) == Minus(s, cancelled) + [n]
  {
    assert Tickets(n + 1) == Tickets(n) + [n];
    MinusAppend(Tickets(n), n, cancelled);
    MinusAppend(s, n, cancelled);
  }

  /** The next ticket waits at the end of the queue. */
  lemma SumsQueued(n: nat, cancelled: set<nat>, enqueued: seq<nat>, reserved: seq<nat>, popped: seq<nat>,
                   waiting: seq<nat>)
    requires Sums(n, cancelled, enqueued, reserved, popped, waiting)
    ensures Sums(n + 1, cancelled, enqueued + [n], reserved, popped, waiting + [n])
  {
    TicketIssued(n, cancelled, enqueued);
    assert forall i :: 0 <= i < |enqueued| ==> enqueued[i] in enqueued;
    assert reserved + (waiting + [n]) == reserved + waiting + [n];
    assert popped + (waiting + [n]) == popped + waiting + [n];
  }

  /** The next ticket is reserved at once, nobody waiting. */
  lemma SumsStarted(n: nat, cancelled: set<nat>, enqueued: seq<nat>, reserved: seq<nat>, popped: seq<nat>)
    requires Sums(n, cancelled, enqueued, reserved, popped, [])
    ensures Sums(n + 1, cancelled, enqueued, reserved + [n], popped, [])
  {
    TicketIssued(n, cancelled, enqueued);
    assert reserved + [n] + [] == reserved + [] + [n];
  }

  lemma StartBalances(l: Ledger, id: BoxId)
    requires Balanced(l) && l.control.Admit(id).1 == Success(Start)
    ensures Balanced(Record(l, Admit(id)))
  {
    AdmitKeepsValid(l.control, id);
    assert l.waiting == [];
    SumsStarted(|l.issued|, l.cancelled, l.enqueued, l.reserved, l.popped);
  }

  lemma QueueingMatches(l: Ledger, id: BoxId)
    requires Matched(l) && l.control.Admit(id).1.Success? && l.control.Admit(id).1.value.Queued?
    ensures Matched(Record(l, Admit(id)))
  {
    AdmitKeepsValid(l.control, id);
  }

  lemma QueueingCounts(l: Ledger, id: BoxId)
    requires Counted(l) && l.control.Admit(id).1.Success? && l.control.Admit(id).1.value.Queued?
    ensures Counted(Record(l, Admit(id)))
  {
    SumsQueued(|l.issued|, l.cancelled, l.enqueued, l.reserved, l.popped, l.waiting);
  }

  lemma QueueingBalances(l: Ledger, id: BoxId)
    requires Balanced(l) && l.control.Admit(id).1.Success? && l.control.Admit(id).1.value.Queued?
    ensures Balanced(Record(l, Admit(id)))
  {
    QueueingMatches(l, id);
    QueueingCounts(l, id);
  }

  lemma AdmitBalances(l: Ledger, id: BoxId)
    requires Balanced(l)
    ensures Balanced(Record(l, Admit(id)))
  {
    match l.control.Admit(id).1
    case Failure(_) =>
    case Success(Start) => StartBalances(l, id);
    case Success(Queued(_)) => QueueingBalances(l, id);
  }

  lemma StartNextBalances(l: Ledger)
    requires Balanced(l)
    ensures Balanced(Record(l, StartNext))
    ensures l.control.StartNext().1.Some? ==>
              l.waiting != [] && l.control.StartNext().1.value == l.issued[l.waiting[0]]
  {
    StartNextKeepsValid(l.control);
    if l.control.StartNext().1.Some? {
      var l' := Record(l, StartNext);
      assert l'.reserved + l'.waiting == l.reserved + l.waiting;
      assert l'.popped + l'.waiting == l.popped + l.waiting;
    }
  }

  /** Striking a ticket out of the waiting part of a balance keeps the balance. */
  lemma StrikeOut(done: seq<nat>, waiting: seq<nat>, s: seq<nat>, gone: set<nat>, k: nat)
    requires Distinct(s) && done + waiting == Minus(s, gone) && k < |waiting|
    ensures done + RemoveAt(waiting, k) == Minus(s, gone + {waiting[k]})
  {
    var all := done + waiting;
    assert all[|done| + k] == waiting[k];
    MinusOne(s, gone, |done| + k);
    assert RemoveAt(all, |done| + k) == done + RemoveAt(waiting, k);
  }

  lemma CancelBalances(l: Ledger, id: BoxId)
    requires Balanced(l)
    ensures Balanced(Record(l, Cancel(id)))
  {
    CancelKeepsValid(l.control, id);
    var k := IndexOf(l.control.queued, id);
    if k < |l.control.queued| {
      StrikeOut(l.reserved, l.waiting, Tickets(|l.issued|), l.cancelled, k);
      StrikeOut(l.popped, l.waiting, l.enqueued, l.cancelled, k);
    }
  }

  lemma StepBalances(l: Ledger, op: Op)
    requires Balanced(l)
    ensures Balanced(Record(l, op))
  {
    match op
    case Admit(id) => AdmitBalances(l, id);
    case Release(id) => ReleaseKeepsValid(l.control, id);
    case StartNext => StartNextBalances(l);
    case Cancel(id) => CancelBalances(l, id);
  }

  /** FIFO over any run: whatever is admitted, released, started and cancelled in any order. */
  lemma {:induction false} RunBalances(l: Ledger, ops: seq<Op>)
    requires Balanced(l)
    ensures Balanced(RecordAll(l, ops))
  {
    if ops != [] {
      RunBalances(l, ops[..|ops| - 1]);
      StepBalances(RecordAll(l, ops[..|ops| - 1]), ops[|ops| - 1]);
    }
  }

  lemma {:induction false} EveryRunBalances(limit: nat, ops: seq<Op>)
    requires 0 < limit
    ensures Balanced(RecordAll(Opened(limit), ops))
    ensures RecordAll(Opened(limit), ops).control == ApplyAll(Fresh(limit), ops)
  {
    RunBalances(Opened(limit), ops);
    LedgerFollowsController(Opened(limit), ops);
  }

  lemma {:induction false} LedgerFollowsController(l: Ledger, ops: seq<Op>)
    ensures RecordAll(l, ops).control == ApplyAll(l.control, ops)
  {
    if ops != [] {
      LedgerFollowsController(l, ops[..|ops| - 1]);
    }
  }

  lemma SurvivorsBefore(first: seq<nat>, later: seq<nat>, n: nat, gone: set<nat>)
    requires first + later == Minus(Tickets(n), gone) && later != []
    ensures forall t: nat :: t < later[0] ==> (t in first <==> t !in gone)
    ensures forall t: nat :: t in first ==> t < later[0]
  {
    TicketsAscending(n, gone);
    SplitAscending(first, later);
    assert later[0] in later && later[0] in first + later;
    forall t: nat | t < later[0] && t !in gone ensures t in first {
      assert t in first + later;
      assert forall j :: 0 <= j < |later| ==> later[0] <= later[j];
    }
    forall t: nat | t in first ensures t !in gone {
      assert t in first + later;
    }
  }

  /** Slots are reserved in admission order: every earlier ticket was reserved before or was cancelled. */
  lemma ReservedInAdmissionOrder(l: Ledger, i: nat)
    requires Balanced(l) && i < |l.reserved|
    ensures forall t: nat :: t < l.reserved[i] ==> (t in l.reserved[..i] <==> t !in l.cancelled)
    ensures forall t: nat :: t in l.reserved[..i] ==> t < l.reserved[i]
  {
    assert l.reserved + l.waiting == l.reserved[..i] + (l.reserved[i..] + l.waiting);
    SurvivorsBefore(l.reserved[..i], l.reserved[i..] + l.waiting, |l.issued|, l.cancelled);
  }

  // ---- the position told to a queued Box ----

  ghost predicate Pops(l: Ledger, op: Op) {
    op.StartNext? && l.control.StartNext().1.Some?
  }

  ghost predicate CancelsAhead(l: Ledger, op: Op, t: nat) {
    && op.Cancel?
    && var k := IndexOf(l.control.queued, op.id);
    && k < |l.control.queued| && k < |l.waiting| && l.waiting[k] < t
  }

  ghost function Moves(l: Ledger, op: Op, t: nat): nat {
    (if Pops(l, op) then 1 else 0) + (if CancelsAhead(l, op, t) then 1 else 0)
  }

  ghost function MoveCount(l: Ledger, ops: seq<Op>, t: nat): nat {
    if ops == [] then 0
    else MoveCount(l, ops[..|ops| - 1], t) + Moves(RecordAll(l, ops[..|ops| - 1]), ops[|ops| - 1], t)
  }

  lemma {:induction false} MovesArePopsAndCancels(l: Ledger, ops: seq<Op>, t: nat)
    ensures MoveCount(l, ops, t) == PopCount(l, ops) + CancelCount(l, ops, t)
  {
    if ops != [] {
      MovesArePopsAndCancels(l, ops[..|ops| - 1], t);
    }
  }

  ghost function PopCount(l: Ledger, ops: seq<Op>): nat {
    if ops == [] then 0 else
      var before := ops[..|ops| - 1];
      PopCount(l, before) + if Pops(RecordAll(l, before), ops[|ops| - 1]) then 1 else 0
  }

  ghost function CancelCount(l: Ledger, ops: seq<Op>, t: nat): nat {
    if ops == [] then 0 else
      var before := ops[..|ops| - 1];
      CancelCount(l, before, t) + if CancelsAhead(RecordAll(l, before), ops[|ops| - 1], t) then 1 else 0
  }

  lemma SplitAscending(a: seq<nat>, b: seq<nat>)
    requires Ascending(a + b)
    ensures Ascending(b)
    ensures forall x, y :: x in a && y in b ==> x < y
  {
    var all := a + b;
    assert forall j :: 0 <= j < |b| ==> b[j] == all[|a| + j];
    assert forall i :: 0 <= i < |a| ==> a[i] == all[i];
  }

  lemma WaitingAscends(l: Ledger)
    requires Balanced(l)
    ensures Ascending(l.waiting)
    ensures forall t :: t in l.waiting ==> t !in l.reserved && t < |l.issued|
  {
    TicketsAscending(|l.issued|, l.cancelled);
    SplitAscending(l.reserved, l.waiting);
  }

  ghost predicate Moved(l: Ledger, op: Op, k: nat)
    requires k < |l.waiting|
  {
    var t, l' := l.waiting[k], Record(l, op);
    var moved := Moves(l, op, t);
    && (t in l'.reserved <==> Pops(l, op) && k == 0)
    && (t !in l'.reserved && t !in l'.cancelled ==>
          moved <= k && k - moved < |l'.waiting| && l'.waiting[k - moved] == t)
  }

  lemma MovedByAdmit(l: Ledger, id: BoxId, k: nat)
    requires Balanced(l) && k < |l.waiting|
    ensures Moved(l, Admit(id), k)
  {
    WaitingAscends(l);
    assert l.waiting[k] in l.waiting;
  }

  lemma MovedByStart(l: Ledger, k: nat)
    requires Balanced(l) && k < |l.waiting|
    ensures Moved(l, StartNext, k)
  {
    WaitingAscends(l);
    var t := l.waiting[k];
    assert t in l.waiting;
    if Pops(l, StartNext) {
      assert t in l.reserved + [l.waiting[0]] <==> t == l.waiting[0];
      assert k > 0 ==> l.waiting[0] < t && l.waiting[1..][k - 1] == t;
    }
  }

  /** Where an element is once another one is removed. */
  lemma RemovedElsewhere(s: seq<nat>, c: nat, k: nat)
    requires c < |s| && k < |s| && c != k
    ensures var j := if c < k then k - 1 else k; j < |RemoveAt(s, c)| && RemoveAt(s, c)[j] == s[k]
  {
  }

  lemma WaitingPlaces(l: Ledger, c: nat, k: nat)
    requires Balanced(l) && c < |l.waiting| && k < |l.waiting|
    ensures l.waiting[k] !in l.reserved
    ensures l.waiting[c] < l.waiting[k] <==> c < k
  {
    WaitingAscends(l);
    assert l.waiting[k] in l.waiting;
  }

  lemma MovedByCancelAt(l: Ledger, id: BoxId, c: nat, k: nat)
    requires Balanced(l) && k < |l.waiting| && c == IndexOf(l.control.queued, id) && c < |l.control.queued|
    ensures Moved(l, Cancel(id), k)
  {
    WaitingPlaces(l, c, k);
    if c != k {
      RemovedElsewhere(l.waiting, c, k);
    }
  }

  lemma MovedByCancel(l: Ledger, id: BoxId, k: nat)
    requires Balanced(l) && k < |l.waiting|
    ensures Moved(l, Cancel(id), k)
  {
    WaitingPlaces(l, k, k);
    if IndexOf(l.control.queued, id) < |l.control.queued| {
      MovedByCancelAt(l, id, IndexOf(l.control.queued, id), k);
    }
  }

  lemma MovedByRelease(l: Ledger, id: BoxId, k: nat)
    requires Balanced(l) && k < |l.waiting|
    ensures Moved(l, Release(id), k)
  {
    WaitingAscends(l);
    assert l.waiting[k] in l.waiting;
  }

  /** One operation either moves a waiting ticket by exactly one place per pop or cancellation ahead of
      it, cancels it, or (only at the head, only by a successful `start_next`) reserves its slot. */
  lemma TicketStep(l: Ledger, op: Op, k: nat)
    requires Balanced(l) && k < |l.waiting|
    ensures Moved(l, op, k)
  {
    match op
    case Admit(id) => MovedByAdmit(l, id, k);
    case Release(id) => MovedByRelease(l, id, k);
    case StartNext => MovedByStart(l, k);
    case Cancel(id) => MovedByCancel(l, id, k);
  }

  /** Ticket `t`, once at place `k` of the queue, after `moved` places: reserved, or `moved` places on. */
  ghost predicate Held(l: Ledger, t: nat, k: nat, moved: nat) {
    && (t in l.reserved <==> k < moved)
    && (t !in l.reserved ==> k - moved < |l.waiting| && l.waiting[k - moved] == t)
  }

  lemma HistoryGrows(l: Ledger, op: Op)
    ensures l.reserved <= Record(l, op).reserved && l.cancelled <= Record(l, op).cancelled
  {
  }

  lemma HeldAtFirst(l: Ledger, k: nat)
    requires Balanced(l) && k < |l.waiting|
    ensures Held(l, l.waiting[k], k, 0)
  {
    WaitingAscends(l);
    assert l.waiting[k] in l.waiting;
  }

  lemma HeldReserved(l: Ledger, op: Op, t: nat, k: nat, moved: nat)
    requires Held(l, t, k, moved) && t in l.reserved
    ensures Held(Record(l, op), t, k, moved + Moves(l, op, t))
  {
    HistoryGrows(l, op);
  }

  lemma HeldWaiting(l: Ledger, op: Op, t: nat, k: nat, moved: nat)
    requires Balanced(l) && Held(l, t, k, moved) && t !in l.reserved && t !in Record(l, op).cancelled
    ensures Held(Record(l, op), t, k, moved + Moves(l, op, t))
  {
    TicketStep(l, op, k - moved);
  }

  lemma HeldStep(l: Ledger, op: Op, t: nat, k: nat, moved: nat)
    requires Balanced(l) && Held(l, t, k, moved) && t !in Record(l, op).cancelled
    ensures Held(Record(l, op), t, k, moved + Moves(l, op, t))
  {
    if t in l.reserved {
      HeldReserved(l, op, t, k, moved);
    } else {
      HeldWaiting(l, op, t, k, moved);
    }
  }

  /** Where ticket `t`, at place `k` before `ops`, is after them. */
  ghost predicate HeldAfter(l: Ledger, ops: seq<Op>, t: nat, k: nat) {
    Held(RecordAll(l, ops), t, k, MoveCount(l, ops, t))
  }

  lemma OneMoreRecorded(l: Ledger, before: seq<Op>, op: Op, t: nat)
    ensures RecordAll(l, before + [op]) == Record(RecordAll(l, before), op)
    ensures MoveCount(l, before + [op], t) == MoveCount(l, before, t) + Moves(RecordAll(l, before), op, t)
  {
    var ops := before + [op];
    assert ops[..|ops| - 1] == before;
  }

  lemma HeldNext(m: Ledger, op: Op, t: nat, k: nat, moved: nat, m': Ledger, moved': nat)
    requires Balanced(m) && Held(m, t, k, moved) && m' == Record(m, op) && moved' == moved + Moves(m, op, t)
    requires t !in m'.cancelled
    ensures Held(m', t, k, moved')
  {
    HeldStep(m, op, t, k, moved);
  }

  lemma HeldAfterOne(l: Ledger, before: seq<Op>, op: Op, t: nat, k: nat)
    requires Balanced(l) && HeldAfter(l, before, t, k) && t !in RecordAll(l, before + [op]).cancelled
    ensures HeldAfter(l, before + [op], t, k)
  {
    OneMoreRecorded(l, before, op, t);
    RunBalances(l, before);
    HeldNext(RecordAll(l, before), op, t, k, MoveCount(l, before, t),
             RecordAll(l, before + [op]), MoveCount(l, before + [op], t));
  }

  lemma NotCancelledBefore(l: Ledger, before: seq<Op>, op: Op, t: nat)
    requires t !in RecordAll(l, before + [op]).cancelled
    ensures t !in RecordAll(l, before).cancelled
  {
    OneMoreRecorded(l, before, op, t);
    HistoryGrows(RecordAll(l, before), op);
  }

  /** A Box told `position` p is reserved by exactly the (p minus cancellations ahead of it)-th later
      successful `start_next`: see `PositionReached` for the step itself. */
  lemma {:induction false} PositionHeld(l: Ledger, ops: seq<Op>, t: nat, k: nat)
    requires Balanced(l) && k < |l.waiting| && l.waiting[k] == t && t !in RecordAll(l, ops).cancelled
    ensures HeldAfter(l, ops, t, k)
  {
    if ops == [] {
      HeldAtFirst(l, k);
    } else {
      var before, op := ops[..|ops| - 1], ops[|ops| - 1];
      assert before + [op] == ops;
      NotCancelledBefore(l, before, op, t);
      PositionHeld(l, before, t, k);
      HeldAfterOne(l, before, op, t, k);
    }
  }

  /** A ticket at place `k`, `moved` places on: the next operation reserves its slot exactly if it is a pop and
      the ticket is at the head. */
  lemma LastMove(m: Ledger, op: Op, t: nat, k: nat, moved: nat)
    requires Balanced(m) && Held(m, t, k, moved) && t !in m.reserved
    ensures t in Record(m, op).reserved <==> Pops(m, op) && moved == k
  {
    TicketStep(m, op, k - moved);
  }

  /** The place that `admit` answered is the ticket's place in the queue. */
  lemma PositionIsPlace(l: Ledger, id: BoxId, p: nat)
    requires Balanced(l) && l.control.Admit(id).1 == Success(Queued(p))
    ensures var l0 := Record(l, Admit(id));
            Balanced(l0) && 0 < p == |l0.waiting| && l0.waiting[p - 1] == |l.issued|
  {
    AdmitBalances(l, id);
  }

  /** `p` is the position `admit` answered. The next operation reserves the ticket's slot if and only if
      it is a successful `start_next` and the pops so far, plus this one, are `p` minus the
      cancellations ahead. */
  lemma PositionReached(l: Ledger, id: BoxId, p: nat, ops: seq<Op>, op: Op)
    requires Balanced(l) && l.control.Admit(id).1 == Success(Queued(p))
    requires var l0 := Record(l, Admit(id));
             |l.issued| !in RecordAll(l0, ops).cancelled && |l.issued| !in RecordAll(l0, ops).reserved
    ensures var l0 := Record(l, Admit(id)); var m := RecordAll(l0, ops);
            |l.issued| in Record(m, op).reserved <==>
              Pops(m, op) && PopCount(l0, ops) + 1 == p - CancelCount(l0, ops, |l.issued|)
  {
    PositionIsPlace(l, id, p);
    ReachedFrom(Record(l, Admit(id)), |l.issued|, p, ops, op);
  }

  lemma ReachedFrom(l0: Ledger, t: nat, p: nat, ops: seq<Op>, op: Op)
    requires Balanced(l0) && 0 < p <= |l0.waiting| && l0.waiting[p - 1] == t
    requires t !in RecordAll(l0, ops).cancelled && t !in RecordAll(l0, ops).reserved
    ensures t in Record(RecordAll(l0, ops), op).reserved <==>
              Pops(RecordAll(l0, ops), op) && PopCount(l0, ops) + 1 == p - CancelCount(l0, ops, t)
  {
    PositionHeld(l0, ops, t, p - 1);
    RunBalances(l0, ops);
    MovesArePopsAndCancels(l0, ops, t);
    LastMove(RecordAll(l0, ops), op, t, p - 1, MoveCount(l0, ops, t));
  }
}
