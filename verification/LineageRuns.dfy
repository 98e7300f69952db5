/** Whole runs of the lineage store: registrations, stops in the middle of one, and reopening
    (src/lineage.rs). */
module LineageRuns {
  import opened Outcomes
  import opened Text
  import opened LineageRecords
  import opened LineageDisk

  /** The directory, the in-memory index, and the process-wide counter of temporary names. */
  datatype Store = Store(dir: Directory, records: Records, sequence: nat)

  type Reply = Option<LineageError>

  /** The checks `register` makes before it touches the disk. */
  function Refusal(records: Records, record: LineageRecord): (e: Reply)
    ensures e == None <==> ValidRecord(record) && record.boxId !in records && ParentHolds(records, record)
  {
    if Validate(record).Some? then Validate(record)
    else if record.boxId in records then Some(AlreadyRegistered)
    else match record.parentBoxId
      case None => None
      case Some(p) =>
        if p !in records then Some(UnknownParent(p))
        else if !IsNarrowerThan(record.policy, records[p].policy) then Some(BroadensParent)
        else None
  }

  /** A record as the store contract wants it. */
  ghost predicate Fine(record: LineageRecord) {
    && record.schema == "viper-boxd.lineage.v0" && IdOk(record.boxId)
    && !Blank(record.auditTraceId) && Confined(record.policy)
  }

  /** The error names the first rule that is broken, in the order of the source. */
  ghost predicate RefusedAs(records: Records, record: LineageRecord, e: LineageError) {
    if record.schema != "viper-boxd.lineage.v0" then e == UnsupportedSchema
    else if !IdOk(record.boxId) || Blank(record.auditTraceId) then e == InvalidIdOrTrace
    else if !Confined(record.policy) then e == UnsupportedPolicy
    else if record.boxId in records then e == AlreadyRegistered
    else
      && record.parentBoxId.Some?
      && var p := record.parentBoxId.value;
         if p !in records then e == UnknownParent(p)
         else !PermitsNoMore(record.policy, records[p].policy) && e == BroadensParent
  }

  /** A record is refused exactly if it is not as the contract wants it, is there already, names no parent that is
      there, or permits something that its parent does not. */
  lemma RefusalExactly(records: Records, record: LineageRecord)
    requires WellKeyed(records)
    ensures match Refusal(records, record)
            case None =>
              && Fine(record) && record.boxId !in records
              && (record.parentBoxId.Some? ==>
                    && record.parentBoxId.value in records
                    && PermitsNoMore(record.policy, records[record.parentBoxId.value].policy))
            case Some(e) => RefusedAs(records, record, e)
  {
    IdExactly(record.boxId);
    TrimBlank(record.auditTraceId);
    if record.parentBoxId.Some? && record.parentBoxId.value in records {
      NarrowerExactly(record.policy, records[record.parentBoxId.value].policy);
    }
  }

  /** The part of `register` after the checks. */
  function Persisted(codec: Codec, s: Store, record: LineageRecord, io: seq<Outcome>): (Store, Reply)
    requires |io| == 5
  {
    var (dir, ok) := Carry(s.dir, Plan(codec, record, TemporaryName(record.boxId, s.sequence)), io, 0);
    if ok then (Store(dir, s.records[record.boxId := record], s.sequence + 1), None)
    else (Store(dir, s.records, s.sequence + 1), Some(Io))
  }

  /** `register`, with the outcome of each disk step given. */
  function Register(codec: Codec, s: Store, record: LineageRecord, io: seq<Outcome>): (Store, Reply)
    requires |io| == 5
  {
    match Refusal(s.records, record)
    case Some(e) => (s, Some(e))
    case None => Persisted(codec, s, record, io)
  }

  /** Opening the directory would succeed and give exactly the index in memory. */
  ghost predicate InSync(codec: Codec, s: Store) {
    Accepts(codec, RecordFiles(s.dir)) && s.records == RecordIndex(codec, RecordFiles(s.dir))
  }

  /** Wherever a registration stops, the directory can be opened and gives the old index or the old index
      with the new record; memory agrees unless the process died, and an error changes no record file. */
  lemma RegisterKeeps(codec: Codec, s: Store, record: LineageRecord, io: seq<Outcome>)
    requires codec.Faithful() && InSync(codec, s) && |io| == 5
    ensures var (after, reply) := Register(codec, s, record, io);
            && InSync(codec, after)
            && after.records == (if reply == None then s.records[record.boxId := record] else s.records)
            && (reply != None ==> RecordFiles(after.dir) == RecordFiles(s.dir))
            && (reply == None ==> record.boxId !in s.records && ParentHolds(s.records, record) && ValidRecord(record))
  {
    if Refusal(s.records, record) == None {
      var temporary := TemporaryName(record.boxId, s.sequence);
      TemporaryIsNoRecord(record.boxId, s.sequence);
      RecordFileName(record.boxId);
      StopsCleanly(codec, record, temporary, s.dir, io, 0, HasJson);
      AddedFile(codec, RecordFiles(s.dir), record);
    }
  }

  /** The whole directory after a registration: untouched by a refusal; with the one new file, and no temporary one,
      after a success; and otherwise as it was but for the temporary file. */
  lemma RegisterLeaves(codec: Codec, s: Store, record: LineageRecord, io: seq<Outcome>)
    requires |io| == 5
    ensures var (after, reply) := Register(codec, s, record, io);
            var temporary := TemporaryName(record.boxId, s.sequence);
            if Refusal(s.records, record).Some? then after == s && reply == Refusal(s.records, record)
            else if reply == None then
              after.dir == (s.dir - {temporary})[FileName(record.boxId) := File(codec.Written(record))]
            else SameBut(after.dir, s.dir, temporary) && reply == Some(Io)
  {
    CarryLeaves(codec, record, TemporaryName(record.boxId, s.sequence), s.dir, io, 0);
  }

  /** Without disk trouble a record that passes the checks is registered, unless its temporary name or a
      folder is in the way. */
  lemma RegisterSucceeds(codec: Codec, s: Store, record: LineageRecord)
    requires Refusal(s.records, record) == None
    ensures Register(codec, s, record, [Done, Done, Done, Done, Done]).1 == None
            <==> TemporaryName(record.boxId, s.sequence) !in s.dir
                 && !(FileName(record.boxId) in s.dir && s.dir[FileName(record.boxId)].Folder?)
  {
    var temporary, name := TemporaryName(record.boxId, s.sequence), FileName(record.boxId);
    TemporaryIsNoRecord(record.boxId, s.sequence);
    RecordFileName(record.boxId);
    CleanCarry(codec, record, temporary, s.dir);
  }

  lemma CleanCarry(codec: Codec, record: LineageRecord, temporary: string, dir: Directory)
    requires temporary != FileName(record.boxId)
    ensures var name := FileName(record.boxId);
            Carry(dir, Plan(codec, record, temporary), [Done, Done, Done, Done, Done], 0).1
            <==> temporary !in dir && !(name in dir && dir[name].Folder?)
  {
    var plan, io := Plan(codec, record, temporary), [Done, Done, Done, Done, Done];
    if temporary !in dir {
      var d1 := dir[temporary := File([])];
      var d2 := Step(d1, plan[1], Done).0;
      var d3 := Step(d2, plan[2], Done).0;
      assert Carry(dir, plan, io, 0) == Carry(d1, plan, io, 1);
      assert Carry(d1, plan, io, 1) == Carry(d2, plan, io, 2);
      assert Carry(d2, plan, io, 2) == Carry(d3, plan, io, 3);
      assert Carry(d3, plan, io, 3) == Carry(d3, plan, io, 4);
      var name := FileName(record.boxId);
      assert name in d3 <==> name in dir;
      assert name in dir ==> d3[name] == dir[name];
      assert Carry(d3, plan, io, 4).1 == Step(d3, plan[4], Done).1;
    }
  }

  // ---- runs ----

  /** A registration that returns, or one during which the process dies and the store is opened again. */
  datatype Event = Registers(record: LineageRecord, io: seq<Outcome>) | Dies(record: LineageRecord, io: seq<Outcome>)

  /** What opening a directory gives, if it can be opened. */
  ghost function Reopened(codec: Codec, dir: Directory): Option<Store> {
    if Accepts(codec, RecordFiles(dir)) then Some(Store(dir, RecordIndex(codec, RecordFiles(dir)), 0)) else None
  }

  ghost predicate Next(codec: Codec, s: Store, e: Event, t: Store) {
    && |e.io| == 5
    && var after := Register(codec, s, e.record, e.io).0;
       match e
       case Registers(_, _) => t == after
       case Dies(_, _) => Reopened(codec, after.dir) == Some(t)
  }

  ghost predicate Run(codec: Codec, states: seq<Store>, events: seq<Event>) {
    && |states| == |events| + 1
    && forall i :: 0 <= i < |events| ==> Next(codec, states[i], events[i], states[i + 1])
  }

  /** One event adds at most the event's record, and only after its parent. */
  ghost predicate Grows(before: Records, after: Records, record: LineageRecord) {
    || after == before
    || (record.boxId !in before && ParentHolds(before, record) && after == before[record.boxId := record])
  }

  /** Death after the rename and before the index was updated is a registration that took effect. */
  lemma NextKeeps(codec: Codec, s: Store, e: Event, t: Store)
    requires codec.Faithful() && InSync(codec, s) && Next(codec, s, e, t)
    ensures InSync(codec, t) && Grows(s.records, t.records, e.record)
  {
    RegisterKeeps(codec, s, e.record, e.io);
  }

  /** After a death at any point the store can be opened again, and has what memory had or would have had. */
  lemma DeathIsRecoverable(codec: Codec, s: Store, record: LineageRecord, io: seq<Outcome>)
    requires codec.Faithful() && InSync(codec, s) && |io| == 5
    ensures var after := Register(codec, s, record, io).0;
            Reopened(codec, after.dir) == Some(Store(after.dir, after.records, 0))
    ensures exists t :: Next(codec, s, Dies(record, io), t)
  {
    RegisterKeeps(codec, s, record, io);
    var after := Register(codec, s, record, io).0;
    assert Next(codec, s, Dies(record, io), Store(after.dir, after.records, 0));
  }

  /** What every step keeps holds along a run. */
  lemma {:induction false} Inductive(states: seq<Store>, events: seq<Event>, step: (Store, Event, Store) -> bool,
                                     holds: Store -> bool, i: nat, j: nat)
    requires |states| == |events| + 1 && i <= j < |states|
    requires forall k :: 0 <= k < |events| ==> step(states[k], events[k], states[k + 1])
    requires forall s, e, t :: holds(s) && step(s, e, t) ==> holds(t)
    requires holds(states[i])
    ensures holds(states[j])
    decreases j
  {
    if i < j {
      Inductive(states, events, step, holds, i, j - 1);
      assert step(states[j - 1], events[j - 1], states[j - 1 + 1]);
    }
  }

  /** At every point of every run the directory opens to exactly the index in memory. */
  lemma EveryRunAgrees(codec: Codec, states: seq<Store>, events: seq<Event>, j: nat)
    requires codec.Faithful() && Run(codec, states, events) && InSync(codec, states[0])
    requires j < |states|
    ensures InSync(codec, states[j])
  {
    forall s, e, t | InSync(codec, s) && Next(codec, s, e, t) ensures InSync(codec, t) {
      NextKeeps(codec, s, e, t);
    }
    Inductive(states, events, (s, e, t) => Next(codec, s, e, t), s => InSync(codec, s), 0, j);
  }

  predicate Has(records: Records, id: string, record: LineageRecord) {
    id in records && records[id] == record
  }

  ghost predicate Holds(codec: Codec, s: Store, id: string, record: LineageRecord) {
    InSync(codec, s) && Has(s.records, id, record)
  }

  lemma GrownHas(before: Records, after: Records, added: LineageRecord, id: string, record: LineageRecord)
    requires Grows(before, after, added) && Has(before, id, record)
    ensures Has(after, id, record)
  {
  }

  lemma HoldsOn(codec: Codec, s: Store, e: Event, t: Store, id: string, record: LineageRecord)
    requires codec.Faithful() && Holds(codec, s, id, record) && Next(codec, s, e, t)
    ensures Holds(codec, t, id, record)
  {
    NextKeeps(codec, s, e, t);
    GrownHas(s.records, t.records, e.record, id, record);
  }

  lemma HoldsAlong(codec: Codec, states: seq<Store>, events: seq<Event>, i: nat, j: nat, id: string,
                   record: LineageRecord)
    requires codec.Faithful() && Run(codec, states, events)
    requires i <= j < |states| && Holds(codec, states[i], id, record)
    ensures Holds(codec, states[j], id, record)
  {
    var holds: Store -> bool := s => Holds(codec, s, id, record);
    var step: (Store, Event, Store) -> bool := (s, e, t) => Next(codec, s, e, t);
    forall s, e, t | holds(s) && step(s, e, t) ensures holds(t) {
      HoldsOn(codec, s, e, t, id, record);
    }
    Inductive(states, events, step, holds, i, j);
  }

  /** A record never changes or disappears. */
  lemma RecordsPersist(codec: Codec, states: seq<Store>, events: seq<Event>, i: nat, j: nat, id: string)
    requires codec.Faithful() && Run(codec, states, events) && InSync(codec, states[0])
    requires i <= j < |states| && id in states[i].records
    ensures id in states[j].records && states[j].records[id] == states[i].records[id]
  {
    EveryRunAgrees(codec, states, events, i);
    HoldsAlong(codec, states, events, i, j, id, states[i].records[id]);
  }

  /** No Box at any point of any run has a broader policy than any of its ancestors. */
  lemma EveryRunNarrows(codec: Codec, states: seq<Store>, events: seq<Event>, j: nat, id: string, n: nat)
    requires codec.Faithful() && Run(codec, states, events) && InSync(codec, states[0])
    requires j < |states|
    ensures var records := states[j].records;
            match Ancestor(records, id, n)
            case None => true
            case Some(a) =>
              && a in records && id in records
              && NoBroader(records[id].policy, records[a].policy)
              && PermitsNoMore(records[id].policy, records[a].policy)
  {
    EveryRunAgrees(codec, states, events, j);
    IndexIsWellKeyed(codec, RecordFiles(states[j].dir));
    NoBroaderThanAncestor(states[j].records, id, n);
  }

  /** The Box IDs in the order in which their records took effect. */
  function Order(states: seq<Store>, events: seq<Event>): seq<string>
    requires |states| == |events| + 1
  {
    if events == [] then []
    else
      var n := |events| - 1;
      Order(states[..n + 1], events[..n])
      + (if states[n + 1].records == states[n].records then [] else [events[n].record.boxId])
  }

  lemma GrownIsRanked(records: Records, order: seq<string>, record: LineageRecord)
    requires Ranked(records, order) && record.boxId !in records && ParentHolds(records, record)
    ensures Ranked(records[record.boxId := record], order + [record.boxId])
  {
    var after, longer := records[record.boxId := record], order + [record.boxId];
    forall i: nat | i < |longer| ensures ParentBefore(after, longer, i) {
      if i < |order| {
        assert ParentBefore(records, order, i);
        assert longer[..i] == order[..i];
      } else {
        assert longer[..i] == order;
      }
    }
    forall id ensures id in after <==> id in longer {
      assert id in longer <==> id in order || id == record.boxId;
    }
  }

  lemma {:induction false} EveryRunIsRanked(codec: Codec, states: seq<Store>, events: seq<Event>)
    requires codec.Faithful() && Run(codec, states, events) && InSync(codec, states[0]) && states[0].records == map[]
    ensures Ranked(states[|events|].records, Order(states, events))
    decreases |events|
  {
    if events != [] {
      var n := |events| - 1;
      var shorter := states[..n + 1];
      EveryRunIsRanked(codec, shorter, events[..n]);
      EveryRunAgrees(codec, states, events, n);
      NextKeeps(codec, states[n], events[n], states[n + 1]);
      var order := Order(shorter, events[..n]);
      assert order + [] == order;
      if states[n + 1].records != states[n].records {
        GrownIsRanked(states[n].records, order, events[n].record);
      }
    }
  }

  /** A store that started empty never has a Box that is its own ancestor. */
  lemma EveryRunIsAcyclic(codec: Codec, states: seq<Store>, events: seq<Event>, id: string, n: nat)
    requires codec.Faithful() && Run(codec, states, events) && InSync(codec, states[0]) && states[0].records == map[]
    requires Ancestor(states[|events|].records, id, n) == Some(id)
    ensures n == 0
  {
    EveryRunIsRanked(codec, states, events);
    RankedIsAcyclic(states[|events|].records, Order(states, events), id, n);
  }
}
