/** The lineage store object: `open` reads a directory listing into an index, `register` extends directory and
    index together (src/lineage.rs). */
module LineageStores {
  import opened Bytes
  import opened Outcomes
  import opened LineageRecords
  import opened LineageDisk
  import opened LineageRuns

  /** Names whose directory entry, and files whose content, cannot be read. */
  datatype Faults = Faults(entries: set<string>, files: set<string>)

  predicate IsRecordFile(dir: Directory, name: string)
    requires name in dir
  {
    dir[name].File? && HasJson(name)
  }

  predicate Readable(dir: Directory, faults: Faults, name: string)
    requires name in dir
  {
    name !in faults.entries && (IsRecordFile(dir, name) ==> name !in faults.files)
  }

  ghost predicate AllReadable(dir: Directory, faults: Faults) {
    forall name :: name in dir ==> Readable(dir, faults, name)
  }

  ghost predicate Lists(dir: Directory, names: seq<string>) {
    forall name :: name in names <==> name in dir
  }

  /** A record file is listed twice. */
  ghost predicate Repeats(dir: Directory, names: seq<string>) {
    exists j, k :: 0 <= j < k < |names| && names[j] == names[k] && names[k] in dir && IsRecordFile(dir, names[k])
  }

  predicate Passes(codec: Codec, dir: Directory, faults: Faults, name: string)
    requires name in dir
  {
    Readable(dir, faults, name) && (IsRecordFile(dir, name) ==> GoodFile(codec, RecordFiles(dir), name))
  }

  /** The index holds exactly the record files among the names seen. */
  ghost predicate Collected(codec: Codec, dir: Directory, seen: seq<string>, records: Records) {
    forall id :: CollectedAt(codec, dir, seen, records, id)
  }

  ghost predicate CollectedAt(codec: Codec, dir: Directory, seen: seq<string>, records: Records, id: string) {
    && (id in records <==> FileName(id) in seen && FileName(id) in RecordFiles(dir))
    && (id in records ==> codec.decode(RecordFiles(dir)[FileName(id)]) == Some(records[id]))
  }

  ghost predicate ReadSoFar(codec: Codec, dir: Directory, faults: Faults, seen: seq<string>, records: Records) {
    && (forall name :: name in seen ==> name in dir && Passes(codec, dir, faults, name))
    && !Repeats(dir, seen)
    && Collected(codec, dir, seen, records)
  }

  lemma StillNoRepeats(dir: Directory, seen: seq<string>, name: string)
    requires !Repeats(dir, seen) && name in dir && (!IsRecordFile(dir, name) || name !in seen)
    ensures !Repeats(dir, seen + [name])
  {
  }

  lemma SkippedCollects(codec: Codec, dir: Directory, seen: seq<string>, records: Records, name: string)
    requires Collected(codec, dir, seen, records) && name in dir && !IsRecordFile(dir, name)
    ensures Collected(codec, dir, seen + [name], records)
  {
    forall id ensures CollectedAt(codec, dir, seen + [name], records, id) {
      assert CollectedAt(codec, dir, seen, records, id);
    }
  }

  lemma Skipped(codec: Codec, dir: Directory, faults: Faults, seen: seq<string>, records: Records, name: string)
    requires ReadSoFar(codec, dir, faults, seen, records)
    requires name in dir && Readable(dir, faults, name) && !IsRecordFile(dir, name)
    ensures ReadSoFar(codec, dir, faults, seen + [name], records)
  {
    StillNoRepeats(dir, seen, name);
    SkippedCollects(codec, dir, seen, records, name);
  }

  lemma Inserted(codec: Codec, dir: Directory, faults: Faults, seen: seq<string>, records: Records, name: string,
                 record: LineageRecord)
    requires ReadSoFar(codec, dir, faults, seen, records)
    requires name in dir && Readable(dir, faults, name) && IsRecordFile(dir, name)
    requires codec.decode(dir[name].bytes) == Some(record) && ValidRecord(record) && name == FileName(record.boxId)
    ensures record.boxId in records <==> name in seen
    ensures record.boxId !in records ==>
              ReadSoFar(codec, dir, faults, seen + [name], records[record.boxId := record])
  {
    assert CollectedAt(codec, dir, seen, records, record.boxId);
    if record.boxId !in records {
      var after := records[record.boxId := record];
      forall id ensures CollectedAt(codec, dir, seen + [name], after, id) {
        assert CollectedAt(codec, dir, seen, records, id);
        if FileName(id) == name {
          SameFileName(id, record.boxId);
        }
      }
    }
  }

  lemma RepeatsIn(dir: Directory, names: seq<string>, i: nat)
    requires i < |names| && names[i] in names[..i] && names[i] in dir && IsRecordFile(dir, names[i])
    ensures Repeats(dir, names)
  {
    var j :| 0 <= j < i && names[j] == names[i];
  }

  lemma AllRead(codec: Codec, dir: Directory, faults: Faults, names: seq<string>, records: Records)
    requires Lists(dir, names) && ReadSoFar(codec, dir, faults, names, records)
    ensures AllReadable(dir, faults) && AllGood(codec, RecordFiles(dir))
  {
    var files := RecordFiles(dir);
    forall name | name in dir ensures Readable(dir, faults, name) {
      assert Passes(codec, dir, faults, name);
    }
    forall name | name in files ensures GoodFile(codec, files, name) {
      assert Passes(codec, dir, faults, name);
    }
  }

  ghost predicate IndexedAt(codec: Codec, files: Files, records: Records, id: string) {
    && (id in records <==> FileName(id) in files)
    && (id in records ==> codec.decode(files[FileName(id)]) == Some(records[id]))
  }

  lemma Indexed(codec: Codec, files: Files, records: Records)
    requires AllGood(codec, files) && forall id :: IndexedAt(codec, files, records, id)
    ensures records == RecordIndex(codec, files)
  {
    var index := RecordIndex(codec, files);
    forall id ensures id in records <==> id in index {
      assert IndexedAt(codec, files, records, id);
    }
    forall id | id in records ensures records[id] == index[id] {
      assert IndexedAt(codec, files, records, id);
    }
  }

  lemma AllIndexed(codec: Codec, dir: Directory, names: seq<string>, records: Records)
    requires Lists(dir, names) && Collected(codec, dir, names, records) && AllGood(codec, RecordFiles(dir))
    ensures records == RecordIndex(codec, RecordFiles(dir))
  {
    var files := RecordFiles(dir);
    forall id ensures IndexedAt(codec, files, records, id) {
      assert CollectedAt(codec, dir, names, records, id);
    }
    Indexed(codec, files, records);
  }

  /** The first loop of `open`: every entry, in listing order. */
  method ReadRecords(codec: Codec, dir: Directory, names: seq<string>, faults: Faults)
    returns (result: Result<Records, LineageError>)
    requires Lists(dir, names)
    ensures result.Success? <==>
              AllReadable(dir, faults) && AllGood(codec, RecordFiles(dir)) && !Repeats(dir, names)
    ensures result.Success? ==> result.value == RecordIndex(codec, RecordFiles(dir))
    ensures result == Failure(DuplicateRecord) ==> Repeats(dir, names)
  {
    var records: Records := map[];
    for i := 0 to |names|
      invariant ReadSoFar(codec, dir, faults, names[..i], records)
    {
      var name := names[i];
      assert names[..i + 1] == names[..i] + [name];
      assert AllReadable(dir, faults) && AllGood(codec, RecordFiles(dir)) ==> Passes(codec, dir, faults, name);
      if name in faults.entries {
        return Failure(Io);
      }
      if !(dir[name].File? && HasJson(name)) {
        Skipped(codec, dir, faults, names[..i], records, name);
        continue;
      }
      if name in faults.files {
        return Failure(Io);
      }
      assert name in RecordFiles(dir);
      var decoded := codec.decode(dir[name].bytes);
      if decoded == None {
        return Failure(Json);
      }
      var record := decoded.value;
      var invalid := Validate(record);
      if invalid.Some? {
        return Failure(invalid.value);
      }
      if name != FileName(record.boxId) {
        return Failure(FilenameMismatch);
      }
      Inserted(codec, dir, faults, names[..i], records, name, record);
      if record.boxId in records {
        RepeatsIn(dir, names, i);
        return Failure(DuplicateRecord);
      }
      records := records[record.boxId := record];
    }
    assert names[..|names|] == names;
    AllRead(codec, dir, faults, names, records);
    AllIndexed(codec, dir, names, records);
    result := Success(records);
  }

  /** The second loop of `open`: every record against its parent. The key order does not matter. */
  method CheckParents(records: Records) returns (broken: Option<LineageError>)
    ensures broken == None <==> FamiliesHold(records)
    ensures broken != Some(DuplicateRecord)
  {
    var remaining := records.Keys;
    while remaining != {}
      invariant remaining <= records.Keys
      invariant forall id :: id in records && id !in remaining ==> ParentHolds(records, records[id])
      decreases |remaining|
    {
      var id :| id in remaining;
      match records[id].parentBoxId {
        case None =>
        case Some(p) =>
          if p !in records {
            return Some(UnknownParent(p));
          }
          if !IsNarrowerThan(records[id].policy, records[p].policy) {
            return Some(BroadensParent);
          }
      }
      remaining := remaining - {id};
    }
    broken := None;
  }

  /** `open`: it succeeds on exactly the acceptable directories, gives the index they denote, and never reports
      a duplicate unless the listing itself repeats a name; nothing depends on the listing order. */
  method Restore(codec: Codec, dir: Directory, names: seq<string>, faults: Faults)
    returns (result: Result<Records, LineageError>)
    requires Lists(dir, names)
    ensures result.Success? <==>
              AllReadable(dir, faults) && Accepts(codec, RecordFiles(dir)) && !Repeats(dir, names)
    ensures result.Success? ==> result.value == RecordIndex(codec, RecordFiles(dir))
    ensures result == Failure(DuplicateRecord) ==> Repeats(dir, names)
  {
    result := ReadRecords(codec, dir, names, faults);
    if result.Success? {
      var broken := CheckParents(result.value);
      if broken.Some? {
        result := Failure(broken.value);
      }
    }
  }

  /** The directory, as the store's process sees it. */
  class Disk {
    var entries: Directory

    constructor (entries: Directory)
      ensures this.entries == entries
    {
      this.entries := entries;
    }

    method Perform(op: Op, outcome: Outcome) returns (ok: bool)
      modifies this
      ensures (entries, ok) == Step(old(entries), op, outcome)
    {
      match op {
        case CreateNew(name) =>
          ok := outcome.Done? && name !in entries;
          if ok {
            entries := entries[name := File([])];
          }
        case Append(name, bytes) =>
          if name !in entries || !entries[name].File? {
            ok := false;
          } else {
            var written := if outcome.Stops? && outcome.written < |bytes| then bytes[..outcome.written] else bytes;
            entries := entries[name := File(entries[name].bytes + written)];
            ok := outcome.Done?;
          }
        case Sync(_) =>
          ok := outcome.Done?;
        case Rename(from, to) =>
          ok := outcome.Done? && from in entries && !(to in entries && entries[to].Folder?);
          if ok {
            entries := (entries - {from})[to := entries[from]];
          }
      }
    }
  }

  class LineageStore {
    const disk: Disk
    var records: Records
    var sequence: nat

    ghost function State(): Store
      reads this, disk
    {
      Store(disk.entries, records, sequence)
    }

    constructor (disk: Disk, records: Records)
      ensures this.disk == disk && this.records == records && sequence == 0
    {
      this.disk := disk;
      this.records := records;
      sequence := 0;
    }

    static method Open(codec: Codec, disk: Disk, names: seq<string>, faults: Faults)
      returns (result: Result<LineageStore, LineageError>)
      requires Lists(disk.entries, names)
      ensures result.Success? <==>
                AllReadable(disk.entries, faults) && Accepts(codec, RecordFiles(disk.entries))
                && !Repeats(disk.entries, names)
      ensures result.Success? ==>
                fresh(result.value) && result.value.disk == disk && InSync(codec, result.value.State())
    {
      var index := Restore(codec, disk.entries, names, faults);
      match index {
        case Failure(e) =>
          result := Failure(e);
        case Success(records) =>
          var store := new LineageStore(disk, records);
          result := Success(store);
      }
    }

    /** The checks on a new record. */
    method Check(record: LineageRecord) returns (reply: Reply)
      ensures reply == Refusal(records, record)
    {
      reply := Validate(record);
      if reply.Some? {
        return;
      }
      if record.boxId in records {
        return Some(AlreadyRegistered);
      }
      match record.parentBoxId {
        case None =>
        case Some(p) =>
          if p !in records {
            return Some(UnknownParent(p));
          }
          if !IsNarrowerThan(record.policy, records[p].policy) {
            return Some(BroadensParent);
          }
      }
    }

    /** The disk steps in order, then the index. */
    method Persist(codec: Codec, record: LineageRecord, io: seq<Outcome>) returns (reply: Reply)
      requires |io| == 5
      modifies this`records, this`sequence, disk
      ensures (State(), reply) == Persisted(codec, old(State()), record, io)
    {
      var temporary := TemporaryName(record.boxId, sequence);
      sequence := sequence + 1;
      var ok := WriteRecord(codec, record, temporary, io);
      if !ok {
        return Some(Io);
      }
      records := records[record.boxId := record];
      reply := None;
    }

    /** `register`: the checks, then the rest. */
    method RegisterRecord(codec: Codec, record: LineageRecord, io: seq<Outcome>) returns (reply: Reply)
      requires |io| == 5
      modifies this`records, this`sequence, disk
      ensures (State(), reply) == Register(codec, old(State()), record, io)
      ensures codec.Faithful() && InSync(codec, old(State())) ==> InSync(codec, State())
    {
      ghost var before := State();
      if codec.Faithful() && InSync(codec, before) {
        RegisterKeeps(codec, before, record, io);
      }
      reply := Check(record);
      if reply == None {
        reply := Persist(codec, record, io);
      }
    }

    method WriteRecord(codec: Codec, record: LineageRecord, temporary: string, io: seq<Outcome>) returns (ok: bool)
      requires |io| == 5
      modifies disk
      ensures (disk.entries, ok) == Carry(old(disk.entries), Plan(codec, record, temporary), io, 0)
    {
      ghost var plan, before := Plan(codec, record, temporary), disk.entries;
      CarryOn(disk.entries, plan, io, 0);
      ok := disk.Perform(CreateNew(temporary), io[0]);
      if !ok { return; }
      assert Carry(before, plan, io, 0) == Carry(disk.entries, plan, io, 1);
      CarryOn(disk.entries, plan, io, 1);
      ok := disk.Perform(Append(temporary, codec.encode(record)), io[1]);
      if !ok { return; }
      assert Carry(before, plan, io, 0) == Carry(disk.entries, plan, io, 2);
      CarryOn(disk.entries, plan, io, 2);
      ok := disk.Perform(Append(temporary, [NEWLINE]), io[2]);
      if !ok { return; }
      assert Carry(before, plan, io, 0) == Carry(disk.entries, plan, io, 3);
      CarryOn(disk.entries, plan, io, 3);
      ok := disk.Perform(Sync(temporary), io[3]);
      if !ok { return; }
      assert Carry(before, plan, io, 0) == Carry(disk.entries, plan, io, 4);
      CarryOn(disk.entries, plan, io, 4);
      ok := disk.Perform(Rename(temporary, FileName(record.boxId)), io[4]);
    }
  }
}
