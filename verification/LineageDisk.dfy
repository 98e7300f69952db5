/** The lineage directory and the steps `register` takes on it (src/lineage.rs): create a temporary file,
    write it, sync it, rename it into place. Whichever step is the last one taken, the directory holds the
    record files it held before, or those and the new one. */
module LineageDisk {
  import opened Bytes
  import opened Outcomes
  import opened Text
  import opened LineageRecords

  /** `Special` is anything that is neither a regular file nor a folder, such as a symbolic link. */
  datatype Entry = File(bytes: seq<byte>) | Folder | Special

  type Directory = map<string, Entry>

  // ---- file names ----

  /** The place of the last dot, or -1. */
  function LastDot(name: string): (k: int)
    ensures -1 <= k < |name|
    ensures k >= 0 ==> name[k] == '.'
    ensures forall i :: k < i < |name| ==> name[i] != '.'
  {
    if name == "" then -1
    else if name[|name| - 1] == '.' then |name| - 1
    else LastDot(name[..|name| - 1])
  }

  /** `Path::extension`: a name whose only dot comes first has none. */
  function Extension(name: string): Option<string> {
    if LastDot(name) <= 0 then None else Some(name[LastDot(name) + 1..])
  }

  lemma ExtensionOf(stem: string, extension: string)
    requires stem != "" && '.' !in extension
    ensures Extension(stem + "." + extension) == Some(extension)
  {
    var name := stem + "." + extension;
    assert name[|stem|] == '.';
    assert forall i :: |stem| < i < |name| ==> name[i] == extension[i - |stem| - 1];
    assert LastDot(name) == |stem|;
  }

  function Decimal(n: nat): string {
    (if n < 10 then "" else Decimal(n / 10)) + [(n % 10) as char + '0']
  }

  function TemporaryName(id: string, sequence: nat): string {
    "." + id + "." + Decimal(sequence) + ".tmp"
  }

  lemma TemporaryIsNoRecord(id: string, sequence: nat)
    ensures !HasJson(TemporaryName(id, sequence))
  {
    var stem := "." + id + "." + Decimal(sequence);
    assert '.' !in "tmp";
    ExtensionOf(stem, "tmp");
    assert stem + "." + "tmp" == TemporaryName(id, sequence);
    assert "tmp"[0] != "json"[0];
  }

  lemma RecordFileName(id: string)
    requires id != ""
    ensures HasJson(FileName(id))
  {
    assert '.' !in "json";
    ExtensionOf(id, "json");
    assert id + "." + "json" == FileName(id);
  }

  // ---- what `open` looks at ----

  predicate HasJson(name: string) {
    Extension(name) == Some("json")
  }

  /** The regular files whose name is wanted. */
  function Selected(dir: Directory, wanted: string -> bool): Files {
    map name | name in dir && dir[name].File? && wanted(name) :: dir[name].bytes
  }

  function RecordFiles(dir: Directory): Files {
    Selected(dir, HasJson)
  }

  // ---- steps ----

  datatype Op =
    | CreateNew(name: string)
    | Append(name: string, bytes: seq<byte>)
    | Sync(name: string)
    | Rename(from: string, to: string)

  /** A step completes or stops, by an error or because the process dies. A stopped write may have written
      some of its bytes; the other steps are atomic. */
  datatype Outcome = Done | Stops(written: nat)

  /** One step: the directory after it, and whether it succeeded. */
  function Step(dir: Directory, op: Op, outcome: Outcome): (Directory, bool) {
    match op
    case CreateNew(name) =>
      if outcome.Stops? || name in dir then (dir, false) else (dir[name := File([])], true)
    case Append(name, bytes) =>
      if name !in dir || !dir[name].File? then (dir, false)
      else
        var written :=
          if outcome.Stops? && outcome.written < |bytes| then bytes[..outcome.written] else bytes;
        (dir[name := File(dir[name].bytes + written)], outcome.Done?)
    case Sync(name) => (dir, outcome.Done?)
    case Rename(from, to) =>
      if outcome.Stops? || from !in dir || (to in dir && dir[to].Folder?) then (dir, false)
      else ((dir - {from})[to := dir[from]], true)
  }

  /** What `register` does on disk. */
  function Plan(codec: Codec, record: LineageRecord, temporary: string): (plan: seq<Op>)
    ensures |plan| == 5
  {
    [CreateNew(temporary), Append(temporary, codec.encode(record)), Append(temporary, [NEWLINE]),
     Sync(temporary), Rename(temporary, FileName(record.boxId))]
  }

  /** The plan from step `k` on, until a step does not succeed. */
  function Carry(dir: Directory, plan: seq<Op>, io: seq<Outcome>, k: nat): (Directory, bool)
    requires k <= |plan| == |io|
    decreases |plan| - k
  {
    if k == |plan| then (dir, true)
    else
      var (next, ok) := Step(dir, plan[k], io[k]);
      if ok then Carry(next, plan, io, k + 1) else (next, false)
  }

  /** One step at a time. */
  lemma CarryOn(dir: Directory, plan: seq<Op>, io: seq<Outcome>, k: nat)
    requires k < |plan| == |io|
    ensures Carry(dir, plan, io, k)
         == if Step(dir, plan[k], io[k]).1 then Carry(Step(dir, plan[k], io[k]).0, plan, io, k + 1)
            else (Step(dir, plan[k], io[k]).0, false)
    ensures k + 1 == |plan| ==> Carry(dir, plan, io, k) == Step(dir, plan[k], io[k])
  {
  }

  // ---- a stop anywhere ----

  /** What is in the temporary file once `k` steps are done. */
  function Staged(codec: Codec, record: LineageRecord, k: nat): seq<byte> {
    if k <= 1 then [] else if k == 2 then codec.encode(record) else codec.Written(record)
  }

  predicate SameAt(a: Files, b: Files, name: string) {
    (name in a <==> name in b) && (name in a ==> a[name] == b[name])
  }

  lemma SameFiles(a: Files, b: Files)
    requires forall name :: SameAt(a, b, name)
    ensures a == b
  {
    forall name ensures name in a <==> name in b {
      assert SameAt(a, b, name);
    }
    forall name | name in a ensures a[name] == b[name] {
      assert SameAt(a, b, name);
    }
  }

  lemma OtherFile(dir: Directory, wanted: string -> bool, name: string, entry: Entry)
    requires !wanted(name)
    ensures Selected(dir[name := entry], wanted) == Selected(dir, wanted)
  {
    var after, before := Selected(dir[name := entry], wanted), Selected(dir, wanted);
    forall other ensures SameAt(after, before, other) {
    }
    SameFiles(after, before);
  }

  lemma Moved(dir: Directory, wanted: string -> bool, from: string, to: string)
    requires from in dir && dir[from].File? && !wanted(from) && wanted(to)
    ensures Selected((dir - {from})[to := dir[from]], wanted) == Selected(dir, wanted)[to := dir[from].bytes]
  {
    var after := Selected((dir - {from})[to := dir[from]], wanted);
    var expected := Selected(dir, wanted)[to := dir[from].bytes];
    forall other ensures SameAt(after, expected, other) {
    }
    SameFiles(after, expected);
  }

  /** Steps on a file that is not wanted leave the wanted ones alone. */
  lemma StepAside(dir: Directory, wanted: string -> bool, op: Op, outcome: Outcome)
    requires !op.Rename? && !wanted(op.name)
    ensures Selected(Step(dir, op, outcome).0, wanted) == Selected(dir, wanted)
  {
    var next := Step(dir, op, outcome).0;
    if op.name in next {
      OtherFile(dir, wanted, op.name, next[op.name]);
    }
    assert next == dir || (op.name in next && next == dir[op.name := next[op.name]]);
  }

  lemma StageStep(codec: Codec, record: LineageRecord, temporary: string, dir: Directory, k: nat, outcome: Outcome)
    requires k < 4
    requires k > 0 ==> temporary in dir && dir[temporary] == File(Staged(codec, record, k))
    ensures var (next, ok) := Step(dir, Plan(codec, record, temporary)[k], outcome);
            ok ==> temporary in next && next[temporary] == File(Staged(codec, record, k + 1))
  {
    assert [] + codec.encode(record) == codec.encode(record);
  }

  /** Wherever the plan stops, the record files are the old ones; only when it completes is one more in place,
      whole. */
  lemma {:induction false} StopsCleanly(codec: Codec, record: LineageRecord, temporary: string, dir: Directory,
                                        io: seq<Outcome>, k: nat, wanted: string -> bool)
    requires !wanted(temporary) && wanted(FileName(record.boxId))
    requires |io| == 5 && k <= 4
    requires k > 0 ==> temporary in dir && dir[temporary] == File(Staged(codec, record, k))
    ensures var (after, ok) := Carry(dir, Plan(codec, record, temporary), io, k);
            var before := Selected(dir, wanted);
            Selected(after, wanted) == if ok then before[FileName(record.boxId) := codec.Written(record)] else before
    decreases 5 - k
  {
    var plan := Plan(codec, record, temporary);
    if k < 4 {
      StageStep(codec, record, temporary, dir, k, io[k]);
      StepAside(dir, wanted, plan[k], io[k]);
      var (next, ok) := Step(dir, plan[k], io[k]);
      if ok {
        StopsCleanly(codec, record, temporary, next, io, k + 1, wanted);
      }
    } else {
      Moved(dir, wanted, temporary, FileName(record.boxId));
    }
  }

  // ---- what is left in the directory ----

  ghost predicate SameBut(after: Directory, before: Directory, name: string) {
    after - {name} == before - {name}
  }

  /** A plan that completes leaves the new record's file in place of the temporary one; one that stops may leave the
      temporary file, and leaves every other entry as it was. */
  ghost predicate Leaves(codec: Codec, record: LineageRecord, temporary: string, dir: Directory, after: Directory,
                         ok: bool) {
    if ok then after == (dir - {temporary})[FileName(record.boxId) := File(codec.Written(record))]
    else SameBut(after, dir, temporary)
  }

  lemma LeavesOneStep(codec: Codec, record: LineageRecord, temporary: string, dir: Directory, outcome: Outcome, k: nat)
    requires k < 4
    ensures SameBut(Step(dir, Plan(codec, record, temporary)[k], outcome).0, dir, temporary)
  {
  }

  lemma {:induction false} CarryLeaves(codec: Codec, record: LineageRecord, temporary: string, dir: Directory,
                                       io: seq<Outcome>, k: nat)
    requires |io| == 5 && k <= 4
    requires k > 0 ==> temporary in dir && dir[temporary] == File(Staged(codec, record, k))
    ensures var (after, ok) := Carry(dir, Plan(codec, record, temporary), io, k);
            Leaves(codec, record, temporary, dir, after, ok)
    decreases 5 - k
  {
    var plan := Plan(codec, record, temporary);
    CarryOn(dir, plan, io, k);
    if k < 4 {
      LeavesOneStep(codec, record, temporary, dir, io[k], k);
      StageStep(codec, record, temporary, dir, k, io[k]);
      var (next, ok) := Step(dir, plan[k], io[k]);
      if ok {
        CarryLeaves(codec, record, temporary, next, io, k + 1);
      }
    }
  }

  // ---- temporary names ----

  predicate Digits(text: string) {
    forall i :: 0 <= i < |text| ==> '0' <= text[i] <= '9'
  }

  function Value(text: string): nat
    requires Digits(text)
  {
    if text == "" then 0 else 10 * Value(text[..|text| - 1]) + (text[|text| - 1] as int - 48)
  }

  lemma ValueAppends(text: string, digit: char)
    requires Digits(text) && '0' <= digit <= '9'
    ensures Digits(text + [digit]) && Value(text + [digit]) == 10 * Value(text) + (digit as int - 48)
  {
    var more := text + [digit];
    assert more[..|more| - 1] == text;
  }

  lemma DecimalEnds(n: nat)
    ensures var digit := (n % 10) as char + '0';
            '0' <= digit <= '9' && digit as int - 48 == n % 10
            && Decimal(n) == (if n < 10 then "" else Decimal(n / 10)) + [digit]
  {
  }

  lemma {:induction false} DecimalReads(n: nat)
    ensures Decimal(n) != "" && Digits(Decimal(n)) && Value(Decimal(n)) == n
  {
    DecimalEnds(n);
    if n >= 10 {
      DecimalReads(n / 10);
    }
    ValueAppends(if n < 10 then "" else Decimal(n / 10), (n % 10) as char + '0');
  }

  lemma NoDots(id: string)
    requires IdOk(id)
    ensures '.' !in id
  {
    assert !IdCode('.' as int);
  }

  /** The first dot tells where a text without dots ends. */
  lemma EndsAtDot(a: string, b: string, u: string, v: string)
    requires '.' !in a && '.' !in b && a + ("." + u) == b + ("." + v)
    ensures a == b && u == v
  {
    var s, t := a + ("." + u), b + ("." + v);
    assert s[|a|] == '.' && t[|b|] == '.';
    assert forall i :: 0 <= i < |a| ==> s[i] == a[i] && a[i] in a;
    assert forall i :: 0 <= i < |b| ==> t[i] == b[i] && b[i] in b;
    assert |a| == |b|;
    assert s[..|a|] == a && t[..|b|] == b && s[|a| + 1..] == u && t[|b| + 1..] == v;
  }

  lemma TemporaryParts(id: string, sequence: nat)
    ensures TemporaryName(id, sequence) == "." + (id + ("." + (Decimal(sequence) + ("." + "tmp"))))
  {
  }

  /** No two registrations of a process use the same temporary name. */
  lemma TemporaryNamesDiffer(id: string, sequence: nat, other: string, later: nat)
    requires IdOk(id) && IdOk(other) && TemporaryName(id, sequence) == TemporaryName(other, later)
    ensures id == other && sequence == later
  {
    TemporaryParts(id, sequence);
    TemporaryParts(other, later);
    NoDots(id);
    NoDots(other);
    var a, b := Decimal(sequence) + ("." + "tmp"), Decimal(later) + ("." + "tmp");
    assert ("." + (id + ("." + a)))[1..] == id + ("." + a) && ("." + (other + ("." + b)))[1..] == other + ("." + b);
    EndsAtDot(id, other, a, b);
    DecimalReads(sequence);
    DecimalReads(later);
    EndsAtDot(Decimal(sequence), Decimal(later), "tmp", "tmp");
  }
}
