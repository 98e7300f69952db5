/** Lineage records, policy narrowing along parent chains, and the index a set of record files denotes
    (src/lineage.rs). */
module LineageRecords {
  import opened Collections
  import opened Bytes
  import opened Outcomes
  import opened Text

  datatype PolicySnapshot = PolicySnapshot(
    requiredBackend: seq<string>,
    gatewayRefs: seq<string>,
    ttlSeconds: nat,
    cpuQuotaPercent: nat,
    memoryLimitBytes: nat,
    filesystemMode: string,
    writeTarget: string)

  datatype LineageRecord = LineageRecord(
    schema: string,
    boxId: string,
    parentBoxId: Option<string>,
    auditTraceId: string,
    createdAt: string,
    policy: PolicySnapshot)

  type Records = map<string, LineageRecord>

  datatype LineageError =
    | Io
    | Json
    | UnsupportedSchema
    | InvalidIdOrTrace
    | UnsupportedPolicy
    | FilenameMismatch
    | DuplicateRecord
    | AlreadyRegistered
    | UnknownParent(id: string)
    | BroadensParent

  // ---- policies ----

  predicate StrictScratch(p: PolicySnapshot) {
    p.filesystemMode == "STRICT" && p.writeTarget == "scratch"
  }

  function Gateways(p: PolicySnapshot): set<string> {
    set g | g in p.gatewayRefs
  }

  predicate IsNarrowerThan(child: PolicySnapshot, parent: PolicySnapshot) {
    && StrictScratch(child)
    && StrictScratch(parent)
    && Gateways(child) <= Gateways(parent)
    && child.ttlSeconds <= parent.ttlSeconds
    && child.cpuQuotaPercent <= parent.cpuQuotaPercent
    && child.memoryLimitBytes <= parent.memoryLimitBytes
  }

  // ---- what a policy permits ----

  /** Something a Box may do: reach a gateway, live for a time, or take some processor or memory. */
  datatype Use = Reach(gateway: string) | Live(seconds: nat) | Compute(percent: nat) | Hold(bytes: nat)

  predicate Permits(p: PolicySnapshot, use: Use) {
    match use
    case Reach(gateway) => gateway in p.gatewayRefs
    case Live(seconds) => seconds <= p.ttlSeconds
    case Compute(percent) => percent <= p.cpuQuotaPercent
    case Hold(bytes) => bytes <= p.memoryLimitBytes
  }

  /** Whatever `child` may do, `parent` may do. */
  ghost predicate PermitsNoMore(child: PolicySnapshot, parent: PolicySnapshot) {
    forall use :: Permits(child, use) ==> Permits(parent, use)
  }

  /** The same, limit by limit. */
  ghost predicate NoBroader(child: PolicySnapshot, parent: PolicySnapshot) {
    && (forall gateway :: gateway in child.gatewayRefs ==> gateway in parent.gatewayRefs)
    && child.ttlSeconds <= parent.ttlSeconds
    && child.cpuQuotaPercent <= parent.cpuQuotaPercent
    && child.memoryLimitBytes <= parent.memoryLimitBytes
  }

  ghost predicate Confined(p: PolicySnapshot) {
    p.filesystemMode == "STRICT" && p.writeTarget == "scratch"
  }

  lemma PermitsByLimits(child: PolicySnapshot, parent: PolicySnapshot)
    ensures PermitsNoMore(child, parent) <==> NoBroader(child, parent)
  {
    if PermitsNoMore(child, parent) {
      forall gateway | gateway in child.gatewayRefs ensures gateway in parent.gatewayRefs {
        assert Permits(child, Reach(gateway));
      }
      assert Permits(child, Live(child.ttlSeconds));
      assert Permits(child, Compute(child.cpuQuotaPercent));
      assert Permits(child, Hold(child.memoryLimitBytes));
    }
  }

  /** A policy is narrower exactly if both are confined and it permits nothing that the other does not. */
  lemma NarrowerExactly(child: PolicySnapshot, parent: PolicySnapshot)
    ensures IsNarrowerThan(child, parent) <==> Confined(child) && Confined(parent) && PermitsNoMore(child, parent)
    ensures IsNarrowerThan(child, parent) <==> Confined(child) && Confined(parent) && NoBroader(child, parent)
  {
    PermitsByLimits(child, parent);
    assert Gateways(child) <= Gateways(parent) <==>
             forall gateway :: gateway in child.gatewayRefs ==> gateway in parent.gatewayRefs by {
      assert forall gateway :: gateway in child.gatewayRefs <==> gateway in Gateways(child);
      assert forall gateway :: gateway in parent.gatewayRefs <==> gateway in Gateways(parent);
    }
  }

  /** Everything narrowing looks at is the same; `requiredBackend` and the order of references are free. */
  predicate SameGrant(p: PolicySnapshot, q: PolicySnapshot) {
    && Gateways(p) == Gateways(q)
    && p.ttlSeconds == q.ttlSeconds
    && p.cpuQuotaPercent == q.cpuQuotaPercent
    && p.memoryLimitBytes == q.memoryLimitBytes
  }

  // ---- records ----

  const SCHEMA := "viper-boxd.lineage.v0"

  predicate ValidRecord(r: LineageRecord) {
    r.schema == SCHEMA && IsBoxIdText(r.boxId) && Trim(r.auditTraceId) != "" && StrictScratch(r.policy)
  }

  /** The first of the store contract's rules a record breaks. */
  function Validate(r: LineageRecord): (e: Option<LineageError>)
    ensures e == None <==> ValidRecord(r)
    ensures e != Some(DuplicateRecord)
  {
    if r.schema != SCHEMA then Some(UnsupportedSchema)
    else if !IsBoxIdText(r.boxId) || Trim(r.auditTraceId) == "" then Some(InvalidIdOrTrace)
    else if !StrictScratch(r.policy) then Some(UnsupportedPolicy)
    else None
  }

  predicate ParentHolds(records: Records, r: LineageRecord) {
    match r.parentBoxId
    case None => true
    case Some(p) => p in records && IsNarrowerThan(r.policy, records[p].policy)
  }

  ghost predicate FamiliesHold(records: Records) {
    forall id :: id in records ==> ParentHolds(records, records[id])
  }

  ghost predicate WellKeyed(records: Records) {
    forall id :: id in records ==> records[id].boxId == id && ValidRecord(records[id])
  }

  // ---- ancestors ----

  /** The Box `n` parent links up from `id`. */
  function Ancestor(records: Records, id: string, n: nat): Option<string>
    decreases n
  {
    if id !in records then None
    else if n == 0 then Some(id)
    else match records[id].parentBoxId
      case None => None
      case Some(p) => Ancestor(records, p, n - 1)
  }

  lemma {:induction false} NarrowerThanAncestor(records: Records, id: string, n: nat)
    requires FamiliesHold(records) && WellKeyed(records)
    ensures match Ancestor(records, id, n)
            case None => true
            case Some(a) => a in records && id in records && IsNarrowerThan(records[id].policy, records[a].policy)
    decreases n
  {
    if id in records && n > 0 && records[id].parentBoxId.Some? {
      var p := records[id].parentBoxId.value;
      assert ParentHolds(records, records[id]);
      NarrowerThanAncestor(records, p, n - 1);
    }
  }

  /** No Box permits more than any ancestor, at any depth, in gateways, time, processor or memory. */
  lemma NoBroaderThanAncestor(records: Records, id: string, n: nat)
    requires FamiliesHold(records) && WellKeyed(records)
    ensures match Ancestor(records, id, n)
            case None => true
            case Some(a) =>
              && a in records && id in records
              && NoBroader(records[id].policy, records[a].policy)
              && PermitsNoMore(records[id].policy, records[a].policy)
  {
    NarrowerThanAncestor(records, id, n);
    if Ancestor(records, id, n).Some? {
      NarrowerExactly(records[id].policy, records[Ancestor(records, id, n).value].policy);
    }
  }

  lemma {:induction false} AncestorsCompose(records: Records, id: string, m: nat, k: nat)
    ensures Ancestor(records, id, m + k)
         == match Ancestor(records, id, m) case None => None case Some(a) => Ancestor(records, a, k)
    decreases m
  {
    if m > 0 && id in records && records[id].parentBoxId.Some? {
      AncestorsCompose(records, records[id].parentBoxId.value, m - 1, k);
    }
  }

  /** If a Box is its own ancestor, every Box on the cycle has the same grant. */
  lemma CycleIsUniform(records: Records, id: string, n: nat, m: nat)
    requires FamiliesHold(records) && WellKeyed(records)
    requires Ancestor(records, id, n) == Some(id) && m <= n
    ensures match Ancestor(records, id, m)
            case None => false
            case Some(a) => a in records && id in records && SameGrant(records[id].policy, records[a].policy)
  {
    AncestorsCompose(records, id, m, n - m);
    NarrowerThanAncestor(records, id, m);
    NarrowerThanAncestor(records, Ancestor(records, id, m).value, n - m);
  }

  /** `order` lists the Boxes, each after its parent. */
  ghost predicate Ranked(records: Records, order: seq<string>) {
    && (forall id :: id in records <==> id in order)
    && (forall i, j :: 0 <= i < j < |order| ==> order[i] != order[j])
    && (forall i :: 0 <= i < |order| ==> ParentBefore(records, order, i))
  }

  ghost predicate ParentBefore(records: Records, order: seq<string>, i: nat)
    requires i < |order|
  {
    order[i] in records
    && match records[order[i]].parentBoxId case None => true case Some(p) => p in order[..i]
  }

  /** Each parent link goes back in the order by at least one place. */
  lemma {:induction false} RankFalls(records: Records, order: seq<string>, i: nat, n: nat)
    requires Ranked(records, order) && i < |order|
    ensures match Ancestor(records, order[i], n)
            case None => true
            case Some(a) => n <= i && a in order[..i - n + 1]
  {
    assert ParentBefore(records, order, i);
    if n == 0 {
      assert order[..i + 1][i] == order[i];
    } else if records[order[i]].parentBoxId.Some? {
      var p := records[order[i]].parentBoxId.value;
      var j :| 0 <= j < i && order[j] == p;
      RankFalls(records, order, j, n - 1);
      if Ancestor(records, p, n - 1).Some? {
        assert order[..j - n + 2] <= order[..i - n + 1];
      }
    }
  }

  lemma RankedIsAcyclic(records: Records, order: seq<string>, id: string, n: nat)
    requires Ranked(records, order)
    requires Ancestor(records, id, n) == Some(id)
    ensures n == 0
  {
    var i :| 0 <= i < |order| && order[i] == id;
    RankFalls(records, order, i, n);
    var k :| 0 <= k < i - n + 1 && order[k] == id;
  }

  // ---- without cycles there is an order ----

  /** No Box is its own proper ancestor. */
  ghost predicate Acyclic(records: Records) {
    forall id, n: nat :: n > 0 ==> Ancestor(records, id, n) != Some(id)
  }

  ghost predicate ParentIn(records: Records, ids: set<string>, id: string) {
    id in records && records[id].parentBoxId.Some? && records[id].parentBoxId.value in ids
  }

  lemma {:induction false} AncestorStaysIn(records: Records, ids: set<string>, id: string, n: nat)
    requires id in ids && forall x :: x in ids ==> ParentIn(records, ids, x)
    ensures Ancestor(records, id, n).Some? && Ancestor(records, id, n).value in ids
    decreases n
  {
    assert ParentIn(records, ids, id);
    if n > 0 {
      AncestorStaysIn(records, ids, records[id].parentBoxId.value, n - 1);
    }
  }

  /** The first `n` ancestors, the Box itself included. */
  function Chain(records: Records, id: string, n: nat): (chain: seq<string>)
    ensures |chain| == n
    ensures forall i :: 0 <= i < n ==> chain[i] == Ancestor(records, id, i).GetOr("")
  {
    if n == 0 then [] else Chain(records, id, n - 1) + [Ancestor(records, id, n - 1).GetOr("")]
  }

  /** Among Boxes whose parents are all among them, one is its own ancestor. */
  lemma ClosedHasCycle(records: Records, ids: set<string>, id: string)
    requires id in ids && forall x :: x in ids ==> ParentIn(records, ids, x)
    ensures !Acyclic(records)
  {
    var chain := Chain(records, id, |ids| + 1);
    forall i | 0 <= i < |chain| ensures chain[i] in ids && Ancestor(records, id, i) == Some(chain[i]) {
      AncestorStaysIn(records, ids, id, i);
    }
    if forall i, j :: 0 <= i < j < |chain| ==> chain[i] != chain[j] {
      DistinctFits(chain, ids);
    }
    var i: nat, j: nat :| i < j < |chain| && chain[i] == chain[j];
    AncestorsCompose(records, id, i, j - i);
    assert Ancestor(records, chain[i], j - i) == Some(chain[i]);
  }

  /** A part of an order: Boxes listed once, each after its parent. */
  ghost predicate PartlyRanked(records: Records, order: seq<string>) {
    && (forall i, j :: 0 <= i < j < |order| ==> order[i] != order[j])
    && (forall i :: 0 <= i < |order| ==> ParentBefore(records, order, i))
  }

  ghost function Unlisted(records: Records, order: seq<string>): set<string> {
    set id | id in records && id !in order
  }

  lemma NextInOrder(records: Records, order: seq<string>) returns (id: string)
    requires FamiliesHold(records) && Acyclic(records) && Unlisted(records, order) != {}
    ensures id in Unlisted(records, order) && !ParentIn(records, Unlisted(records, order), id)
  {
    var ids := Unlisted(records, order);
    var first :| first in ids;
    if forall x :: x in ids ==> ParentIn(records, ids, x) {
      ClosedHasCycle(records, ids, first);
    }
    id :| id in ids && !ParentIn(records, ids, id);
  }

  lemma ListedNext(records: Records, order: seq<string>, id: string)
    requires FamiliesHold(records) && PartlyRanked(records, order)
    requires id in Unlisted(records, order) && !ParentIn(records, Unlisted(records, order), id)
    ensures PartlyRanked(records, order + [id])
    ensures Unlisted(records, order + [id]) == Unlisted(records, order) - {id}
  {
    var longer := order + [id];
    assert ParentHolds(records, records[id]);
    forall i: nat | i < |longer| ensures ParentBefore(records, longer, i) {
      if i < |order| {
        assert ParentBefore(records, order, i) && longer[..i] == order[..i];
      } else {
        assert longer[..i] == order;
      }
    }
  }

  lemma {:induction false} OrderCompleted(records: Records, order: seq<string>) returns (full: seq<string>)
    requires FamiliesHold(records) && Acyclic(records) && PartlyRanked(records, order)
    ensures Ranked(records, full)
    decreases |Unlisted(records, order)|
  {
    if Unlisted(records, order) == {} {
      full := order;
      AllListed(records, order);
    } else {
      var id := NextInOrder(records, order);
      ListedNext(records, order, id);
      full := OrderCompleted(records, order + [id]);
    }
  }

  lemma AllListed(records: Records, order: seq<string>)
    requires PartlyRanked(records, order) && Unlisted(records, order) == {}
    ensures Ranked(records, order)
  {
    forall id ensures id in records <==> id in order {
      assert id !in Unlisted(records, order);
      if id in order {
        var i :| 0 <= i < |order| && order[i] == id;
        assert ParentBefore(records, order, i);
      }
    }
  }

  /** In an accepted index no Box is its own ancestor if and only if the Boxes can be listed parents first. */
  lemma RankedExactly(records: Records)
    requires FamiliesHold(records)
    ensures Acyclic(records) <==> exists order :: Ranked(records, order)
  {
    if Acyclic(records) {
      var order := OrderCompleted(records, []);
    }
    forall order, id, n: nat | Ranked(records, order) && n > 0 ensures Ancestor(records, id, n) != Some(id) {
      if Ancestor(records, id, n) == Some(id) {
        RankedIsAcyclic(records, order, id, n);
      }
    }
  }

  // ---- record files ----

  /** Regular files with the extension `json`, by name. */
  type Files = map<string, seq<byte>>

  /** JSON as this store uses it. */
  datatype Codec = Codec(encode: LineageRecord -> seq<byte>, decode: seq<byte> -> Option<LineageRecord>) {
    /** A record written with its trailing newline reads back. */
    ghost predicate Faithful() {
      forall r :: decode(Written(r)) == Some(r)
    }

    function Written(r: LineageRecord): seq<byte> {
      encode(r) + [NEWLINE]
    }
  }

  function FileName(id: string): string {
    id + ".json"
  }

  predicate GoodFile(codec: Codec, files: Files, name: string)
    requires name in files
  {
    match codec.decode(files[name])
    case None => false
    case Some(r) => ValidRecord(r) && name == FileName(r.boxId)
  }

  ghost predicate AllGood(codec: Codec, files: Files) {
    forall name :: name in files ==> GoodFile(codec, files, name)
  }

  function Decoded(codec: Codec, files: Files, name: string): LineageRecord
    requires name in files && GoodFile(codec, files, name)
  {
    codec.decode(files[name]).value
  }

  /** The Box IDs that have a file. */
  ghost function Ids(files: Files): (ids: set<string>)
    ensures forall id :: id in ids <==> FileName(id) in files
  {
    var ids := set name | name in files && EndsWith(name, ".json") :: name[..|name| - 5];
    assert forall id :: id in ids <==> FileName(id) in files by {
      forall id | id in ids ensures FileName(id) in files {
        var name :| name in files && EndsWith(name, ".json") && id == name[..|name| - 5];
        assert name == FileName(id);
      }
      forall id | FileName(id) in files ensures id in ids {
        assert FileName(id)[..|FileName(id)| - 5] == id;
      }
    }
    ids
  }

  /** The index a directory denotes. */
  ghost function RecordIndex(codec: Codec, files: Files): Records
    requires AllGood(codec, files)
  {
    map id | id in Ids(files) :: Decoded(codec, files, FileName(id))
  }

  /** What a store may be opened on. */
  ghost predicate Accepts(codec: Codec, files: Files) {
    AllGood(codec, files) && FamiliesHold(RecordIndex(codec, files))
  }

  lemma SameFileName(a: string, b: string)
    requires FileName(a) == FileName(b)
    ensures a == b
  {
    assert FileName(a)[..|a|] == a && FileName(b)[..|b|] == b;
  }

  lemma IndexIsWellKeyed(codec: Codec, files: Files)
    requires AllGood(codec, files)
    ensures WellKeyed(RecordIndex(codec, files))
  {
    var records := RecordIndex(codec, files);
    forall id | id in records ensures records[id].boxId == id && ValidRecord(records[id]) {
      assert GoodFile(codec, files, FileName(id));
      SameFileName(records[id].boxId, id);
    }
  }

  /** Adding one good file with a new ID adds one record and keeps the rest. */
  lemma AddedFile(codec: Codec, files: Files, record: LineageRecord)
    requires codec.Faithful() && Accepts(codec, files)
    requires ValidRecord(record) && record.boxId !in RecordIndex(codec, files)
    requires ParentHolds(RecordIndex(codec, files), record)
    ensures var after := files[FileName(record.boxId) := codec.Written(record)];
            Accepts(codec, after) && RecordIndex(codec, after) == RecordIndex(codec, files)[record.boxId := record]
  {
    AddedFileIsGood(codec, files, record);
    var before := RecordIndex(codec, files);
    var after := RecordIndex(codec, files[FileName(record.boxId) := codec.Written(record)]);
    forall id ensures Extends(after, before, record, id) {
      AddedEntry(codec, files, record, id);
    }
    ExtensionIsUpdate(after, before, record);
    AddedRecord(before, record);
  }

  ghost predicate Extends(after: Records, before: Records, record: LineageRecord, id: string) {
    && (id in after <==> id in before || id == record.boxId)
    && (id in after ==> after[id] == if id == record.boxId then record else before[id])
  }

  lemma ExtensionIsUpdate(after: Records, before: Records, record: LineageRecord)
    requires forall id :: Extends(after, before, record, id)
    ensures after == before[record.boxId := record]
  {
    forall id ensures id in after <==> id in before[record.boxId := record] {
      assert Extends(after, before, record, id);
    }
    forall id | id in after ensures after[id] == before[record.boxId := record][id] {
      assert Extends(after, before, record, id);
    }
  }

  lemma AddedEntry(codec: Codec, files: Files, record: LineageRecord, id: string)
    requires codec.Faithful() && AllGood(codec, files)
    requires AllGood(codec, files[FileName(record.boxId) := codec.Written(record)])
    ensures var after := files[FileName(record.boxId) := codec.Written(record)];
            Extends(RecordIndex(codec, after), RecordIndex(codec, files), record, id)
  {
    if FileName(id) == FileName(record.boxId) {
      SameFileName(id, record.boxId);
    }
  }

  lemma AddedFileIsGood(codec: Codec, files: Files, record: LineageRecord)
    requires codec.Faithful() && AllGood(codec, files) && ValidRecord(record)
    ensures AllGood(codec, files[FileName(record.boxId) := codec.Written(record)])
  {
    var after := files[FileName(record.boxId) := codec.Written(record)];
    forall name | name in after ensures GoodFile(codec, after, name) {
      if name != FileName(record.boxId) {
        assert GoodFile(codec, files, name);
      }
    }
  }

  lemma AddedRecord(records: Records, record: LineageRecord)
    requires FamiliesHold(records) && record.boxId !in records && ParentHolds(records, record)
    ensures FamiliesHold(records[record.boxId := record])
  {
    var after := records[record.boxId := record];
    forall id | id in after ensures ParentHolds(after, after[id]) {
      assert id != record.boxId ==> ParentHolds(records, records[id]);
    }
  }

  /** A Box that names itself as parent is accepted from a file, although no store registers it. */
  lemma SelfParentIsAccepted(codec: Codec, record: LineageRecord)
    requires codec.Faithful() && ValidRecord(record) && record.parentBoxId == Some(record.boxId)
    ensures var files := map[FileName(record.boxId) := codec.Written(record)];
            && Accepts(codec, files)
            && forall n :: Ancestor(RecordIndex(codec, files), record.boxId, n) == Some(record.boxId)
  {
    var files := map[FileName(record.boxId) := codec.Written(record)];
    assert GoodFile(codec, files, FileName(record.boxId));
    var records := RecordIndex(codec, files);
    assert record.boxId in records;
    forall id | id in records ensures id == record.boxId && records[id] == record {
      SameFileName(id, record.boxId);
    }
    forall n ensures Ancestor(records, record.boxId, n) == Some(record.boxId) {
      SelfParentCycle(records, record.boxId, n);
    }
  }

  lemma {:induction false} SelfParentCycle(records: Records, id: string, n: nat)
    requires id in records && records[id].parentBoxId == Some(id)
    ensures Ancestor(records, id, n) == Some(id)
  {
    if n > 0 {
      SelfParentCycle(records, id, n - 1);
    }
  }
}
