/** The global Box limit and FIFO queue (src/admission.rs). `Control` is the controller as a value, with one
    function an operation; the class AdmissionController runs the same operations as statements on its fields
    and is proved to compute those functions. What holds of every run of operations, such as the order in which
    tickets are served, is proved in AdmissionOrder. */
module Admission {
  import opened Collections
  import opened Outcomes

  type BoxId = string

  datatype Decision = Start | Queued(position: nat)

  function RemoveAt<T>(s: seq<T>, k: nat): seq<T>
    requires k < |s|
  {
    s[..k] + s[k + 1..]
  }

  /** The controller's fields as one value; the functions below say what each method does to it. */
  datatype Control = Control(limit: nat, active: set<BoxId>, queued: seq<BoxId>) {

    /** What every operation keeps. */
    ghost predicate Valid() {
      && 0 < limit
      && |active| <= limit
      && Distinct(queued)
      && "" !in active
      && "" !in queued
      && (forall id :: id in queued ==> id !in active)
    }

    function Admit(id: BoxId): (Control, Result<Decision, string>) {
      if id == "" || id in active || id in queued then
        (this, Failure("duplicate or invalid Box ID"))
      else if |active| < limit && queued == [] then
        (this.(active := active + {id}), Success(Start))
      else
        (this.(queued := queued + [id]), Success(Queued(|queued| + 1)))
    }

    function Release(id: BoxId): Control {
      this.(active := active - {id})
    }

    function StartNext(): (Control, Option<BoxId>) {
      if limit <= |active| || queued == [] then
        (this, None)
      else
        (this.(active := active + {queued[0]}, queued := queued[1..]), Some(queued[0]))
    }

    function CancelQueued(id: BoxId): Control {
      var k := IndexOf(queued, id);
      if k == |queued| then this else this.(queued := RemoveAt(queued, k))
    }
  }

  function Fresh(limit: nat): Control {
    Control(limit, {}, [])
  }

  lemma AdmitKeepsValid(c: Control, id: BoxId)
    requires c.Valid()
    ensures c.Admit(id).0.Valid()
    ensures c.Admit(id).1.Success? ==> id !in c.active && id !in c.queued
    ensures c.Admit(id).1 == Success(Start) ==> c.queued == [] && |c.active| < c.limit
    ensures forall p :: c.Admit(id).1 == Success(Queued(p)) ==> c.Admit(id).0.queued[p - 1..] == [id]
  {
  }

  lemma ReleaseKeepsValid(c: Control, id: BoxId)
    requires c.Valid()
    ensures c.Release(id).Valid()
    ensures id in c.active ==> |c.Release(id).active| < c.limit
  {
    if id !in c.active {
      assert c.active - {id} == c.active;
    }
  }

  lemma StartNextKeepsValid(c: Control)
    requires c.Valid()
    ensures c.StartNext().0.Valid()
    ensures c.StartNext().1.None? <==> c.queued == [] || |c.active| == c.limit
    ensures c.StartNext().1.Some? ==>
              c.StartNext().1.value !in c.active && c.StartNext().1.value !in c.StartNext().0.queued
  {
  }

  lemma CancelKeepsValid(c: Control, id: BoxId)
    requires c.Valid()
    ensures c.CancelQueued(id).Valid()
    ensures forall other :: other in c.CancelQueued(id).queued <==> other in c.queued && other != id
    ensures c.CancelQueued(id).active == c.active
  {
    var k := IndexOf(c.queued, id);
    if k < |c.queued| {
      RemoveAtKeepsOthers(c.queued, k);
    }
  }

  /** Removing one place of a duplicate-free sequence removes exactly that element. */
  lemma RemoveAtKeepsOthers<T>(s: seq<T>, k: nat)
    requires Distinct(s) && k < |s|
    ensures Distinct(RemoveAt(s, k))
    ensures forall x :: x in RemoveAt(s, k) <==> x in s && x != s[k]
  {
    var r := RemoveAt(s, k);
    forall x | x in s && x != s[k] ensures x in r {
      var i :| 0 <= i < |s| && s[i] == x;
      assert r[if i < k then i else i - 1] == x;
    }
  }

  class AdmissionController {
    const limit: nat
    var active: set<BoxId>
    var queued: seq<BoxId>

    function Value(): Control
      reads this
    {
      Control(limit, active, queued)
    }

    constructor (limit: nat)
      ensures Value() == Fresh(limit)
    {
      this.limit := limit;
      active := {};
      queued := [];
    }

    /** A zero limit is refused: it would make every request an unserviceable queue entry. */
    static method New(limit: nat) returns (r: Result<AdmissionController, string>)
      ensures r.Failure? <==> limit == 0
      ensures r.Success? ==> fresh(r.value) && r.value.Value() == Fresh(limit) && r.value.Value().Valid()
    {
      if limit == 0 {
        return Failure("max active Boxes must be at least one");
      }
      var controller := new AdmissionController(limit);
      return Success(controller);
    }

    method Admit(id: BoxId) returns (r: Result<Decision, string>)
      modifies this
      ensures (Value(), r) == old(Value()).Admit(id)
    {
      if id == "" || id in active || id in queued {
        return Failure("duplicate or invalid Box ID");
      }
      if |active| < limit && queued == [] {
        active := active + {id};
        return Success(Start);
      }
      queued := queued + [id];
      return Success(Queued(|queued|));
    }

    method Release(id: BoxId) returns (held: bool)
      modifies this
      ensures Value() == old(Value()).Release(id)
      ensures held <==> id in old(active)
    {
      held := id in active;
      active := active - {id};
    }

    method StartNext() returns (next: Option<BoxId>)
      modifies this
      ensures (Value(), next) == old(Value()).StartNext()
    {
      if limit <= |active| || queued == [] {
        return None;
      }
      next := Some(queued[0]);
      queued := queued[1..];
      active := active + {next.value};
    }

    method CancelQueued(id: BoxId) returns (found: bool)
      modifies this
      ensures Value() == old(Value()).CancelQueued(id)
      ensures found <==> id in old(queued)
    {
      var k := 0;
      while k < |queued| && queued[k] != id
        invariant k <= |queued|
        invariant forall j :: 0 <= j < k ==> queued[j] != id
      {
        k := k + 1;
      }
      found := k < |queued|;
      assert k == IndexOf(queued, id);
      if found {
        queued := RemoveAt(queued, k);
      }
    }
  }
}
