/**
 The queue under the lease pool (common/faas_common/queue/fifoqueue.go): a linked list of elements
 and a record from IDs to elements.  A removal by ID looks the element up but then asks for the ID
 of the list element instead of the object's, which is "", so the record keeps what it should lose.
 */
module FifoQueues {
  import opened Sequences

  /** A list element: its place in memory and the object it carries, of which only the ID matters. */
  datatype Element = Element(place: nat, id: string)

  function IdsOf(items: seq<Element>): (ids: seq<string>)
    ensures |ids| == |items| && forall i :: 0 <= i < |items| ==> ids[i] == items[i].id
  {
    if items == [] then [] else [items[0].id] + IdsOf(items[1..])
  }

  /** list.Remove: nothing happens if the element is no longer in the list. */
  function Unlink(items: seq<Element>, e: Element): seq<Element> {
    if items == [] then [] else if items[0] == e then items[1..] else [items[0]] + Unlink(items[1..], e)
  }

  /** IDs are distinct and none is empty, and the record finds every queued element. */
  ghost predicate Synced(items: seq<Element>, record: map<string, Element>, places: nat) {
    && Distinct(IdsOf(items)) && "" !in IdsOf(items)
    && (forall e :: e in items ==> e.id in record && record[e.id] == e)
    && (forall id :: id in record ==> record[id].id == id && record[id].place < places)
  }

  lemma IdIsUnique(items: seq<Element>, x: Element, y: Element)
    requires Distinct(IdsOf(items)) && x in items && y in items
    ensures x.id == y.id ==> x == y
  {
    var i :| 0 <= i < |items| && items[i] == x;
    var j :| 0 <= j < |items| && items[j] == y;
    assert IdsOf(items)[i] == x.id && IdsOf(items)[j] == y.id;
  }

  lemma {:induction false} UnlinkById(items: seq<Element>, e: Element)
    requires Distinct(IdsOf(items)) && (e.id in IdsOf(items) ==> e in items)
    ensures IdsOf(Unlink(items, e)) == Without(IdsOf(items), {e.id})
    ensures forall x :: x in Unlink(items, e) ==> x in items
  {
    if items != [] {
      var rest := items[1..];
      assert IdsOf(items) == [items[0].id] + IdsOf(rest);
      assert items[0].id !in IdsOf(rest);
      if items[0] == e {
        WithoutNothing(IdsOf(rest), {e.id});
      } else {
        if e in items {
          IdIsUnique(items, items[0], e);
        }
        UnlinkById(rest, e);
        assert IdsOf([items[0]] + Unlink(rest, e)) == [items[0].id] + IdsOf(Unlink(rest, e));
      }
    }
  }

  lemma PushNew(items: seq<Element>, record: map<string, Element>, places: nat, id: string)
    requires Synced(items, record, places) && id != "" && id !in IdsOf(items)
    ensures Synced(items + [Element(places, id)], record[id := Element(places, id)], places + 1)
  {
    hide Distinct;
    var e := Element(places, id);
    assert IdsOf(items + [e]) == IdsOf(items) + [id];
    DistinctSnoc(IdsOf(items), id);
    forall x | x in items ensures x.id != id {
      assert x.id in IdsOf(items);
    }
  }

  lemma PushSynced(items: seq<Element>, record: map<string, Element>, places: nat, id: string)
    requires Synced(items, record, places)
    ensures Synced(items + [Element(places, id)], record[id := Element(places, id)], places + 1)
            <==> id != "" && id !in IdsOf(items)
  {
    if id != "" && id !in IdsOf(items) {
      PushNew(items, record, places, id);
    } else {
      hide Distinct;
      assert IdsOf(items + [Element(places, id)]) == IdsOf(items) + [id];
      DistinctSnoc(IdsOf(items), id);
    }
  }

  lemma PopSynced(items: seq<Element>, record: map<string, Element>, places: nat)
    requires Synced(items, record, places) && items != []
    ensures Synced(items[1..], record - {items[0].id}, places)
  {
    assert IdsOf(items) == [items[0].id] + IdsOf(items[1..]);
    assert items[0].id !in IdsOf(items[1..]);
    assert forall x :: x in items[1..] ==> x in items && x.id in IdsOf(items[1..]);
  }

  lemma DelSynced(items: seq<Element>, record: map<string, Element>, places: nat, id: string)
    requires Synced(items, record, places) && id in record
    ensures Synced(Unlink(items, record[id]), record - {""}, places)
    ensures IdsOf(Unlink(items, record[id])) == Without(IdsOf(items), {id})
  {
    assert forall x :: x in items ==> x.id in IdsOf(items);
    assert id in IdsOf(items) ==> record[id] in items;
    UnlinkById(items, record[id]);
    WithoutMembers(IdsOf(items), {id});
  }

  class FifoQueue {
    var items: seq<Element>
    var elementRecord: map<string, Element>
    var places: nat

    ghost predicate Valid()
      reads this
    {
      Synced(items, elementRecord, places)
    }

    constructor ()
      ensures Valid() && items == [] && elementRecord == map[]
    {
      items, elementRecord, places := [], map[], 0;
    }

    /** PushBack keeps the record in step exactly if the ID is new and not empty. */
    method PushBack(id: string)
      requires Valid()
      modifies this
      ensures IdsOf(items) == old(IdsOf(items)) + [id] && id in elementRecord
      ensures Valid() <==> id != "" && id !in old(IdsOf(items))
    {
      PushSynced(items, elementRecord, places, id);
      var e := Element(places, id);
      assert IdsOf(items + [e]) == IdsOf(items) + [id];
      items, elementRecord, places := items + [e], elementRecord[id := e], places + 1;
    }

    method PopFront() returns (id: Option<string>)
      requires Valid()
      modifies this
      ensures Valid()
      ensures old(items) == [] ==> id == None && items == []
      ensures old(items) != [] ==> id == Some(old(IdsOf(items))[0]) && IdsOf(items) == old(IdsOf(items))[1..]
    {
      if items == [] {
        return None;
      }
      PopSynced(items, elementRecord, places);
      id := Some(items[0].id);
      elementRecord := elementRecord - {items[0].id};
      assert IdsOf(items) == [items[0].id] + IdsOf(items[1..]);
      items := items[1..];
    }

    /** GetByID answers from the record: with the queued element of that ID, or with one that is queued no longer. */
    method GetById(id: string) returns (found: Option<Element>)
      requires Valid()
      ensures found.Some? ==> found.value.id == id && (found.value in items <==> id in IdsOf(items))
      ensures id in IdsOf(items) ==> found.Some?
      ensures id !in elementRecord ==> found.None?
    {
      assert forall i :: 0 <= i < |items| ==> IdsOf(items)[i] == items[i].id && items[i] in items;
      if id !in elementRecord {
        return None;
      }
      return Some(elementRecord[id]);
    }

    /** DelByID removes exactly the ID from the queue, but the record goes on naming it. */
    method DelById(id: string) returns (ok: bool)
      requires Valid()
      modifies this
      ensures Valid() && IdsOf(items) == Without(old(IdsOf(items)), {id})
      ensures ok == (id in old(elementRecord)) && elementRecord == old(elementRecord) - if ok then {""} else {}
      ensures id in old(IdsOf(items)) ==> id !in IdsOf(items) && id in elementRecord
    {
      assert forall x :: x in items ==> x.id in IdsOf(items);
      WithoutMembers(IdsOf(items), {id});
      if id !in elementRecord {
        assert id !in IdsOf(items);
        WithoutNothing(IdsOf(items), {id});
        return false;
      }
      DelSynced(items, elementRecord, places, id);
      items := Unlink(items, elementRecord[id]);
      elementRecord := elementRecord - {""};
      return true;
    }
  }
}
