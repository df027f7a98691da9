/** The in-memory session store of paho/store/memory/store.go. */
module MemoryStore {
  import opened Basics
  import opened StoreLog

  class Store {
    var data: map<Id, Stored>
    var c: nat

    ghost function View(): Log
      reads this
    {
      Log(data, c)
    }

    ghost predicate Valid()
      reads this
    {
      WellFormed(View())
    }

    constructor ()
      ensures Valid() && View() == Empty
    {
      data, c := map[], 0;
    }

    /** The source panics when the packet cannot be encoded. */
    method Put(id: Id, packet: Result<seq<byte>>) returns (panics: bool)
      requires Valid()
      modifies this
      ensures Valid() && panics == packet.Err?
      ensures View() == if panics then old(View()) else StoreLog.Put(old(View()), id, packet.value)
    {
      if packet.Err? {
        return true;
      }
      data := data[id := Stored(c, packet.value)];
      c := c + 1;
      return false;
    }

    method Get(id: Id) returns (r: Option<seq<byte>>)
      ensures r == if id in View().data then Some(View().data[id].packet) else None
    {
      r := if id in data then Some(data[id].packet) else None;
    }

    /** Reports an identifier that is not stored. */
    method Delete(id: Id) returns (found: bool)
      requires Valid()
      modifies this
      ensures Valid() && View() == StoreLog.Delete(old(View()), id)
      ensures found == (id in old(View()).data)
    {
      if id !in data {
        assert data - {id} == data;
        return false;
      }
      data := data - {id};
      return true;
    }

    /** A corrupt packet can only be dropped. */
    method Quarantine(id: Id) returns (found: bool)
      requires Valid()
      modifies this
      ensures Valid() && View() == StoreLog.Delete(old(View()), id)
      ensures found == (id in old(View()).data)
    {
      found := Delete(id);
    }

    method Reset()
      requires Valid()
      modifies this
      ensures Valid() && View() == StoreLog.Reset(old(View()))
    {
      data := map[];
    }

    /** Insertion sort over the map by stamp, whatever order the map is iterated in. */
    method List() returns (ids: seq<Id>)
      requires Valid()
      ensures ids == Order(View())
    {
      hide Listing, WellFormed, Order;
      ids := [];
      var stamps: seq<nat> := [];
      var todo := data.Keys;
      NothingListed(data);
      while todo != {}
        invariant todo <= data.Keys
        invariant Listing(ids, data - todo) && Stamps(stamps, ids, data)
        decreases todo
      {
        var id :| id in todo;
        var stamp := data[id].stamp;
        var pos := 0;
        while pos < |stamps| && stamps[pos] <= stamp
          invariant 0 <= pos <= |stamps|
          invariant forall k | 0 <= k < pos :: stamps[k] <= stamp
        {
          pos := pos + 1;
        }
        InsertStep(View(), todo, ids, stamps, pos, id);
        ids := ids[..pos] + [id] + ids[pos..];
        stamps := stamps[..pos] + [stamp] + stamps[pos..];
        todo := todo - {id};
      }
      assert data - todo == data;
      ListingUnique(ids, Order(View()), data);
    }
  }

  /** The stamps of some identifiers. */
  ghost predicate Stamps(stamps: seq<nat>, ids: seq<Id>, data: map<Id, Stored>) {
    |stamps| == |ids| && forall k | 0 <= k < |ids| :: ids[k] in data && stamps[k] == data[ids[k]].stamp
  }

  lemma NothingListed(data: map<Id, Stored>)
    ensures Listing([], data - data.Keys)
  {}

  lemma Inserted<T>(s: seq<T>, pos: nat, x: T)
    requires pos <= |s|
    ensures var r := s[..pos] + [x] + s[pos..];
      && |r| == |s| + 1 && r[pos] == x
      && (forall i | 0 <= i < pos :: r[i] == s[i])
      && (forall i | pos < i < |r| :: r[i] == s[i - 1])
  {}

  /** One turn of the insertion sort. */
  lemma InsertStep(log: Log, todo: set<Id>, ids: seq<Id>, stamps: seq<nat>, pos: nat, id: Id)
    requires WellFormed(log) && id in todo && todo <= log.data.Keys
    requires Listing(ids, log.data - todo) && Stamps(stamps, ids, log.data) && pos <= |ids|
    requires forall k | 0 <= k < pos :: stamps[k] <= log.data[id].stamp
    requires pos < |ids| ==> log.data[id].stamp < stamps[pos]
    ensures Listing(ids[..pos] + [id] + ids[pos..], log.data - (todo - {id}))
    ensures Stamps(stamps[..pos] + [log.data[id].stamp] + stamps[pos..], ids[..pos] + [id] + ids[pos..], log.data)
  {
    var data: map<Id, Stored> := log.data;
    assert (data - todo)[id := data[id]] == data - (todo - {id});
    forall k | 0 <= k < |ids|
      ensures data[ids[k]].stamp < data[id].stamp <==> k < pos
      ensures data[ids[k]].stamp != data[id].stamp
    {
      assert ids[k] in data - todo;
      assert k > pos ==> data[ids[pos]].stamp < data[ids[k]].stamp;
    }
    InsertListing(ids, pos, id, data - todo, data);
    Inserted(ids, pos, id);
    Inserted(stamps, pos, data[id].stamp);
  }

  /** Inserting an identifier where its stamp belongs extends the listing by that identifier. */
  lemma InsertListing(ids: seq<Id>, pos: nat, id: Id, part: map<Id, Stored>, all: map<Id, Stored>)
    requires Listing(ids, part) && pos <= |ids| && id in all && id !in part
    requires forall k | 0 <= k < |ids| :: part[ids[k]].stamp != all[id].stamp
    requires forall k | 0 <= k < |ids| :: part[ids[k]].stamp < all[id].stamp <==> k < pos
    ensures Listing(ids[..pos] + [id] + ids[pos..], part[id := all[id]])
  {
    var r, more := ids[..pos] + [id] + ids[pos..], part[id := all[id]];
    assert |r| == |ids| + 1;
    forall x | x in more
      ensures x in r
    {
      InsertedMember(ids, pos, id, x);
    }
    forall i | 0 <= i < |r|
      ensures r[i] in more
    {
      InsertedAt(ids, pos, id, i);
    }
    forall i, j | 0 <= i < j < |r|
      ensures r[i] in more && r[j] in more && more[r[i]].stamp < more[r[j]].stamp
    {
      InsertedAt(ids, pos, id, i);
      InsertedAt(ids, pos, id, j);
      InsertedOrder(ids, pos, id, part, all, i, j);
    }
  }

  /** The identifier at each index after an insertion. */
  function Insertion(ids: seq<Id>, pos: nat, id: Id, i: nat): Id
    requires pos <= |ids| && i <= |ids|
  {
    if i < pos then ids[i] else if i == pos then id else ids[i - 1]
  }

  lemma InsertedAt(ids: seq<Id>, pos: nat, id: Id, i: nat)
    requires pos <= |ids| && i <= |ids|
    ensures (ids[..pos] + [id] + ids[pos..])[i] == Insertion(ids, pos, id, i)
  {}

  lemma InsertedOrder(ids: seq<Id>, pos: nat, id: Id, part: map<Id, Stored>, all: map<Id, Stored>, i: nat, j: nat)
    requires Listing(ids, part) && pos <= |ids| && id in all && id !in part
    requires forall k | 0 <= k < |ids| :: part[ids[k]].stamp != all[id].stamp
    requires forall k | 0 <= k < |ids| :: part[ids[k]].stamp < all[id].stamp <==> k < pos
    requires i < j <= |ids|
    ensures var more := part[id := all[id]];
      var a, b := Insertion(ids, pos, id, i), Insertion(ids, pos, id, j);
      a in more && b in more && more[a].stamp < more[b].stamp
  {
    if i == pos {
      assert ids[j - 1] in part && !(part[ids[j - 1]].stamp < all[id].stamp);
    } else if j == pos {
      assert ids[i] in part && part[ids[i]].stamp < all[id].stamp;
    } else {
      var a, b := if i < pos then i else i - 1, if j < pos then j else j - 1;
      assert ids[a] in part && ids[b] in part && part[ids[a]].stamp < part[ids[b]].stamp;
    }
  }

  lemma InsertedMember(ids: seq<Id>, pos: nat, id: Id, x: Id)
    requires pos <= |ids| && (x == id || x in ids)
    ensures x in ids[..pos] + [id] + ids[pos..]
  {
    if x in ids {
      assert ids == ids[..pos] + ids[pos..];
    }
  }
}
