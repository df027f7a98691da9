/** What a session store promises (paho/session/state/store.go): packets by identifier, listed in
    the order of their latest Put. */
module StoreLog {
  import opened Basics

  type Id = uint16

  datatype Stored = Stored(stamp: nat, packet: seq<byte>)

  /** The stored packets, each stamped with the number of Puts before its own. */
  datatype Log = Log(data: map<Id, Stored>, next: nat)

  const Empty := Log(map[], 0)

  ghost predicate WellFormed(s: Log) {
    && (forall id | id in s.data :: s.data[id].stamp < s.next)
    && (forall a, b | a in s.data && b in s.data && a != b :: s.data[a].stamp != s.data[b].stamp)
  }

  function Put(s: Log, id: Id, packet: seq<byte>): Log {
    Log(s.data[id := Stored(s.next, packet)], s.next + 1)
  }

  function Delete(s: Log, id: Id): Log {
    s.(data := s.data - {id})
  }

  function Reset(s: Log): Log {
    s.(data := map[])
  }

  lemma PutSize(s: Log, id: Id, packet: seq<byte>)
    ensures |Put(s, id, packet).data| == |s.data| + (if id in s.data then 0 else 1)
  {
    assert Put(s, id, packet).data.Keys == s.data.Keys + {id};
  }

  lemma DeleteSize(s: Log, id: Id)
    requires id in s.data
    ensures |Delete(s, id).data| == |s.data| - 1
  {
    assert s.data.Keys == Delete(s, id).data.Keys + {id};
  }

  /** The listing of a store: all its identifiers, by increasing stamp. */
  ghost predicate Listing(ids: seq<Id>, data: map<Id, Stored>) {
    && (forall i | 0 <= i < |ids| :: ids[i] in data)
    && (forall i, j | 0 <= i < j < |ids| :: data[ids[i]].stamp < data[ids[j]].stamp)
    && (forall id | id in data :: id in ids)
  }

  /** A store has only one listing. */
  lemma {:induction false} ListingUnique(a: seq<Id>, b: seq<Id>, data: map<Id, Stored>)
    requires Listing(a, data) && Listing(b, data)
    ensures a == b
  {
    hide Listing;
    assert |a| == |data.Keys| == |b| by {
      ListingSize(a, data);
      ListingSize(b, data);
    }
    var k := 0;
    while k < |a|
      invariant k <= |a|
      invariant a[..k] == b[..k]
    {
      SameEntry(a, b, data, k);
      assert a[..k + 1] == a[..k] + [a[k]] && b[..k + 1] == b[..k] + [b[k]];
      k := k + 1;
    }
  }

  lemma SamePosition(a: seq<Id>, b: seq<Id>, data: map<Id, Stored>, k: nat)
    requires Listing(a, data) && Listing(b, data) && k < |a| == |b| && a[..k] == b[..k]
    ensures data[a[k]].stamp <= data[b[k]].stamp
  {
    assert b[k] in a;
    var m :| 0 <= m < |a| && a[m] == b[k];
    assert forall i | 0 <= i < k :: a[i] == a[..k][i] == b[..k][i] == b[i];
    assert k <= m;
  }

  lemma SameEntry(a: seq<Id>, b: seq<Id>, data: map<Id, Stored>, k: nat)
    requires Listing(a, data) && Listing(b, data) && k < |a| == |b| && a[..k] == b[..k]
    ensures a[k] == b[k]
  {
    SamePosition(a, b, data, k);
    SamePosition(b, a, data, k);
    var m :| 0 <= m < |a| && a[m] == b[k];
    assert m == k;
  }

  lemma {:induction false} ListingSize(ids: seq<Id>, data: map<Id, Stored>)
    requires Listing(ids, data)
    ensures |ids| == |data.Keys|
    decreases |ids|
  {
    if ids == [] {
      assert data.Keys == {};
    } else {
      var last := |ids| - 1;
      var rest := data - {ids[last]};
      forall id | id in rest
        ensures id in ids[..last]
      {
        assert id in ids;
      }
      ListingSize(ids[..last], rest);
      assert data.Keys == rest.Keys + {ids[last]};
    }
  }

  /** Every well-formed store has a listing: take the newest identifier last. */
  ghost function Order(s: Log): (ids: seq<Id>)
    requires WellFormed(s)
    ensures Listing(ids, s.data)
    decreases |s.data|
  {
    if s.data == map[] then []
    else
      var newest := Newest(s);
      assert s.data.Keys == (s.data - {newest}).Keys + {newest};
      Order(Delete(s, newest)) + [newest]
  }

  ghost predicate IsNewest(data: map<Id, Stored>, id: Id) {
    id in data && forall x | x in data :: data[x].stamp <= data[id].stamp
  }

  ghost function Newest(s: Log): (id: Id)
    requires WellFormed(s) && s.data != map[]
    ensures IsNewest(s.data, id)
  {
    NewestExists(s.data);
    var id :| IsNewest(s.data, id);
    id
  }

  lemma {:induction false} FindNewest(data: map<Id, Stored>) returns (id: Id)
    requires data != map[]
    ensures IsNewest(data, id)
    decreases |data|
  {
    id :| id in data;
    var rest := data - {id};
    assert data.Keys == rest.Keys + {id};
    if rest != map[] {
      var other := FindNewest(rest);
      if data[id].stamp < data[other].stamp {
        id := other;
      }
    }
  }

  lemma NewestExists(data: map<Id, Stored>)
    requires data != map[]
    ensures exists id :: IsNewest(data, id)
  {
    var id := FindNewest(data);
  }

  // ---- Order refines an insertion-ordered sequence ----

  function Without(ids: seq<Id>, id: Id): seq<Id> {
    if ids == [] then []
    else (if ids[0] == id then [] else [ids[0]]) + Without(ids[1..], id)
  }

  lemma TailListing(ids: seq<Id>, data: map<Id, Stored>)
    requires Listing(ids, data) && ids != []
    ensures Listing(ids[1..], data - {ids[0]})
    ensures forall x | x in data - {ids[0]} :: data[ids[0]].stamp < data[x].stamp
  {
    forall x | x in data - {ids[0]}
      ensures x in ids[1..] && data[ids[0]].stamp < data[x].stamp
    {
      assert x in ids;
    }
  }

  lemma ConsListing(first: Id, ids: seq<Id>, data: map<Id, Stored>)
    requires Listing(ids, data - {first}) && first in data
    requires forall x | x in data - {first} :: data[first].stamp < data[x].stamp
    ensures Listing([first] + ids, data)
  {
    forall x | x in data
      ensures x in [first] + ids
    {
      assert x == first || x in data - {first};
    }
    assert forall i | 0 <= i < |ids| :: ids[i] in data - {first};
  }

  lemma {:induction false} WithoutListing(ids: seq<Id>, id: Id, data: map<Id, Stored>)
    requires Listing(ids, data)
    ensures Listing(Without(ids, id), data - {id})
    decreases |ids|
  {
    if ids != [] {
      var tail := data - {ids[0]};
      TailListing(ids, data);
      WithoutListing(ids[1..], id, tail);
      if ids[0] == id {
        assert tail - {id} == data - {id};
        assert [] + Without(ids[1..], id) == Without(ids[1..], id);
      } else {
        assert tail - {id} == (data - {id}) - {ids[0]};
        ConsListing(ids[0], Without(ids[1..], id), data - {id});
      }
    }
  }

  /** Deleting takes an identifier out of the listing and keeps the rest in place. */
  lemma DeleteOrder(s: Log, id: Id)
    requires WellFormed(s)
    ensures WellFormed(Delete(s, id)) && Order(Delete(s, id)) == Without(Order(s), id)
  {
    WithoutListing(Order(s), id, s.data);
    ListingUnique(Order(Delete(s, id)), Without(Order(s), id), s.data - {id});
  }

  /** Putting moves an identifier to the end of the listing and keeps the rest in place. */
  lemma PutOrder(s: Log, id: Id, packet: seq<byte>)
    requires WellFormed(s)
    ensures WellFormed(Put(s, id, packet)) && Order(Put(s, id, packet)) == Without(Order(s), id) + [id]
  {
    hide Order;
    var t := Put(s, id, packet);
    var w := Without(Order(s), id);
    WithoutListing(Order(s), id, s.data);
    AppendListing(w, id, s, packet);
    ListingUnique(Order(t), w + [id], t.data);
  }

  lemma AppendListing(w: seq<Id>, id: Id, s: Log, packet: seq<byte>)
    requires WellFormed(s) && Listing(w, s.data - {id})
    ensures Listing(w + [id], Put(s, id, packet).data)
  {
    var t := Put(s, id, packet);
    assert forall i | 0 <= i < |w| :: w[i] in s.data - {id};
    forall x | x in t.data
      ensures x in w + [id]
    {
      assert x == id || x in s.data - {id};
    }
  }
}
