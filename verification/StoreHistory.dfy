/** A store after any history of operations: its listing is by the latest Put. */
module StoreHistory {
  import opened Basics
  import opened StoreLog

  datatype Op = PutOp(id: Id, packet: seq<byte>) | DeleteOp(id: Id) | ResetOp

  function Apply(s: Log, op: Op): Log {
    match op
    case PutOp(id, packet) => Put(s, id, packet)
    case DeleteOp(id) => Delete(s, id)
    case ResetOp => Reset(s)
  }

  function Run(ops: seq<Op>): Log {
    if ops == [] then Empty else Apply(Run(ops[..|ops| - 1]), ops[|ops| - 1])
  }

  /** The position of the Put that makes id live after the history, if any. */
  function LivePut(ops: seq<Op>, id: Id): (r: Option<nat>)
    ensures r.Some? ==> r.value < |ops| && ops[r.value].PutOp? && ops[r.value].id == id
  {
    if ops == [] then None
    else
      var last := |ops| - 1;
      match ops[last]
      case PutOp(i, _) => if i == id then Some(last) else LivePut(ops[..last], id)
      case DeleteOp(i) => if i == id then None else LivePut(ops[..last], id)
      case ResetOp => None
  }

  function Puts(ops: seq<Op>): (n: nat)
    ensures n <= |ops|
  {
    if ops == [] then 0
    else Puts(ops[..|ops| - 1]) + (if ops[|ops| - 1].PutOp? then 1 else 0)
  }

  ghost predicate MatchesHistory(s: Log, ops: seq<Op>) {
    && s.next == Puts(ops)
    && (forall id: Id :: id in s.data <==> LivePut(ops, id).Some?)
    && (forall id | id in s.data ::
          && LivePut(ops, id).Some?
          && s.data[id].packet == ops[LivePut(ops, id).value].packet
          && s.data[id].stamp == Puts(ops[..LivePut(ops, id).value]))
  }

  lemma {:induction false} RunMatchesHistory(ops: seq<Op>)
    ensures MatchesHistory(Run(ops), ops)
    decreases |ops|
  {
    if ops != [] {
      var last := |ops| - 1;
      RunMatchesHistory(ops[..last]);
      forall id: Id | LivePut(ops[..last], id).Some?
        ensures ops[..last][..LivePut(ops[..last], id).value] == ops[..LivePut(ops[..last], id).value]
      {
      }
    }
  }

  lemma {:induction false} PutsGrow(ops: seq<Op>, i: nat, j: nat)
    requires i < j <= |ops| && ops[i].PutOp?
    ensures Puts(ops[..i]) < Puts(ops[..j])
    decreases j
  {
    assert ops[..j][..j - 1] == ops[..j - 1];
    if i < j - 1 {
      PutsGrow(ops, i, j - 1);
    }
  }

  lemma StampsByPut(ops: seq<Op>, a: Id, b: Id)
    requires LivePut(ops, a).Some? && LivePut(ops, b).Some? && a != b
    ensures a in Run(ops).data && b in Run(ops).data
    ensures Run(ops).data[a].stamp < Run(ops).data[b].stamp <==> LivePut(ops, a).value < LivePut(ops, b).value
    ensures Run(ops).data[a].stamp != Run(ops).data[b].stamp
  {
    RunMatchesHistory(ops);
    var i, j := LivePut(ops, a).value, LivePut(ops, b).value;
    if i < j {
      PutsGrow(ops, i, j);
    } else {
      PutsGrow(ops, j, i);
    }
  }

  lemma RunWellFormed(ops: seq<Op>)
    ensures WellFormed(Run(ops))
  {
    RunMatchesHistory(ops);
    var s := Run(ops);
    forall a | a in s.data
      ensures s.data[a].stamp < s.next
    {
      PutsGrow(ops, LivePut(ops, a).value, |ops|);
      assert ops[..|ops|] == ops;
    }
    forall a, b | a in s.data && b in s.data && a != b
      ensures s.data[a].stamp != s.data[b].stamp
    {
      StampsByPut(ops, a, b);
    }
  }

  /** After any history of Put, Delete and Reset, the store lists exactly the identifiers that are live, in the
      order of the Puts that made them live, and each has the packet of that Put. */
  lemma ListIsLatestPuts(ops: seq<Op>)
    ensures WellFormed(Run(ops))
    ensures var ids := Order(Run(ops));
      && (forall id: Id :: id in ids <==> LivePut(ops, id).Some?)
      && (forall i | 0 <= i < |ids| ::
            LivePut(ops, ids[i]).Some? && Run(ops).data[ids[i]].packet == ops[LivePut(ops, ids[i]).value].packet)
      && (forall i, j | 0 <= i < j < |ids| :: LivePut(ops, ids[i]).value < LivePut(ops, ids[j]).value)
  {
    hide Order;
    RunWellFormed(ops);
    RunMatchesHistory(ops);
    var ids := Order(Run(ops));
    forall i, j | 0 <= i < j < |ids|
      ensures LivePut(ops, ids[i]).value < LivePut(ops, ids[j]).value
    {
      StampsByPut(ops, ids[i], ids[j]);
    }
  }
}
