/** The in-memory publish queue of autopaho/queue/memory/queue.go. A channel is a number; making one
    takes the next number, and closing one twice is a panic in the source. */
module PublishQueue {
  import opened Basics

  type Channel = nat

  class Queue {
    var messages: seq<seq<byte>>
    /** Closed when something arrives. */
    var waiting: seq<Channel>
    /** Closed when the queue is empty. */
    var waitingForEmpty: seq<Channel>
    ghost var closed: set<Channel>
    var made: nat

    /** Nobody waits for what is already the case, and no channel that somebody waits on is closed. */
    ghost predicate Valid()
      reads this
    {
      && (messages != [] ==> waiting == [])
      && (messages == [] ==> waitingForEmpty == [])
      && Open(waiting, closed, made)
      && Open(waitingForEmpty, closed, made)
      && (forall c | c in closed :: c < made)
      && (forall c | c in waiting :: c !in waitingForEmpty)
    }

    constructor ()
      ensures Valid() && messages == [] && closed == {} && made == 0
    {
      messages, waiting, waitingForEmpty, closed, made := [], [], [], {}, 0;
    }

    /** The channel is closed at once when there is something in the queue. */
    method Wait() returns (c: Channel)
      requires Valid()
      modifies this
      ensures Valid() && messages == old(messages) && c == old(made) && made == old(made) + 1
      ensures c in closed <==> messages != []
      ensures c !in closed ==> c in waiting
      ensures closed - {c} == old(closed)
    {
      c := made;
      made := made + 1;
      if |messages| > 0 {
        closed := closed + {c};
        return;
      }
      waiting := waiting + [c];
    }

    method WaitForEmpty() returns (c: Channel)
      requires Valid()
      modifies this
      ensures Valid() && messages == old(messages) && c == old(made) && made == old(made) + 1
      ensures c in closed <==> messages == []
      ensures c !in closed ==> c in waitingForEmpty
      ensures closed - {c} == old(closed)
    {
      c := made;
      made := made + 1;
      if |messages| == 0 {
        closed := closed + {c};
        return;
      }
      waitingForEmpty := waitingForEmpty + [c];
    }

    /** Everybody waiting for a message is told. */
    method Enqueue(b: seq<byte>)
      requires Valid()
      modifies this
      ensures Valid() && messages == old(messages) + [b] && made == old(made)
      ensures closed == old(closed) + (set c | c in old(waiting)) && waiting == []
      ensures waitingForEmpty == old(waitingForEmpty)
    {
      messages := messages + [b];
      CloseAll(waiting);
      waiting := [];
    }

    method CloseAll(cs: seq<Channel>)
      requires Open(cs, closed, made)
      modifies `closed
      ensures closed == old(closed) + (set c | c in cs)
    {
      var i := 0;
      while i < |cs|
        invariant 0 <= i <= |cs|
        invariant closed == old(closed) + (set c | c in cs[..i])
      {
        assert cs[i] !in closed;
        closed := closed + {cs[i]};
        assert cs[..i + 1] == cs[..i] + [cs[i]];
        i := i + 1;
      }
      assert cs[..i] == cs;
    }

    /** Peek and then Reader: the oldest message, which stays in the queue. */
    method Peek() returns (r: Option<seq<byte>>)
      ensures r == if messages == [] then None else Some(messages[0])
    {
      return if |messages| == 0 then None else Some(messages[0]);
    }

    /** Remove and Quarantine: the oldest message goes, and everybody waiting for the queue to be empty
        is told when it was the last. Reports an empty queue. */
    method Remove() returns (ok: bool)
      requires Valid()
      modifies this
      ensures Valid() && made == old(made) && ok == (old(messages) != [])
      ensures messages == if old(messages) == [] then [] else old(messages)[1..]
      ensures waiting == old(waiting)
      ensures messages == [] ==> closed == old(closed) + (set c | c in old(waitingForEmpty)) && waitingForEmpty == []
      ensures messages != [] ==> closed == old(closed) && waitingForEmpty == old(waitingForEmpty)
    {
      var initialLen := |messages|;
      if initialLen > 0 {
        messages := messages[1..];
      }
      if initialLen <= 1 {
        CloseAll(waitingForEmpty);
        waitingForEmpty := [];
        if initialLen == 0 {
          return false;
        }
      }
      return true;
    }
  }

  /** Different channels, made and not closed. */
  ghost predicate Open(cs: seq<Channel>, closed: set<Channel>, made: nat) {
    && (forall i | 0 <= i < |cs| :: cs[i] < made && cs[i] !in closed)
    && (forall i, j | 0 <= i < j < |cs| :: cs[i] != cs[j])
  }
}
