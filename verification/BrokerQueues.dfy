/** When a connection loses an event (internal/broker/broker.go). */
module BrokerQueues {
  import opened Broker
  import opened EventStream

  /** What happens to an open connection: an event is published, or the server takes the oldest waiting one to write it. */
  datatype Move = Published(event: Event) | Taken

  function Moved(q: Queue, m: Move): Queue {
    match m
    case Published(e) => Offered(q, e)
    case Taken => if q.queue == [] then q else q.(queue := q.queue[1..], taken := q.taken + [q.queue[0]])
  }

  function After(moves: seq<Move>): Queue
    decreases |moves|
  {
    if moves == [] then Queue([], [], false) else Moved(After(moves[..|moves| - 1]), moves[|moves| - 1])
  }

  /** What was published, and how many events would wait if every one were queued. */
  function PublishedIn(moves: seq<Move>): seq<Event>
    decreases |moves|
  {
    if moves == [] then []
    else
      var last := moves[|moves| - 1];
      PublishedIn(moves[..|moves| - 1]) + (if last.Published? then [last.event] else [])
  }

  function Waiting(moves: seq<Move>): nat
    decreases |moves|
  {
    if moves == [] then 0
    else
      var before := Waiting(moves[..|moves| - 1]);
      if moves[|moves| - 1].Published? then before + 1 else if before == 0 then 0 else before - 1
  }

  /** A connection loses an event exactly if more than 16 had to wait at some moment; otherwise it holds or has handed on
      everything that was published, in order. */
  lemma {:induction false} LosesExactlyBeyondSixteen(moves: seq<Move>)
    ensures var q := After(moves);
            && |q.queue| <= 16
            && (!q.dropped ==> |q.queue| == Waiting(moves) && q.taken + q.queue == PublishedIn(moves))
            && (q.dropped <==> exists k :: 0 <= k <= |moves| && Waiting(moves[..k]) > 16)
    decreases |moves|
  {
    if moves != [] {
      var init, last := moves[..|moves| - 1], moves[|moves| - 1];
      LosesExactlyBeyondSixteen(init);
      var before, q := After(init), After(moves);
      assert moves[..|moves|] == moves;
      forall k | 0 <= k <= |init|
        ensures moves[..k] == init[..k]
      {
      }
      if last.Published? {
        assert before.taken + (before.queue + [last.event]) == before.taken + before.queue + [last.event];
      } else if before.queue != [] {
        assert before.taken + [before.queue[0]] + before.queue[1..] == before.taken + before.queue;
      }
      if q.dropped && !before.dropped {
        assert Waiting(moves[..|moves|]) > 16;
      }
      if k :| 0 <= k <= |moves| && Waiting(moves[..k]) > 16 {
        if k <= |init| {
          assert Waiting(init[..k]) > 16;
        }
      }
    }
  }
}
