/** The message buffer through which the light publishes its phase.
    Values are appended at the back and removed from the back, so the
    buffer hands out the most recently sent value first (LIFO). */
module Messages {
  import opened Phases

  /** The buffer contents after sending `m`: one longer, `m` at the back,
      everything earlier untouched. */
  function Sent(q: seq<Phase>, m: Phase): (r: seq<Phase>)
    ensures |r| == |q| + 1
    ensures r[|q|] == m
    ensures r[..|q|] == q
  {
    q + [m]
  }

  /** The value a receive hands out and the buffer it leaves behind. Receiving
      undoes a send: sending the value back onto the remainder rebuilds `q`. */
  function Received(q: seq<Phase>): (r: (Phase, seq<Phase>))
    requires q != []
    ensures Sent(r.1, r.0) == q
    ensures |r.1| == |q| - 1
  {
    (q[|q| - 1], q[..|q| - 1])
  }

  /** The buffer after sending every value of `vs`, first to last. */
  function SentAll(q: seq<Phase>, vs: seq<Phase>): (r: seq<Phase>)
    ensures r == q + vs
    decreases vs
  {
    if vs == [] then q
    else
      assert q + vs == (q + [vs[0]]) + vs[1..];
      SentAll(Sent(q, vs[0]), vs[1..])
  }

  /** A send followed by a receive returns the sent value and restores the buffer. */
  lemma SendReceiveRoundTrip(q: seq<Phase>, m: Phase)
    ensures Received(Sent(q, m)) == (m, q)
  {
  }

  /** After any run of sends `v1 … vn` onto any buffer, the next receive hands
      out `vn` and leaves the buffer as if `vn` had never been sent. */
  lemma {:induction false} LastSentIsReceivedFirst(q: seq<Phase>, vs: seq<Phase>)
    requires vs != []
    ensures Received(SentAll(q, vs)) == (vs[|vs| - 1], SentAll(q, vs[..|vs| - 1]))
  {
    var n := |vs| - 1;
    assert vs == vs[..n] + [vs[n]];
    calc {
      SentAll(q, vs);
      q + vs;
      (q + vs[..n]) + [vs[n]];
      Sent(SentAll(q, vs[..n]), vs[n]);
    }
    SendReceiveRoundTrip(SentAll(q, vs[..n]), vs[n]);
  }

  /** The buffer shared between the phase producer and its consumers. */
  class MessageQueue {
    /** The pending phases, oldest first. */
    var queue: seq<Phase>

    constructor ()
      ensures queue == []
    {
      queue := [];
    }

    /** Appends `m` at the back of the buffer. */
    method Send(m: Phase)
      modifies this
      ensures queue == Sent(old(queue), m)
    {
      queue := queue + [m];
    }

    /** Removes and returns the back element. The source blocks until the
        buffer is non-empty; here that wait is the precondition. */
    method Receive() returns (m: Phase)
      requires queue != []
      modifies this
      ensures (m, queue) == Received(old(queue))
    {
      m := queue[|queue| - 1];
      queue := queue[..|queue| - 1];
    }
  }

  /** Sending `m` and receiving at once yields `m` and leaves `mq` as it was. */
  method SendThenReceive(mq: MessageQueue, m: Phase) returns (got: Phase)
    modifies mq
    ensures got == m
    ensures mq.queue == old(mq.queue)
  {
    mq.Send(m);
    got := mq.Receive();
    SendReceiveRoundTrip(old(mq.queue), m);
  }
}
