/**
 * The relay loop `proxy` of core/management/commands/zmqbroker.py, between the XSUB
 * frontend (`socket_from`, where publishers connect) and the XPUB backend (`socket_to`,
 * where subscribers connect). Each socket is a pair of FIFO queues of multipart
 * messages: what waits to be received from it, and what has been sent through it.
 */
module Broker {
  import opened Wrappers
  import Utf8

  /** One part of a multipart message, and a whole multipart message. */
  type Frame = Utf8.Bytes
  type Message = seq<Frame>

  datatype Socket = Socket(inbox: seq<Message>, outbox: seq<Message>)

  datatype State = State(front: Socket, back: Socket)

  datatype Side = Front | Back

  /** The sockets the poller reports readable: those with a message waiting. */
  function Readable(s: State): set<Side> {
    (if |s.front.inbox| > 0 then {Front} else {}) + (if |s.back.inbox| > 0 then {Back} else {})
  }

  /**
   * One iteration of `while True`: the poll waits without a timeout, so with nothing
   * readable the loop blocks and no step happens (None). Otherwise one whole message is
   * received from one socket and sent on the other, the frontend first when both are
   * readable (the `elif`).
   */
  function Step(s: State): (r: Option<State>)
    ensures r.None? <==> Readable(s) == {}
    ensures Front in Readable(s) ==>
              && r.Some?
              && r.value.back.inbox == s.back.inbox
              && r.value.front.outbox == s.front.outbox
              && r.value.front.inbox == s.front.inbox[1..]
              && r.value.back.outbox == s.back.outbox + [s.front.inbox[0]]
    ensures Readable(s) == {Back} ==>
              && r.Some?
              && r.value.front.inbox == s.front.inbox
              && r.value.back.outbox == s.back.outbox
              && r.value.back.inbox == s.back.inbox[1..]
              && r.value.front.outbox == s.front.outbox + [s.back.inbox[0]]
  {
    if Front in Readable(s) then
      var msg := s.front.inbox[0];
      Some(State(Socket(s.front.inbox[1..], s.front.outbox), Socket(s.back.inbox, s.back.outbox + [msg])))
    else if Back in Readable(s) then
      var msg := s.back.inbox[0];
      Some(State(Socket(s.front.inbox, s.front.outbox + [msg]), Socket(s.back.inbox[1..], s.back.outbox)))
    else None
  }

  /** Publisher traffic: delivered to subscribers, then still waiting at the frontend. */
  function Downstream(s: State): seq<Message> {
    s.back.outbox + s.front.inbox
  }

  /** Subscription traffic: delivered to publishers, then still waiting at the backend. */
  function Upstream(s: State): seq<Message> {
    s.front.outbox + s.back.inbox
  }

  /** All messages still waiting to be relayed. */
  function Pending(s: State): nat {
    |s.front.inbox| + |s.back.inbox|
  }

  /**
   * A step neither drops, duplicates, reorders nor alters a message: in each direction
   * the delivered messages followed by the waiting ones stay the same sequence, and
   * exactly one message leaves the queues.
   */
  lemma StepConserves(s: State)
    requires Step(s).Some?
    ensures Downstream(Step(s).value) == Downstream(s)
    ensures Upstream(Step(s).value) == Upstream(s)
    ensures Pending(Step(s).value) == Pending(s) - 1
  {
    var t := Step(s).value;
    if Front in Readable(s) {
      assert s.front.inbox == [s.front.inbox[0]] + s.front.inbox[1..];
      assert Downstream(t) == s.back.outbox + [s.front.inbox[0]] + s.front.inbox[1..];
    } else {
      assert s.back.inbox == [s.back.inbox[0]] + s.back.inbox[1..];
      assert Upstream(t) == s.front.outbox + [s.back.inbox[0]] + s.back.inbox[1..];
    }
  }

  /** The state after `k` iterations, or where the loop blocks in `poll` before that. */
  function Iterate(s: State, k: nat): State
    decreases k
  {
    if k == 0 then s
    else match Step(s)
      case None => s
      case Some(t) => Iterate(t, k - 1)
  }

  /**
   * The frontend has priority: while publisher messages wait, the backend's messages
   * stay queued, and the first `k` iterations relay the first `k` publisher messages.
   */
  lemma {:induction false} FrontendFirst(s: State, k: nat)
    requires k <= |s.front.inbox|
    ensures var t := Iterate(s, k);
            && t.back.inbox == s.back.inbox
            && t.front.outbox == s.front.outbox
            && t.front.inbox == s.front.inbox[k..]
            && t.back.outbox == s.back.outbox + s.front.inbox[..k]
    decreases k
  {
    if k > 0 {
      var t := Step(s).value;
      FrontendFirst(t, k - 1);
      assert t.front.inbox[k - 1..] == s.front.inbox[k..];
      assert [s.front.inbox[0]] + t.front.inbox[..k - 1] == s.front.inbox[..k];
    }
  }

  /**
   * The relay run until nothing is readable, where `poll` then waits forever: every
   * waiting message has been delivered to the other side, in arrival order.
   */
  method Relay(s: State) returns (t: State, steps: nat)
    ensures Readable(t) == {} && Step(t).None?
    ensures t == Iterate(s, steps)
    ensures steps == Pending(s)
    ensures t.back.outbox == s.back.outbox + s.front.inbox
    ensures t.front.outbox == s.front.outbox + s.back.inbox
  {
    t := s;
    steps := 0;
    while Step(t).Some?
      invariant Downstream(t) == Downstream(s) && Upstream(t) == Upstream(s)
      invariant steps + Pending(t) == Pending(s)
      invariant Iterate(s, steps) == t
      decreases Pending(t)
    {
      StepConserves(t);
      IterateStep(s, steps, t);
      t := Step(t).value;
      steps := steps + 1;
    }
    assert t.front.inbox == [] && t.back.inbox == [];
  }

  /** One more iteration after reaching `t` is one step from `t`. */
  lemma {:induction false} IterateStep(s: State, k: nat, t: State)
    requires Iterate(s, k) == t && Step(t).Some?
    ensures Iterate(s, k + 1) == Step(t).value
    decreases k
  {
    if k > 0 {
      var u := Step(s).value;
      IterateStep(u, k - 1, t);
    }
  }
}
