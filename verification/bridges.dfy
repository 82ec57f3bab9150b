/**
 * The four receive-loop bridges of core/views.py, each as its header, trailer and the
 * action it takes on one input of its receive call:
 *   - ZmqIpcStreamView.stream_events: a ZeroMQ message or a timeout (ping);
 *   - ChatEventView.event_stream: a Postgres notification (stop on "stop");
 *   - ValKeyIpcStreamView.event_stream: the bytes of a Glide pub/sub message;
 *   - valkey_stream's event_stream: a Valkey pub/sub poll, which may return nothing,
 *     and whose payload is decoded as UTF-8.
 */
module Bridges {
  import opened Wrappers
  import opened Sse
  import Utf8
  import Decimal

  // ---------------------------------------------------------------- ZeroMQ bridge

  /** One outcome of awaiting the ZeroMQ subscriber: a text message, or a TimeoutError. */
  datatype Received = Message(data: string) | TimedOut

  const ZmqConnected: seq<string> := ["event:connected\n", "data:\n\n"]
  const CurrentTime: seq<string> := ["event:current_time\n", "data:current_time\n\n"]
  const Ping: seq<string> := ["event:ping\n", "data:ping\n\n"]
  const ZmqDisconnected: seq<string> := ["event:disconnected\n", "data:\n\n"]

  /** The body of the `while should_subscribe` loop for one outcome. */
  function ZmqStep(x: Received): Action {
    match x
    case TimedOut => Emit(Ping)
    case Message(data) => if data == "break" then Stop else Emit(CurrentTime)
  }

  /** `stream_events` over the outcomes its subscriber produced so far. */
  function ZmqStream(input: seq<Received>): (s: Stream)
    ensures |s.chunks| >= 2 && s.chunks[..2] == ZmqConnected
    ensures s.ending != Failed
    ensures s.ending != Open ==> 0 < s.consumed <= |input|
    ensures s.ending == Stopped <==> exists k | 0 <= k < |input| :: input[k] == Message("break")
    ensures s.ending == Stopped ==>
              && input[s.consumed - 1] == Message("break")
              && forall k | 0 <= k < s.consumed - 1 :: input[k] != Message("break")
    ensures s.ending == Open ==> s.consumed == |input|
  {
    Serve(ZmqConnected, ZmqDisconnected, ZmqStep, input)
  }

  /**
   * The whole ZeroMQ stream: `connected`, then one `ping` per timeout and one
   * `current_time` per other message, in arrival order, and after "break" one
   * `disconnected` event as the last output.
   */
  lemma ZmqEvents(input: seq<Received>)
    ensures var s := ZmqStream(input);
            var n := if s.ending == Open then s.consumed else s.consumed - 1;
            && |s.chunks| == 2 + 2 * n + (if s.ending == Stopped then 2 else 0)
            && (forall k | 0 <= k < n ::
                  s.chunks[2 + 2 * k .. 2 + 2 * k + 2] == (if input[k].TimedOut? then Ping else CurrentTime))
            && (s.ending == Stopped ==> s.chunks[2 + 2 * n..] == ZmqDisconnected)
  {
    ServePairs(ZmqConnected, ZmqDisconnected, ZmqStep, input);
  }

  /** Exactly one `disconnected` event after "break", and none while the stream is open. */
  lemma ZmqDisconnectsOnce(input: seq<Received>)
    ensures var s := ZmqStream(input);
            multiset(s.chunks)["event:disconnected\n"] == (if s.ending == Stopped then 1 else 0)
  {
    ServeCount(ZmqConnected, ZmqDisconnected, ZmqStep, input, "event:disconnected\n");
  }

  /** The payload is ignored: only where the timeouts and the "break" are matters. */
  lemma ZmqPayloadIgnored(a: seq<Received>, b: seq<Received>)
    requires |a| == |b|
    requires forall k | 0 <= k < |a| ::
               && a[k].TimedOut? == b[k].TimedOut?
               && (a[k] == Message("break")) == (b[k] == Message("break"))
    ensures ZmqStream(a) == ZmqStream(b)
  {
    forall k | 0 <= k < |a| ensures ZmqStep(a[k]) == ZmqStep(b[k]) {
    }
    DriveSame(ZmqStep, a, ZmqStep, b);
  }

  /**
   * The ZeroMQ bridge as written: `ipc.subscribe` is an async generator function, so
   * `await ipc.subscribe()` raises TypeError in the first iteration, before any message
   * is read and whatever is published. The handler catches only TimeoutError, so the
   * error ends the stream right after `connected`.
   */
  function ZmqStreamAsWritten(input: seq<Received>): (s: Stream)
    ensures s.chunks == ZmqConnected && s.consumed == 0 && s.ending == Failed
  {
    Stream(ZmqConnected, 0, Failed)
  }

  /**
   * Whatever is published, the code as written reads nothing and never sends an event
   * after `connected`, where the bridge as intended reads the first message and, for an
   * ordinary one such as "hello", sends a `current_time` event.
   */
  lemma ZmqAsWrittenDropsMessages(input: seq<Received>)
    requires |input| > 0 && input[0].Message? && input[0].data != "break"
    ensures ZmqStreamAsWritten(input).consumed == 0
    ensures ZmqStreamAsWritten(input).chunks == ZmqConnected
    ensures ZmqStream(input).consumed > 0
    ensures ZmqStream(input).chunks[..4] == ZmqConnected + CurrentTime
  {
    var r := Drive(ZmqStep, input);
    assert r.chunks == CurrentTime + Drive(ZmqStep, input[1..]).chunks;
    assert (ZmqConnected + r.chunks)[..4] == ZmqConnected + CurrentTime;
  }

  /** The counterexample with one published message "hello". */
  lemma ZmqAsWrittenHello()
    ensures ZmqStreamAsWritten([Message("hello")]).chunks == ZmqConnected
    ensures ZmqStreamAsWritten([Message("hello")]).ending == Failed
    ensures ZmqStream([Message("hello")]).chunks == ZmqConnected + CurrentTime
    ensures ZmqStream([Message("hello")]).ending == Open
  {
    assert [Message("hello")][1..] == [];
  }

  // ---------------------------------------------------------------- chat bridge

  /** A Postgres notification on the `messages` channel, with `len(asyncio.all_tasks())` at that moment. */
  datatype Notification = Notification(payload: string, taskCount: nat)

  const ChatConnected: seq<string> := ["event:connected\n", "data:\n\n"]
  const ChatClose: seq<string> := ["event: close\n", "data:\n\n"]

  function ChatMessage(taskCount: nat): seq<string> {
    ["event:message\n", "data:" + Decimal.Show(taskCount) + "\n\n"]
  }

  /** The data line of a `message` event reads back as the task count it was written from. */
  lemma ChatDataLine(taskCount: nat)
    ensures var line := ChatMessage(taskCount)[1];
            && |line| >= 7 && line[0] == 'd' && line[..5] == "data:" && line[|line| - 2..] == "\n\n"
            && Decimal.Parse(line[5..|line| - 2]) == Some(taskCount)
  {
    var digits := Decimal.Show(taskCount);
    var line := ChatMessage(taskCount)[1];
    assert line == "data:" + digits + "\n\n";
    assert line[5..|line| - 2] == digits;
    Decimal.ParseShow(taskCount);
  }

  function ChatStep(n: Notification): Action {
    if n.payload == "stop" then Stop else Emit(ChatMessage(n.taskCount))
  }

  /** `ChatEventView.event_stream` over the notifications received so far. */
  function ChatStream(input: seq<Notification>): (s: Stream)
    ensures |s.chunks| >= 2 && s.chunks[..2] == ChatConnected
    ensures s.ending != Failed
    ensures s.ending != Open ==> 0 < s.consumed <= |input|
    ensures s.ending == Stopped <==> exists k | 0 <= k < |input| :: input[k].payload == "stop"
    ensures s.ending == Stopped ==>
              && input[s.consumed - 1].payload == "stop"
              && forall k | 0 <= k < s.consumed - 1 :: input[k].payload != "stop"
  {
    Serve(ChatConnected, ChatClose, ChatStep, input)
  }

  /**
   * One `message` event per notification before "stop", carrying the task count of
   * that moment (`ChatDataLine` reads it back), and a final `close` event after "stop".
   */
  lemma ChatEvents(input: seq<Notification>)
    ensures var s := ChatStream(input);
            var n := if s.ending == Open then s.consumed else s.consumed - 1;
            && |s.chunks| == 2 + 2 * n + (if s.ending == Stopped then 2 else 0)
            && (forall k | 0 <= k < n :: s.chunks[2 + 2 * k .. 2 + 2 * k + 2] == ChatMessage(input[k].taskCount))
            && (s.ending == Stopped ==> s.chunks[2 + 2 * n..] == ChatClose)
  {
    ServePairs(ChatConnected, ChatClose, ChatStep, input);
  }

  /** Exactly one `close` event after "stop", and none before. */
  lemma ChatClosesOnce(input: seq<Notification>)
    ensures var s := ChatStream(input);
            multiset(s.chunks)["event: close\n"] == (if s.ending == Stopped then 1 else 0)
  {
    forall k | 0 <= k < |input| && ChatStep(input[k]).Emit?
      ensures "event: close\n" !in ChatStep(input[k]).chunks
    {
      ChatDataLine(input[k].taskCount);
    }
    ServeCount(ChatConnected, ChatClose, ChatStep, input, "event: close\n");
  }

  // ---------------------------------------------------------------- Glide bridge

  const GlideConnected: seq<string> := ["event:connected\n", "data:\n\n"]
  const GlideDisconnected: seq<string> := ["event:disconnected\n", "data:\n\n"]

  const GlideBreak: Utf8.Bytes := Utf8.Encode("break")

  /** `data.message == b"break"` compares bytes, not text. */
  function GlideStep(message: Utf8.Bytes): Action {
    if message == GlideBreak then Stop else Emit(CurrentTime)
  }

  /** `ValKeyIpcStreamView.event_stream` over the pub/sub messages received so far. */
  function GlideStream(input: seq<Utf8.Bytes>): (s: Stream)
    ensures |s.chunks| >= 2 && s.chunks[..2] == GlideConnected
    ensures s.ending != Failed
    ensures s.ending == Stopped <==> exists k | 0 <= k < |input| :: input[k] == GlideBreak
    ensures s.ending == Open ==> s.consumed == |input|
    ensures s.ending == Stopped ==>
              && 0 < s.consumed <= |input|
              && input[s.consumed - 1] == GlideBreak
              && forall k | 0 <= k < s.consumed - 1 :: input[k] != GlideBreak
  {
    Serve(GlideConnected, GlideDisconnected, GlideStep, input)
  }

  /** The bytes of "break" are the only ones that decode to "break". */
  lemma BreakBytes(bs: Utf8.Bytes)
    ensures Utf8.Decode(bs) == Some("break") <==> bs == GlideBreak
  {
    Utf8.DecodeEncode("break");
    if Utf8.Decode(bs) == Some("break") {
      Utf8.EncodeDecode(bs);
    }
  }

  /**
   * On UTF-8 payloads the Glide bridge writes exactly the ZeroMQ bridge's stream for
   * the same messages without timeouts: the two views differ only in their transport.
   */
  lemma GlideIsZmq(input: seq<Utf8.Bytes>)
    requires forall k | 0 <= k < |input| :: Utf8.Decode(input[k]).Some?
    ensures GlideStream(input) == ZmqStream(seq(|input|, k requires 0 <= k < |input| => Message(Utf8.Decode(input[k]).value)))
  {
    var texts := seq(|input|, k requires 0 <= k < |input| => Message(Utf8.Decode(input[k]).value));
    forall k | 0 <= k < |input| ensures GlideStep(input[k]) == ZmqStep(texts[k]) {
      BreakBytes(input[k]);
    }
    DriveSame(GlideStep, input, ZmqStep, texts);
  }

  // ---------------------------------------------------------------- Valkey bridge

  /**
   * One `pubsub.get_message(...)`: None, or a message with its data bytes and the
   * ISO-8601 text `datetime.now().isoformat()` gives right after it arrives.
   */
  datatype Poll = NoMessage | Arrived(data: Utf8.Bytes, now: string)

  const ValkeyConnected: seq<string> := ["event: connected\n", "data:\n\n"]
  const ValkeyDisconnected: seq<string> := ["event:disconnected\n", "data:\n\n"]

  function ValkeyTime(now: string): seq<string> {
    ["event: current_time\n", "data: " + now + "\n\n"]
  }

  /** None is skipped; undecodable bytes raise UnicodeDecodeError; "break" leaves the loop. */
  function ValkeyStep(p: Poll): Action {
    match p
    case NoMessage => Skip
    case Arrived(data, now) =>
      match Utf8.Decode(data)
      case None => Fail
      case Some(text) => if text == "break" then Stop else Emit(ValkeyTime(now))
  }

  /** A poll after which the loop goes on: nothing arrived, or a UTF-8 payload other than "break". */
  predicate KeepsPolling(p: Poll) {
    p.NoMessage? || (Utf8.Decode(p.data).Some? && Utf8.Decode(p.data) != Some("break"))
  }

  /** `valkey_stream`'s event_stream over the polls made so far. */
  function ValkeyStream(input: seq<Poll>): (s: Stream)
    ensures |s.chunks| >= 2 && s.chunks[..2] == ValkeyConnected
    ensures s.ending == Open <==> forall k | 0 <= k < |input| :: KeepsPolling(input[k])
    ensures s.ending == Open ==> s.consumed == |input|
    ensures s.ending != Open ==>
              && 0 < s.consumed <= |input|
              && forall k | 0 <= k < s.consumed - 1 :: KeepsPolling(input[k])
    ensures s.ending == Failed ==>
              && input[s.consumed - 1].Arrived?
              && Utf8.Decode(input[s.consumed - 1].data).None?
    ensures s.ending == Stopped ==>
              && input[s.consumed - 1].Arrived?
              && Utf8.Decode(input[s.consumed - 1].data) == Some("break")
  {
    Serve(ValkeyConnected, ValkeyDisconnected, ValkeyStep, input)
  }

  /** An empty poll changes nothing the client sees, wherever it happens. */
  lemma ValkeyEmptyPollIgnored(a: seq<Poll>, b: seq<Poll>)
    ensures ValkeyStream(a + [NoMessage] + b).chunks == ValkeyStream(a + b).chunks
    ensures ValkeyStream(a + [NoMessage] + b).ending == ValkeyStream(a + b).ending
  {
    var ra := Drive(ValkeyStep, a);
    if ra.ending == Open {
      DriveAppend(ValkeyStep, a, [NoMessage] + b);
      DriveAppend(ValkeyStep, a, b);
      assert ([NoMessage] + b)[1..] == b;
      assert a + [NoMessage] + b == a + ([NoMessage] + b);
    } else {
      DriveHalted(ValkeyStep, a, [NoMessage] + b);
      DriveHalted(ValkeyStep, a, b);
      assert a + [NoMessage] + b == a + ([NoMessage] + b);
    }
  }

  /**
   * Without empty polls, one `current_time` event per message before the sentinel, each
   * carrying the time of its own message, in arrival order, then `disconnected`.
   */
  lemma ValkeyEvents(input: seq<Poll>)
    requires forall k | 0 <= k < |input| :: input[k].Arrived?
    ensures var s := ValkeyStream(input);
            var n := if s.ending == Open then s.consumed else s.consumed - 1;
            && |s.chunks| == 2 + 2 * n + (if s.ending == Stopped then 2 else 0)
            && (forall k | 0 <= k < n :: s.chunks[2 + 2 * k .. 2 + 2 * k + 2] == ValkeyTime(input[k].now))
            && (s.ending == Stopped ==> s.chunks[2 + 2 * n..] == ValkeyDisconnected)
  {
    ServePairs(ValkeyConnected, ValkeyDisconnected, ValkeyStep, input);
  }

  /** A payload that is not UTF-8 ends the stream with the exception: no `disconnected` event. */
  lemma ValkeyFailureHasNoTrailer(input: seq<Poll>)
    requires ValkeyStream(input).ending == Failed
    ensures "event:disconnected\n" !in ValkeyStream(input).chunks
  {
    forall k | 0 <= k < |input| && ValkeyStep(input[k]).Emit?
      ensures "event:disconnected\n" !in ValkeyStep(input[k]).chunks
    {
      assert ValkeyStep(input[k]).chunks[1][0] == 'd';
    }
    DriveAvoids(ValkeyStep, input, "event:disconnected\n");
  }
}
