/**
 * The receive loop every Server-Sent-Events bridge of core/views.py runs: wait for one
 * input, then either emit the chunks of one event, ignore the input, leave the loop on
 * the sentinel, or raise. Each bridge writes a fixed header first and, when it leaves
 * the loop on its sentinel, a fixed trailer last. The event stream format itself is the
 * one of section 9.2 of the WHATWG HTML Living Standard ("Server-sent events").
 */
module Sse {

  /** What a bridge does with one input. */
  datatype Action = Emit(chunks: seq<string>) | Skip | Stop | Fail
  {
    /** The actions after which the loop reads no further input. */
    predicate Halts() {
      Stop? || Fail?
    }
  }

  /**
   * How a stream stands once the inputs given so far are consumed: still waiting for
   * more, finished after its sentinel, or ended by an exception.
   */
  datatype Ending = Open | Stopped | Failed

  /** The chunks the loop emitted, how many inputs it read, and how it stands. */
  datatype LoopRun = LoopRun(chunks: seq<string>, consumed: nat, ending: Ending)

  /** The loop over a finite prefix of the inputs the bridge would receive. */
  function Drive<T>(step: T -> Action, input: seq<T>): (r: LoopRun)
    ensures r.consumed <= |input|
    ensures r.ending == Open <==> forall k | 0 <= k < |input| :: !step(input[k]).Halts()
    ensures r.ending == Open ==> r.consumed == |input|
    ensures r.ending != Open ==>
              && r.consumed > 0
              && (forall k | 0 <= k < r.consumed - 1 :: !step(input[k]).Halts())
              && step(input[r.consumed - 1]).Halts()
              && (r.ending == Stopped <==> step(input[r.consumed - 1]).Stop?)
    decreases |input|
  {
    if |input| == 0 then LoopRun([], 0, Open)
    else
      match step(input[0])
      case Stop => LoopRun([], 1, Stopped)
      case Fail => LoopRun([], 1, Failed)
      case Skip =>
        var rest := Drive(step, input[1..]);
        LoopRun(rest.chunks, rest.consumed + 1, rest.ending)
      case Emit(cs) =>
        var rest := Drive(step, input[1..]);
        LoopRun(cs + rest.chunks, rest.consumed + 1, rest.ending)
  }

  /**
   * Feeding the inputs in two batches gives the same stream as feeding them at once:
   * the loop keeps no state besides what it has emitted.
   */
  lemma {:induction false} DriveAppend<T>(step: T -> Action, a: seq<T>, b: seq<T>)
    requires Drive(step, a).ending == Open
    ensures Drive(step, a + b)
         == LoopRun(Drive(step, a).chunks + Drive(step, b).chunks,
                    |a| + Drive(step, b).consumed,
                    Drive(step, b).ending)
    decreases |a|
  {
    if |a| > 0 {
      assert (a + b)[0] == a[0];
      assert (a + b)[1..] == a[1..] + b;
      DriveAppend(step, a[1..], b);
      var ra, rest, rb := Drive(step, a), Drive(step, a[1..]), Drive(step, b);
      var whole := Drive(step, a + b);
      if step(a[0]).Emit? {
        assert ra.chunks == step(a[0]).chunks + rest.chunks;
        assert whole.chunks == step(a[0]).chunks + (rest.chunks + rb.chunks);
      } else {
        assert ra.chunks == rest.chunks;
      }
    } else {
      assert a + b == b;
    }
  }

  /** Once the loop has left, nothing received later is read or changes the stream. */
  lemma {:induction false} DriveHalted<T>(step: T -> Action, a: seq<T>, b: seq<T>)
    requires Drive(step, a).ending != Open
    ensures Drive(step, a + b) == Drive(step, a)
    decreases |a|
  {
    assert (a + b)[0] == a[0];
    if !step(a[0]).Halts() {
      assert (a + b)[1..] == a[1..] + b;
      DriveHalted(step, a[1..], b);
    }
  }

  /** A chunk no emitted event contains never appears in the loop's output. */
  lemma {:induction false} DriveAvoids<T>(step: T -> Action, input: seq<T>, chunk: string)
    requires forall k | 0 <= k < |input| :: step(input[k]).Emit? ==> chunk !in step(input[k]).chunks
    ensures chunk !in Drive(step, input).chunks
    decreases |input|
  {
    if |input| > 0 {
      DriveAvoids(step, input[1..], chunk);
    }
  }

  /**
   * When every event is two chunks and no input is skipped, the output is the events of
   * the consumed inputs side by side, in arrival order, one pair per input before the
   * halting one.
   */
  lemma {:induction false} DrivePairs<T>(step: T -> Action, input: seq<T>)
    requires forall k | 0 <= k < |input| :: !step(input[k]).Skip?
    requires forall k | 0 <= k < |input| :: step(input[k]).Emit? ==> |step(input[k]).chunks| == 2
    ensures var r := Drive(step, input);
            var n := if r.ending == Open then r.consumed else r.consumed - 1;
            && |r.chunks| == 2 * n
            && forall k | 0 <= k < n :: r.chunks[2 * k .. 2 * k + 2] == step(input[k]).chunks
    decreases |input|
  {
    if |input| > 0 && step(input[0]).Emit? {
      var r := Drive(step, input);
      var rest := Drive(step, input[1..]);
      DrivePairs(step, input[1..]);
      var cs := step(input[0]).chunks;
      assert r.chunks == cs + rest.chunks;
      assert r.ending == rest.ending && r.consumed == rest.consumed + 1;
      var n := if r.ending == Open then r.consumed else r.consumed - 1;
      forall k | 0 <= k < n
        ensures r.chunks[2 * k .. 2 * k + 2] == step(input[k]).chunks
      {
        if k > 0 {
          assert r.chunks[2 * k .. 2 * k + 2] == rest.chunks[2 * (k - 1) .. 2 * (k - 1) + 2];
          assert input[1..][k - 1] == input[k];
        }
      }
    }
  }

  /** Inputs the two steps treat alike, position by position, drive the same loop. */
  lemma {:induction false} DriveSame<T, U>(f: T -> Action, a: seq<T>, g: U -> Action, b: seq<U>)
    requires |a| == |b|
    requires forall k | 0 <= k < |a| :: f(a[k]) == g(b[k])
    ensures Drive(f, a) == Drive(g, b)
    decreases |a|
  {
    if |a| > 0 {
      DriveSame(f, a[1..], g, b[1..]);
    }
  }

  /** A whole stream: the bridge's header, the loop's events, and its trailer after the sentinel. */
  datatype Stream = Stream(chunks: seq<string>, consumed: nat, ending: Ending)

  /**
   * A bridge that writes `header`, runs the receive loop, and writes `trailer` when the
   * loop ends on its sentinel. An exception inside the loop propagates: no trailer.
   */
  function Serve<T>(header: seq<string>, trailer: seq<string>, step: T -> Action, input: seq<T>): (s: Stream)
    ensures s.ending == Drive(step, input).ending
    ensures s.consumed == Drive(step, input).consumed
    ensures s.ending != Open ==> 0 < s.consumed <= |input|
    ensures |s.chunks| >= |header| && s.chunks[..|header|] == header
    ensures s.ending == Stopped ==> |s.chunks| >= |trailer| && s.chunks[|s.chunks| - |trailer|..] == trailer
  {
    var r := Drive(step, input);
    Stream(header + r.chunks + (if r.ending == Stopped then trailer else []), r.consumed, r.ending)
  }

  /**
   * A whole stream whose events are two chunks each, an `event:` line and a `data:`
   * line: the header, one pair per event in arrival order, and the trailer after the
   * sentinel.
   */
  lemma ServePairs<T>(header: seq<string>, trailer: seq<string>, step: T -> Action, input: seq<T>)
    requires forall k | 0 <= k < |input| :: !step(input[k]).Skip?
    requires forall k | 0 <= k < |input| :: step(input[k]).Emit? ==> |step(input[k]).chunks| == 2
    ensures var s := Serve(header, trailer, step, input);
            var n := if s.ending == Open then s.consumed else s.consumed - 1;
            var h := |header|;
            && |s.chunks| == h + 2 * n + (if s.ending == Stopped then |trailer| else 0)
            && (forall k | 0 <= k < n :: s.chunks[h + 2 * k .. h + 2 * k + 2] == step(input[k]).chunks)
            && (s.ending == Stopped ==> s.chunks[h + 2 * n..] == trailer)
  {
    var r := Drive(step, input);
    DrivePairs(step, input);
    var s := Serve(header, trailer, step, input);
    var n := if s.ending == Open then s.consumed else s.consumed - 1;
    var h := |header|;
    assert s.chunks == header + r.chunks + (if r.ending == Stopped then trailer else []);
    forall k | 0 <= k < n
      ensures s.chunks[h + 2 * k .. h + 2 * k + 2] == step(input[k]).chunks
    {
      assert s.chunks[h + 2 * k .. h + 2 * k + 2] == r.chunks[2 * k .. 2 * k + 2];
    }
  }

  /**
   * A chunk that neither the header nor any event contains occurs in the stream only
   * as often as the trailer holds it, and only once the sentinel has arrived.
   */
  lemma ServeCount<T>(header: seq<string>, trailer: seq<string>, step: T -> Action, input: seq<T>, chunk: string)
    requires chunk !in header
    requires forall k | 0 <= k < |input| :: step(input[k]).Emit? ==> chunk !in step(input[k]).chunks
    ensures var s := Serve(header, trailer, step, input);
            multiset(s.chunks)[chunk] == (if s.ending == Stopped then multiset(trailer)[chunk] else 0)
  {
    var r := Drive(step, input);
    DriveAvoids(step, input, chunk);
    var s := Serve(header, trailer, step, input);
    assert s.chunks == header + r.chunks + (if r.ending == Stopped then trailer else []);
    assert multiset(header)[chunk] == 0;
    assert multiset(r.chunks)[chunk] == 0;
  }
}
