/** The order of operations of the two run loops. Each rank with group
    index 0 or 1 walks the iterations, issuing send and recv in a
    role-dependent order with an 8-bit sequence number that wraps; the
    unidirectional loop adds the last-iteration handshake of the PUT test.
    Barriers, the clock and the statistics update do not change the order and
    are not part of it. */
module RunLoops {
  import opened PerfTypes

  /** The value of psn_t's maximum, preset in the PUT receive buffer so that
      no stale byte can pass for the first marker. */
  const UNKNOWN_PSN: Byte := 255

  /** UCP_PERF_LAST_ITER_SN: the byte that ends a unidirectional PUT test. */
  const LAST_ITER_SN: Byte := 1

  /** One operation of a run loop, with the sequence number it carries. */
  datatype Step = SendStep(sn: Byte) | RecvStep(sn: Byte) | WaitLastIter | SendLastIter

  /** The uint8_t sequence number of iteration k. */
  function Sn(k: nat): Byte {
    k % 256
  }

  /** One ping-pong iteration: index 0 sends then receives, index 1 receives
      then sends, any other index does nothing. */
  function Round(myIndex: nat, sn: Byte): seq<Step> {
    if myIndex == 0 then [SendStep(sn), RecvStep(sn)]
    else if myIndex == 1 then [RecvStep(sn), SendStep(sn)]
    else []
  }

  /** The operations of the first n ping-pong iterations. */
  function PingPongTrace(myIndex: nat, n: nat): seq<Step> {
    if n == 0 then [] else PingPongTrace(myIndex, n - 1) + Round(myIndex, Sn(n - 1))
  }

  /** The operations of a unidirectional run of n iterations: index 0 only
      receives, index 1 only sends; in a PUT test the receiver then waits for
      the last-iteration byte and the sender puts it. */
  function StreamUniTrace(myIndex: nat, n: nat, putTest: bool): seq<Step> {
    if myIndex == 0 then
      seq(n, k requires 0 <= k < n => RecvStep(Sn(k))) + (if putTest then [WaitLastIter] else [])
    else if myIndex == 1 then
      seq(n, k requires 0 <= k < n => SendStep(Sn(k))) + (if putTest then [SendLastIter] else [])
    else []
  }

  /** `++sn` on a uint8_t: 255 wraps to 0. */
  function Next(sn: Byte): Byte {
    (sn + 1) % 256
  }

  lemma SnStep(sn: Byte, k: nat)
    requires sn == Sn(k)
    ensures Next(sn) == Sn(k + 1)
  {
  }

  lemma PingPongStep(myIndex: nat, k: nat, sn: Byte)
    requires sn == Sn(k)
    ensures PingPongTrace(myIndex, k + 1) == PingPongTrace(myIndex, k) + Round(myIndex, sn)
  {
  }

  /** run_pingpong's loop: `++sn` on a uint8_t after every iteration. */
  method PingPongSchedule(myIndex: nat, iterations: nat) returns (trace: seq<Step>)
    ensures trace == PingPongTrace(myIndex, iterations)
  {
    var sn: Byte := 0;
    trace := [];
    var k := 0;
    while k < iterations
      invariant 0 <= k <= iterations
      invariant sn == Sn(k)
      invariant trace == PingPongTrace(myIndex, k)
    {
      ghost var before := trace;
      if myIndex == 0 {
        trace := trace + [SendStep(sn), RecvStep(sn)];
      } else if myIndex == 1 {
        trace := trace + [RecvStep(sn), SendStep(sn)];
      }
      assert trace == before + Round(myIndex, sn);
      PingPongStep(myIndex, k, sn);
      SnStep(sn, k);
      sn := Next(sn);
      k := k + 1;
    }
  }

  /** run_stream_uni's loop, followed by wait_last_iter or send_last_iter,
      which act only in a PUT test. */
  method StreamUniSchedule(myIndex: nat, iterations: nat, putTest: bool) returns (trace: seq<Step>)
    ensures trace == StreamUniTrace(myIndex, iterations, putTest)
  {
    var sn: Byte := 0;
    trace := [];
    if myIndex == 0 || myIndex == 1 {
      var k := 0;
      while k < iterations
        invariant 0 <= k <= iterations
        invariant sn == Sn(k)
        invariant |trace| == k
        invariant forall j :: 0 <= j < k ==> trace[j] == (if myIndex == 0 then RecvStep(Sn(j)) else SendStep(Sn(j)))
      {
        trace := trace + [if myIndex == 0 then RecvStep(sn) else SendStep(sn)];
        SnStep(sn, k);
        sn := Next(sn);
        k := k + 1;
      }
      if putTest {
        trace := trace + [if myIndex == 0 then WaitLastIter else SendLastIter];
      }
    }
  }

  /** Every iteration of a ping-pong rank is one send and one receive with
      that iteration's sequence number, index 0 sending first and index 1
      receiving first. */
  lemma {:induction false} PingPongShape(myIndex: nat, n: nat, k: nat)
    requires myIndex <= 1 && k < n
    ensures |PingPongTrace(myIndex, n)| == 2 * n
    ensures myIndex == 0 ==>
      PingPongTrace(myIndex, n)[2 * k] == SendStep(Sn(k)) && PingPongTrace(myIndex, n)[2 * k + 1] == RecvStep(Sn(k))
    ensures myIndex == 1 ==>
      PingPongTrace(myIndex, n)[2 * k] == RecvStep(Sn(k)) && PingPongTrace(myIndex, n)[2 * k + 1] == SendStep(Sn(k))
  {
    PingPongLength(myIndex, n - 1);
    if k < n - 1 {
      PingPongShape(myIndex, n - 1, k);
    }
  }

  lemma {:induction false} PingPongLength(myIndex: nat, n: nat)
    requires myIndex <= 1
    ensures |PingPongTrace(myIndex, n)| == 2 * n
  {
    if n > 0 {
      PingPongLength(myIndex, n - 1);
    }
  }

  /** A rank whose group index is neither 0 nor 1 takes no part. */
  lemma {:induction false} OtherRanksIdle(myIndex: nat, n: nat)
    requires myIndex > 1
    ensures PingPongTrace(myIndex, n) == []
  {
    if n > 0 {
      OtherRanksIdle(myIndex, n - 1);
    }
  }

  /** What the marker byte holds when the receive of iteration k starts
      spinning: the sentinel before the first iteration, and the previous
      iteration's marker after it. */
  function MarkerBefore(k: nat): Byte {
    if k == 0 then UNKNOWN_PSN else Sn(k - 1)
  }

  /** The byte left behind never equals the marker awaited next, also across
      the wrap from 255 to 0: a ping-pong receive can only return once the
      peer's new marker has landed. */
  lemma StaleMarkerNeverMatches(k: nat)
    ensures MarkerBefore(k) != Sn(k)
  {
  }

  /** Before the 8-bit counter wraps (at most 256 iterations) iteration k
      carries marker k itself: the k-th exchange is the k-th send of index 0
      and the k-th receive of index 1, in that order. */
  lemma MarkersInOrderBeforeWrap(n: nat, k: nat)
    requires k < n <= 256
    ensures |PingPongTrace(0, n)| == |PingPongTrace(1, n)| == 2 * n
    ensures PingPongTrace(0, n)[2 * k] == SendStep(k) && PingPongTrace(0, n)[2 * k + 1] == RecvStep(k)
    ensures PingPongTrace(1, n)[2 * k] == RecvStep(k) && PingPongTrace(1, n)[2 * k + 1] == SendStep(k)
  {
    PingPongShape(0, n, k);
    PingPongShape(1, n, k);
  }
}
