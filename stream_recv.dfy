/** The two stream receive loops of the runner, over an abstract library.
    recv_stream_data keeps progressing and releasing whatever chunk the
    library hands out until the released lengths reach the message length;
    recv_stream keeps posting receives into the rest of the buffer until it
    is full. Both stop at the first error. Neither loop reads the
    outstanding counter, so the completions that their progress calls
    deliver are returned to the caller, which applies them to the counter. */
module StreamRecv {
  import opened PerfTypes

  /** What one step of either loop contributes: a number of bytes, or an error. */
  datatype Piece = Got(n: nat) | Failed(code: ErrorCode)

  function PieceLength(p: Piece): nat {
    if p.Got? then p.n else 0
  }

  /** The byte count of every step. */
  function PieceLengths(pieces: seq<Piece>): (ls: seq<nat>)
    ensures |ls| == |pieces|
  {
    seq(|pieces|, k requires 0 <= k < |pieces| => PieceLength(pieces[k]))
  }

  /** Bytes received over a sequence of steps. */
  function Received(pieces: seq<Piece>): nat {
    Sum(PieceLengths(pieces))
  }

  lemma ReceivedStep(pieces: seq<Piece>, i: nat)
    requires i < |pieces|
    ensures Received(pieces[..i + 1]) == Received(pieces[..i]) + PieceLength(pieces[i])
  {
    var ls := PieceLengths(pieces);
    assert PieceLengths(pieces[..i + 1]) == ls[..i + 1];
    assert PieceLengths(pieces[..i]) == ls[..i];
    SumPrefixStep(ls, i);
  }

  /** The first `i` steps all brought bytes and each left the total short of
      `length`: the loop went on after every one of them. */
  ghost predicate ShortSoFar(pieces: seq<Piece>, length: nat, i: nat) {
    && i <= |pieces|
    && (forall j :: 0 <= j < i ==> pieces[j].Got?)
    && (forall j :: 1 <= j <= i ==> Received(pieces[..j]) < length)
  }

  /** The loop ends at step `steps` (counted from one) with `total` bytes and
      `status`: every earlier step brought bytes and left the total short of
      `length`, and the last step either failed (its error is the status) or
      brought the total to at least `length` (status UCS_OK). */
  ghost predicate StopsAt(pieces: seq<Piece>, length: nat, steps: nat, total: nat, status: Status) {
    && 1 <= steps <= |pieces|
    && ShortSoFar(pieces, length, steps - 1)
    && total == Received(pieces[..steps])
    && ((status == OK && pieces[steps - 1].Got? && total >= length)
        || (pieces[steps - 1].Failed? && pieces[steps - 1].code == status))
  }

  /** Guaranteed delivery: some step fails or brings the total to `length`. */
  ghost predicate Delivers(pieces: seq<Piece>, length: nat) {
    exists k :: 0 <= k < |pieces| && (pieces[k].Failed? || Received(pieces[..k + 1]) >= length)
  }

  /** Under guaranteed delivery the loop never runs out of steps: a step
      that goes on leaves another step to take. */
  lemma DeliveryLeavesAStep(pieces: seq<Piece>, length: nat, i: nat)
    requires Delivers(pieces, length) && ShortSoFar(pieces, length, i)
    ensures i < |pieces|
  {
    var k :| 0 <= k < |pieces| && (pieces[k].Failed? || Received(pieces[..k + 1]) >= length);
  }

  /** A step that brings bytes and leaves the total short extends the run. */
  lemma GoOn(pieces: seq<Piece>, length: nat, i: nat)
    requires ShortSoFar(pieces, length, i) && i < |pieces|
    requires pieces[i].Got? && Received(pieces[..i + 1]) < length
    ensures ShortSoFar(pieces, length, i + 1)
  {
  }

  /** A step that fails, or brings the total to `length`, ends the loop there. */
  lemma StopHere(pieces: seq<Piece>, length: nat, i: nat, status: Status)
    requires ShortSoFar(pieces, length, i) && i < |pieces|
    requires (pieces[i].Failed? && pieces[i].code == status)
          || (pieces[i].Got? && Received(pieces[..i + 1]) >= length && status == OK)
    ensures StopsAt(pieces, length, i + 1, Received(pieces[..i + 1]), status)
  {
  }

  /** The stopping step is determined by the pieces: the loop's outcome is a
      function of what the library delivers. */
  lemma StopIsUnique(pieces: seq<Piece>, length: nat, s1: nat, t1: nat, st1: Status, s2: nat, t2: nat, st2: Status)
    requires StopsAt(pieces, length, s1, t1, st1)
    requires StopsAt(pieces, length, s2, t2, st2)
    ensures s1 == s2 && t1 == t2 && st1 == st2
  {
  }

  /** The bytes received so far never decrease. */
  lemma {:induction false} ReceivedMonotone(pieces: seq<Piece>, i: nat, j: nat)
    requires i <= j <= |pieces|
    ensures Received(pieces[..i]) <= Received(pieces[..j])
  {
    if i < j {
      ReceivedMonotone(pieces, i, j - 1);
      ReceivedStep(pieces, j - 1);
    }
  }

  /** A message delivered in chunks whose lengths add up to exactly `length`
      (the last chunk non-empty) is received in full, whatever the chunk
      boundaries: the loop takes every chunk and ends with `length` bytes. */
  lemma ExactChunksReceivedInFull(pieces: seq<Piece>, length: nat, steps: nat, total: nat, status: Status)
    requires forall k :: 0 <= k < |pieces| ==> pieces[k].Got?
    requires pieces != [] && pieces[|pieces| - 1].n > 0
    requires Received(pieces) == length
    requires StopsAt(pieces, length, steps, total, status)
    ensures steps == |pieces| && total == length && status == OK
  {
    var n := |pieces|;
    assert pieces[..n] == pieces;
    if steps < n {
      ReceivedMonotone(pieces, steps, n - 1);
      ReceivedStep(pieces, n - 1);
      assert false;
    }
  }

  // ---------------------------------------------------------------------
  // recv_stream_data

  /** ucp_stream_recv_data_nb: nothing yet (NULL), a chunk of data, or an error. */
  datatype DataReply = NoData | Chunk(n: nat) | DataError(code: ErrorCode)

  /** One iteration's oracle: the completions the progress call delivers,
      then what ucp_stream_recv_data_nb returns. */
  datatype DataPoll = DataPoll(completions: nat, reply: DataReply)

  function DataPiece(r: DataReply): Piece {
    match r
    case NoData => Got(0)
    case Chunk(n) => Got(n)
    case DataError(c) => Failed(c)
  }

  function DataPieces(polls: seq<DataPoll>): (ps: seq<Piece>)
    ensures |ps| == |polls|
  {
    seq(|polls|, i requires 0 <= i < |polls| => DataPiece(polls[i].reply))
  }

  /** The completions each iteration's progress call delivers. */
  function PollCompletions(polls: seq<DataPoll>): (cs: seq<nat>)
    ensures |cs| == |polls|
  {
    seq(|polls|, k requires 0 <= k < |polls| => polls[k].completions)
  }

  /** Completions delivered by the progress calls of the iterations. */
  function DataCompletions(polls: seq<DataPoll>): nat {
    Sum(PollCompletions(polls))
  }

  lemma DataCompletionsStep(polls: seq<DataPoll>, i: nat)
    requires i < |polls|
    ensures DataCompletions(polls[..i + 1]) == DataCompletions(polls[..i]) + polls[i].completions
  {
    var cs := PollCompletions(polls);
    assert PollCompletions(polls[..i + 1]) == cs[..i + 1];
    assert PollCompletions(polls[..i]) == cs[..i];
    SumPrefixStep(cs, i);
  }

  /** The completions of a prefix of the iterations are among those of all. */
  lemma DataCompletionsPrefix(polls: seq<DataPoll>, i: nat)
    requires i <= |polls|
    ensures DataCompletions(polls[..i]) <= DataCompletions(polls)
  {
    var cs := PollCompletions(polls);
    assert PollCompletions(polls[..i]) == cs[..i];
    SumPrefixBound(cs, i);
  }

  /** recv_stream_data: progress, take a chunk if there is one and add its
      length, and repeat while the total is short of `length` and no error
      came back. */
  method RecvStreamData(length: nat, polls: seq<DataPoll>)
    returns (status: Status, completed: nat, steps: nat, total: nat)
    requires Delivers(DataPieces(polls), length)
    ensures StopsAt(DataPieces(polls), length, steps, total, status)
    ensures completed == DataCompletions(polls[..steps])
  {
    ghost var ps := DataPieces(polls);
    var sum := 0;
    var i := 0;
    completed := 0;
    while true
      invariant ShortSoFar(ps, length, i)
      invariant sum == Received(ps[..i])
      invariant completed == DataCompletions(polls[..i])
      decreases |polls| - i
    {
      DeliveryLeavesAStep(ps, length, i);
      completed := completed + polls[i].completions;
      DataCompletionsStep(polls, i);
      var data := polls[i].reply;
      assert ps[i] == DataPiece(data);
      ReceivedStep(ps, i);
      if data.Chunk? {
        sum := sum + data.n;
      }
      if !(sum < length && !data.DataError?) {
        status := if data.DataError? then data.code else OK;
        StopHere(ps, length, i, status);
        steps, total := i + 1, sum;
        return;
      }
      GoOn(ps, length, i);
      i := i + 1;
    }
  }

  /** 4096 bytes released as chunks of 1500, 1500 and 1096: the loop can
      end, and it ends after the third chunk with exactly 4096 bytes. */
  lemma ThreeChunksReleased(steps: nat, total: nat, status: Status)
    requires StopsAt(DataPieces([DataPoll(0, Chunk(1500)), DataPoll(0, Chunk(1500)), DataPoll(0, Chunk(1096))]), 4096, steps, total, status)
    ensures steps == 3 && total == 4096 && status == OK
  {
    var polls := [DataPoll(0, Chunk(1500)), DataPoll(0, Chunk(1500)), DataPoll(0, Chunk(1096))];
    var ps := DataPieces(polls);
    assert ps == [Got(1500), Got(1500), Got(1096)];
    assert ps[..2] == [Got(1500), Got(1500)] && ps[..1] == [Got(1500)] && ps[..0] == [];
    assert Received(ps) == 4096 by {
      assert ps[..3] == ps;
      ReceivedStep(ps, 2);
      ReceivedStep(ps, 1);
      ReceivedStep(ps, 0);
    }
    ExactChunksReceivedInFull(ps, 4096, steps, total, status);
  }

  lemma ThreeChunksDeliver()
    ensures Delivers(DataPieces([DataPoll(0, Chunk(1500)), DataPoll(0, Chunk(1500)), DataPoll(0, Chunk(1096))]), 4096)
  {
    var ps := DataPieces([DataPoll(0, Chunk(1500)), DataPoll(0, Chunk(1500)), DataPoll(0, Chunk(1096))]);
    assert ps == [Got(1500), Got(1500), Got(1096)];
    ReceivedStep(ps, 2);
    ReceivedStep(ps, 1);
    ReceivedStep(ps, 0);
    assert ps[..3] == ps;
    assert Received(ps[..2 + 1]) >= 4096;
  }

  // ---------------------------------------------------------------------
  // recv_stream

  /** How a pending stream receive ends (ucp_stream_recv_request_test). */
  datatype WaitResult = WaitDone(n: nat) | WaitFailed(code: ErrorCode)

  /** ucp_stream_recv_nb: completed at once with a length (NULL request), a
      pending request that is tested until done (the completions of the
      progress call after each "in progress" test, then the result), or an error. */
  datatype FillReply = FilledNow(n: nat) | FillPending(waits: seq<nat>, result: WaitResult) | FillFailed(code: ErrorCode)

  function FillPiece(r: FillReply): Piece {
    match r
    case FilledNow(n) => Got(n)
    case FillPending(_, WaitDone(n)) => Got(n)
    case FillPending(_, WaitFailed(c)) => Failed(c)
    case FillFailed(c) => Failed(c)
  }

  function FillPieces(replies: seq<FillReply>): (ps: seq<Piece>)
    ensures |ps| == |replies|
  {
    seq(|replies|, i requires 0 <= i < |replies| => FillPiece(replies[i]))
  }

  function FillReplyCompletions(r: FillReply): nat {
    if r.FillPending? then Sum(r.waits) else 0
  }

  /** The completions each posted receive's wait delivers. */
  function ReplyCompletions(replies: seq<FillReply>): (cs: seq<nat>)
    ensures |cs| == |replies|
  {
    seq(|replies|, k requires 0 <= k < |replies| => FillReplyCompletions(replies[k]))
  }

  /** Completions delivered by the waits of the iterations. */
  function FillCompletions(replies: seq<FillReply>): nat {
    Sum(ReplyCompletions(replies))
  }

  lemma FillCompletionsStep(replies: seq<FillReply>, i: nat)
    requires i < |replies|
    ensures FillCompletions(replies[..i + 1]) == FillCompletions(replies[..i]) + FillReplyCompletions(replies[i])
  {
    var cs := ReplyCompletions(replies);
    assert ReplyCompletions(replies[..i + 1]) == cs[..i + 1];
    assert ReplyCompletions(replies[..i]) == cs[..i];
    SumPrefixStep(cs, i);
  }

  /** The completions of a prefix of the iterations are among those of all. */
  lemma FillCompletionsPrefix(replies: seq<FillReply>, i: nat)
    requires i <= |replies|
    ensures FillCompletions(replies[..i]) <= FillCompletions(replies)
  {
    var cs := ReplyCompletions(replies);
    assert ReplyCompletions(replies[..i]) == cs[..i];
    SumPrefixBound(cs, i);
  }

  /** wait_stream_recv: test the request, progressing while it is in progress,
      then release it and return its length, or its error as a negative value. */
  method WaitStreamRecv(waits: seq<nat>, result: WaitResult) returns (r: int, completed: nat)
    ensures completed == Sum(waits)
    ensures r == (if result.WaitDone? then result.n else result.code)
    ensures r < 0 <==> result.WaitFailed?
  {
    completed := 0;
    var i := 0;
    while i < |waits|
      invariant 0 <= i <= |waits|
      invariant completed == Sum(waits[..i])
    {
      SumPrefixStep(waits, i);
      completed := completed + waits[i];
      i := i + 1;
    }
    assert waits[..i] == waits;
    r := if result.WaitDone? then result.n else result.code;
  }

  /** The (offset, size) records of the receives posted so far. */
  ghost predicate IssuedAt(pieces: seq<Piece>, length: nat, issued: seq<(nat, nat)>, n: nat)
    requires n <= |pieces|
  {
    && |issued| == n
    && (forall k :: 0 <= k < n ==> issued[k].0 == Received(pieces[..k]) <= length)
    && (forall k :: 0 <= k < n ==> issued[k].1 == length - issued[k].0)
  }

  lemma IssuedStep(pieces: seq<Piece>, length: nat, issued: seq<(nat, nat)>, sum: nat, i: nat)
    requires i < |pieces| && IssuedAt(pieces, length, issued, i)
    requires sum == Received(pieces[..i]) <= length
    ensures IssuedAt(pieces, length, issued + [(sum, length - sum)], i + 1)
  {
  }

  /** One ucp_stream_recv_nb and what recv_stream makes of it: the length
      received (at once, or after waiting on the request), or the error as a
      negative value, with the completions of the progress calls made. */
  method PostStreamRecv(reply: FillReply) returns (r: int, completed: nat)
    ensures completed == FillReplyCompletions(reply)
    ensures FillPiece(reply).Got? ==> r == FillPiece(reply).n
    ensures FillPiece(reply).Failed? ==> r == FillPiece(reply).code
  {
    match reply {
      case FilledNow(n) =>
        r, completed := n, 0;
      case FillPending(waits, result) =>
        r, completed := WaitStreamRecv(waits, result);
      case FillFailed(code) =>
        r, completed := code, 0;
    }
  }

  /** recv_stream: post a receive for the rest of the buffer, at offset
      `total` with size `length - total`, add what it brings, and repeat
      while the buffer is not full; return the first error. `issued` records
      the (offset, size) of every receive posted. */
  method RecvStream(length: nat, replies: seq<FillReply>)
    returns (status: Status, completed: nat, steps: nat, total: nat, issued: seq<(nat, nat)>)
    requires Delivers(FillPieces(replies), length)
    ensures StopsAt(FillPieces(replies), length, steps, total, status)
    ensures completed == FillCompletions(replies[..steps])
    ensures |issued| == steps
    ensures forall k :: 0 <= k < steps ==> issued[k].0 == Received(FillPieces(replies)[..k]) <= length
    ensures forall k :: 0 <= k < steps ==> issued[k].1 == length - issued[k].0
  {
    ghost var ps := FillPieces(replies);
    var sum: nat := 0;
    var i := 0;
    completed := 0;
    issued := [];
    while true
      invariant ShortSoFar(ps, length, i)
      invariant sum == Received(ps[..i]) <= length
      invariant completed == FillCompletions(replies[..i])
      invariant IssuedAt(ps, length, issued, i)
      decreases |replies| - i
    {
      DeliveryLeavesAStep(ps, length, i);
      IssuedStep(ps, length, issued, sum, i);
      issued := issued + [(sum, length - sum)];
      var r, c := PostStreamRecv(replies[i]);
      completed := completed + c;
      FillCompletionsStep(replies, i);
      assert ps[i] == FillPiece(replies[i]);
      ReceivedStep(ps, i);
      if r < 0 {
        status := r;
        StopHere(ps, length, i, status);
        steps, total := i + 1, sum;
        return;
      }
      sum := sum + r;
      if sum >= length {
        status := OK;
        StopHere(ps, length, i, status);
        steps, total := i + 1, sum;
        return;
      }
      GoOn(ps, length, i);
      i := i + 1;
    }
  }
}
