/** ucp_perf_test_runner: the outstanding-operation window, the completion
    callbacks, send, recv and the run loops of one test case. The library is
    replaced by oracles: what each post returns, how many operations each
    progress call completes, what the stream receives deliver and what the
    spins on remotely written memory observe. */
module Runner {
  import opened PerfTypes
  import opened Dispatcher
  import opened Strategy
  import opened Window
  import opened StreamRecv
  import opened RunLoops

  /** ucp_perf_request_t: a library request with the slot in which the runner
      leaves itself, so that the completion callback finds the counter. The
      library hands out requests with an empty slot. */
  class Request {
    var context: TestRunner?
    var freed: bool

    constructor ()
      ensures context == null && !freed
    {
      context := null;
      freed := false;
    }
  }

  /** What a non-blocking send returns: a status (NULL for UCS_OK, or an
      error pointer) or a pending request. Blocking operations (put, get,
      the atomics) only return a status. */
  datatype PostReply = Immediate(status: Status) | Pending(req: Request)

  /** What ucp_tag_recv_nb returns: a status, or a request, which may have
      completed (and run its callback) before the call returned. */
  datatype TagRecvReply = TagImmediate(status: Status) | TagPending(req: Request, completedInline: bool)

  /** Everything the library does during one recv call:
      `window`    completions of each progress call in wait_window;
      `probes`    completions of each progress call after a probe found nothing;
      `tag`       the reply of the tag receive;
      `oneShot`   completions of the single progress call of GET and the atomics;
      `data`      the iterations of recv_stream_data;
      `fill`      the iterations of recv_stream. */
  datatype RecvOracle = RecvOracle(
    window: seq<nat>,
    probes: seq<nat>,
    tag: TagRecvReply,
    oneShot: nat,
    data: seq<DataPoll>,
    fill: seq<FillReply>)

  /** The spin on a byte another process writes: each element of `observed`
      is one read of the byte. Returns the number of reads that did not see
      `target`, which is the number of times the loop body (progress, and for
      PINGPONG_WAIT_MEM one ucp_worker_wait_mem) runs. */
  method SpinUntil(observed: seq<Byte>, target: Byte) returns (spins: nat)
    requires exists k :: 0 <= k < |observed| && observed[k] == target
    ensures spins < |observed| && observed[spins] == target
    ensures forall j :: 0 <= j < spins ==> observed[j] != target
  {
    spins := 0;
    while observed[spins] != target
      invariant 0 <= spins < |observed|
      invariant forall j :: 0 <= j < spins ==> observed[j] != target
      invariant exists k :: spins <= k < |observed| && observed[k] == target
      decreases |observed| - spins
    {
      spins := spins + 1;
    }
  }

  /** A receiver waiting for marker 7 leaves the loop at the first read that
      sees 7 and not before: after the sentinel and two reads of the stale
      marker (255, 6, 6, 7) it has waited three times. */
  method MarkerSevenSeenAfterThreeWaits() returns (spins: nat)
    ensures spins == 3
  {
    var observed: seq<Byte> := [255, 6, 6, 7];
    assert observed[3] == 7;
    spins := SpinUntil(observed, 7);
  }

  class TestRunner {
    /** The template parameters CMD, TYPE and FLAGS. */
    const command: Command
    const testType: TestType
    const caseFlags: Flags
    /** m_perf.params.flags, the flags the test was requested with. */
    const paramFlags: Flags
    /** m_max_outstanding */
    const maxOutstanding: nat
    /** m_outstanding, an unsigned 32-bit counter */
    var outstanding: nat

    ghost predicate Valid()
      reads this
    {
      0 < maxOutstanding < U32 && outstanding < U32
    }

    /** The window wait_window keeps for the windowed operations
        (ucp_tests.cc:273-282): no more operations in flight than
        m_max_outstanding. */
    predicate InWindow()
      reads this
    {
      outstanding <= maxOutstanding
    }

    /** progress_responder progresses unless the test is one-sided (by case
        or by request). */
    predicate ResponderProgresses() {
      !HasFlag(caseFlags, FLAG_ONE_SIDED) && !HasFlag(paramFlags, FLAG_ONE_SIDED)
    }

    /** The constructor insists on a positive window. */
    constructor (command: Command, testType: TestType, caseFlags: Flags, paramFlags: Flags, maxOutstanding: nat)
      requires 0 < maxOutstanding < U32
      ensures this.command == command && this.testType == testType
      ensures this.caseFlags == caseFlags && this.paramFlags == paramFlags
      ensures this.maxOutstanding == maxOutstanding
      ensures outstanding == 0
      ensures Valid()
    {
      this.command := command;
      this.testType := testType;
      this.caseFlags := caseFlags;
      this.paramFlags := paramFlags;
      this.maxOutstanding := maxOutstanding;
      outstanding := 0;
    }

    // -------------------------------------------------------------------
    // The counter

    /** op_started: ++m_outstanding, wrapping at 2^32. */
    method OpStarted()
      requires Valid()
      modifies this
      ensures Valid()
      ensures outstanding == (old(outstanding) + 1) % U32
      ensures old(outstanding) + 1 < U32 ==> outstanding == old(outstanding) + 1
    {
      outstanding := (outstanding + 1) % U32;
    }

    /** op_completed: --m_outstanding, wrapping at 0. */
    method OpCompleted()
      requires Valid()
      modifies this
      ensures Valid()
      ensures outstanding == (old(outstanding) + U32 - 1) % U32
      ensures old(outstanding) >= 1 ==> outstanding == old(outstanding) - 1
    {
      outstanding := (outstanding + U32 - 1) % U32;
    }

    /** One ucp_worker_progress call that runs `completions` completion
        callbacks, each of which calls op_completed once. The library only
        completes operations that were started. */
    method Progress(completions: nat)
      requires Valid()
      requires completions <= outstanding
      modifies this
      ensures Valid()
      ensures outstanding == old(outstanding) - completions
      ensures old(InWindow()) ==> InWindow()
    {
      var i := 0;
      while i < completions
        invariant 0 <= i <= completions
        invariant Valid()
        invariant outstanding == old(outstanding) - i
      {
        OpCompleted();
        i := i + 1;
      }
    }

    /** progress_responder: no progress call at all in a one-sided test, so
        nothing completes. */
    method ProgressResponder(completions: nat)
      requires Valid()
      requires completions <= outstanding
      requires !ResponderProgresses() ==> completions == 0
      modifies this
      ensures Valid()
      ensures outstanding == old(outstanding) - completions
    {
      if ResponderProgresses() {
        Progress(completions);
      }
    }

    /** wait_window(n, is_requestor): progress while m_outstanding >=
        m_max_outstanding - n + 1. The i-th progress call completes
        deliveries[i] operations. */
    method WaitWindow(n: nat, isRequestor: bool, deliveries: seq<nat>)
      requires Valid()
      requires 1 <= n <= maxOutstanding
      requires WaitTerminates(isRequestor || ResponderProgresses(), outstanding, maxOutstanding - n, deliveries)
      modifies this
      ensures Valid()
      ensures outstanding == Drained(old(outstanding), maxOutstanding - n, deliveries)
      ensures outstanding <= maxOutstanding - n
    {
      ghost var limit := maxOutstanding - n;
      var d := deliveries;
      while outstanding >= maxOutstanding - n + 1
        invariant Valid()
        invariant Sum(d) <= outstanding
        invariant Drained(outstanding, limit, d) == Drained(old(outstanding), limit, deliveries)
        invariant outstanding > limit ==> (isRequestor || ResponderProgresses()) && outstanding - limit <= Sum(d)
        decreases |d|
      {
        if d == [] {
          assert false;
        }
        DrainedStep(outstanding, limit, d);
        SumCons(d);
        if isRequestor {
          Progress(d[0]);
        } else {
          ProgressResponder(d[0]);
        }
        d := d[1..];
      }
    }

    // -------------------------------------------------------------------
    // Completion callbacks

    /** send_cb: the request's context is the runner that posted it; complete
        one operation, clear the context and free the request. */
    method SendCb(req: Request)
      requires Valid()
      requires req.context == this
      modifies this, req
      ensures Valid()
      ensures outstanding == (old(outstanding) + U32 - 1) % U32
      ensures req.context == null && req.freed
      ensures old(outstanding) >= 1 && old(InWindow()) ==> InWindow()
    {
      OpCompleted();
      req.context := null;
      req.freed := true;
    }

    /** tag_recv_cb: a request that completed inside ucp_tag_recv_nb still
        has no context, and the callback leaves everything alone; otherwise
        it completes one operation, clears the context and frees the request,
        so a second call is again a no-op. */
    method TagRecvCb(req: Request)
      requires Valid()
      requires req.context == null || req.context == this
      modifies this, req
      ensures Valid()
      ensures old(req.context) == null ==>
        outstanding == old(outstanding) && req.context == null && req.freed == old(req.freed)
      ensures old(req.context) == this ==>
        outstanding == (old(outstanding) + U32 - 1) % U32 && req.context == null && req.freed
      ensures old(outstanding) >= 1 && old(InWindow()) ==> InWindow()
    {
      if req.context == null {
        return;
      }
      OpCompleted();
      req.context := null;
      req.freed := true;
    }

    /** am_data_handler: an eager message completes the operation recv
        started; a rendezvous message starts the pull into the receive
        buffer (its completion is am_data_recv_cb) and reports
        UCS_INPROGRESS. */
    method AmDataHandler(rendezvous: bool) returns (status: Status)
      requires Valid()
      modifies this
      ensures Valid()
      ensures rendezvous ==> status == INPROGRESS && outstanding == old(outstanding)
      ensures !rendezvous ==> status == OK && outstanding == (old(outstanding) + U32 - 1) % U32
      ensures old(outstanding) >= 1 && old(InWindow()) ==> InWindow()
    {
      if rendezvous {
        status := INPROGRESS;
      } else {
        OpCompleted();
        status := OK;
      }
    }

    /** am_data_recv_cb: the rendezvous pull finished. */
    method AmDataRecvCb()
      requires Valid()
      modifies this
      ensures Valid()
      ensures outstanding == (old(outstanding) + U32 - 1) % U32
      ensures old(outstanding) >= 1 && old(InWindow()) ==> InWindow()
    {
      OpCompleted();
    }

    // -------------------------------------------------------------------
    // send and recv

    /** send: TAG, TAG_SYNC, STREAM and AM wait for a free slot and take it
        only when the library hands back a pending request; PUT writes its
        marker into the last byte and puts; GET and the atomics of width 4
        or 8 return the library's status, and GET, FADD, SWAP and CSWAP
        (blocking calls) leave the `length` bytes `fetched` from the remote
        side at the start of the buffer; everything else is
        UCS_ERR_INVALID_PARAM. */
    method Send(buffer: array<Byte>, length: nat, sn: Byte, window: seq<nat>, reply: PostReply, fetched: seq<Byte>)
      returns (status: Status)
      requires Valid()
      requires SendActionFor(command, testType, length) == WindowedSend ==>
        WaitTerminates(true, outstanding, maxOutstanding - 1, window)
      requires SendActionFor(command, testType, length) != WindowedSend ==> reply.Immediate?
      requires SendActionFor(command, testType, length).PutWithMarker? ==> 1 <= length <= buffer.Length
      requires SendActionFor(command, testType, length) == DirectOp && FetchesInto(command) ==>
        |fetched| == length <= buffer.Length
      modifies this, buffer, if reply.Pending? then {reply.req} else {}
      ensures Valid()
      ensures SendActionFor(command, testType, length) == WindowedSend && reply.Immediate? ==>
        status == reply.status
        && outstanding == Drained(old(outstanding), maxOutstanding - 1, window)
      ensures SendActionFor(command, testType, length) == WindowedSend && reply.Pending? ==>
        status == OK && reply.req.context == this
        && outstanding == Drained(old(outstanding), maxOutstanding - 1, window) + 1
      ensures SendActionFor(command, testType, length) != WindowedSend ==> outstanding == old(outstanding)
      ensures SendActionFor(command, testType, length).PutWithMarker? ==>
        status == reply.status
        && buffer[..] == old(buffer[..])[length - 1 := MarkerValue(SendActionFor(command, testType, length).m, sn)]
      ensures SendActionFor(command, testType, length) == DirectOp && FetchesInto(command) ==>
        buffer[..] == fetched + old(buffer[..])[length..]
      ensures !SendActionFor(command, testType, length).PutWithMarker?
              && !(SendActionFor(command, testType, length) == DirectOp && FetchesInto(command)) ==>
        buffer[..] == old(buffer[..])
      ensures SendActionFor(command, testType, length) == DirectOp ==> status == reply.status
      ensures SendActionFor(command, testType, length) == SendRejected ==> status == ERR_INVALID_PARAM
      ensures SendActionFor(command, testType, length) == WindowedSend ==> InWindow()
      ensures old(InWindow()) ==> InWindow()
    {
      match SendActionFor(command, testType, length) {
        case WindowedSend =>
          WaitWindow(1, true, window);
          match reply {
            case Immediate(s) =>
              status := s;
            case Pending(req) =>
              req.context := this;
              OpStarted();
              status := OK;
          }
        case PutWithMarker(m) =>
          buffer[length - 1] := MarkerValue(m, sn);
          status := reply.status;
        case DirectOp =>
          if FetchesInto(command) {
            forall i | 0 <= i < length {
              buffer[i] := fetched[i];
            }
            assert buffer[..] == fetched + old(buffer[..])[length..];
          }
          status := reply.status;
        case SendRejected =>
          status := ERR_INVALID_PARAM;
      }
    }

    /** The library behaviour a tag receive may meet: the wait and the probe
        end, and a request comes back fresh. */
    ghost predicate TagRecvFeasible(lib: RecvOracle, probe: bool)
      reads this, if lib.tag.TagPending? then {lib.tag.req} else {}
    {
      && maxOutstanding >= 1
      && WaitTerminates(ResponderProgresses(), outstanding, maxOutstanding - 1, lib.window)
      && (probe ==> Sum(lib.window) + Sum(lib.probes) <= outstanding
                    && (!ResponderProgresses() ==> lib.probes == []))
      && (lib.tag.TagPending? ==> lib.tag.req.context == null && !lib.tag.req.freed)
    }

    /** recv for TAG and TAG_SYNC: wait for a free slot, optionally probe
        until the message is there, then post the receive; the slot is taken
        only by a request still pending when the call returns. A request that
        completed inside the call ran tag_recv_cb with no context, so that
        completion is not counted, and it is freed here. */
    method RecvTag(length: nat, probe: bool, lib: RecvOracle) returns (status: Status)
      requires Valid() && maxOutstanding >= 1
      requires TagRecvFeasible(lib, probe)
      modifies this, if lib.tag.TagPending? then {lib.tag.req} else {}
      ensures Valid()
      ensures var waited := Drained(old(outstanding), maxOutstanding - 1, lib.window)
                            - (if probe then Sum(lib.probes) else 0);
        match lib.tag
        case TagImmediate(s) => status == s && outstanding == waited
        case TagPending(req, inline) =>
          status == OK
          && (inline ==> outstanding == waited && req.context == null && req.freed)
          && (!inline ==> outstanding == waited + 1 && req.context == this && !req.freed)
      ensures InWindow()
    {
      assert lib.tag.TagPending? ==> lib.tag.req.context == null && !lib.tag.req.freed;
      WaitWindow(1, false, lib.window);
      if probe {
        ProbeUntilFound(lib.probes);
      }
      match lib.tag {
        case TagImmediate(s) =>
          status := s;
        case TagPending(req, inline) =>
          if inline {
            TagRecvCb(req);
            req.freed := true;
          } else {
            req.context := this;
            OpStarted();
          }
          status := OK;
      }
    }

    /** The probe loop of a TAG_UNEXP_PROBE receive: call ucp_tag_probe_nb
        and progress_responder until the message is found; the i-th
        progress call completes probes[i] operations. */
    method ProbeUntilFound(probes: seq<nat>)
      requires Valid()
      requires Sum(probes) <= outstanding
      requires !ResponderProgresses() ==> probes == []
      modifies this
      ensures Valid()
      ensures outstanding == old(outstanding) - Sum(probes)
      ensures old(InWindow()) ==> InWindow()
    {
      var i := 0;
      while i < |probes|
        invariant 0 <= i <= |probes|
        invariant Valid()
        invariant outstanding == old(outstanding) - Sum(probes[..i])
        invariant Sum(probes) - Sum(probes[..i]) <= outstanding
      {
        SumPrefixStep(probes, i);
        SumPrefixBound(probes, i + 1);
        ProgressResponder(probes[i]);
        i := i + 1;
      }
      assert probes[..i] == probes;
    }

    /** The library behaviour the remaining receives may meet. */
    ghost predicate RecvFeasible(length: nat, marker: seq<Byte>, sn: Byte, lib: RecvOracle)
      reads this, if lib.tag.TagPending? then {lib.tag.req} else {}
    {
      match RecvActionFor(command, testType, caseFlags)
      case WindowedTagRecv(probe) => TagRecvFeasible(lib, probe)
      case SpinMarker(_) => exists k :: 0 <= k < |marker| && marker[k] == sn
      case ProgressOnce => lib.oneShot <= outstanding && (!ResponderProgresses() ==> lib.oneShot == 0)
      case StreamRecvData =>
        Delivers(DataPieces(lib.data), length)
        && DataCompletions(lib.data) <= outstanding
        && (!ResponderProgresses() ==> DataCompletions(lib.data) == 0)
      case StreamRecvFill =>
        Delivers(FillPieces(lib.fill), length)
        && FillCompletions(lib.fill) <= outstanding
        && (!ResponderProgresses() ==> FillCompletions(lib.fill) == 0)
      case _ => true
    }

    /** recv, by command and type: the tag receive above; AM counts an
        operation that its handler completes; a PUT round trip spins until
        the marker byte (whose successive reads are `marker`) equals `sn`;
        PUT STREAM_UNI does nothing; GET and the atomics on STREAM_UNI
        progress once; STREAM runs one of the two stream loops, and the
        completions of their progress calls are applied to the counter once
        the loop is done; everything else is UCS_ERR_INVALID_PARAM. */
    method Recv(length: nat, sn: Byte, marker: seq<Byte>, lib: RecvOracle) returns (status: Status, spins: nat)
      requires Valid()
      requires RecvFeasible(length, marker, sn, lib)
      modifies this, if lib.tag.TagPending? then {lib.tag.req} else {}
      ensures Valid()
      ensures match RecvActionFor(command, testType, caseFlags)
        case WindowedTagRecv(probe) =>
          var waited := Drained(old(outstanding), maxOutstanding - 1, lib.window)
                        - (if probe then Sum(lib.probes) else 0);
          (lib.tag.TagImmediate? ==> status == lib.tag.status && outstanding == waited)
          && (lib.tag.TagPending? && lib.tag.completedInline ==>
                status == OK && outstanding == waited && lib.tag.req.freed)
          && (lib.tag.TagPending? && !lib.tag.completedInline ==>
                status == OK && outstanding == waited + 1 && lib.tag.req.context == this)
        case AmStart => status == OK && outstanding == (old(outstanding) + 1) % U32
        case SpinMarker(_) =>
          status == OK && outstanding == old(outstanding)
          && spins < |marker| && marker[spins] == sn
          && (forall j :: 0 <= j < spins ==> marker[j] != sn)
        case NoRecv => status == OK && outstanding == old(outstanding)
        case ProgressOnce => status == OK && outstanding == old(outstanding) - lib.oneShot
        case StreamRecvData =>
          exists steps: nat, total: nat :: StopsAt(DataPieces(lib.data), length, steps, total, status)
            && outstanding == old(outstanding) - DataCompletions(lib.data[..steps])
        case StreamRecvFill =>
          exists steps: nat, total: nat :: StopsAt(FillPieces(lib.fill), length, steps, total, status)
            && outstanding == old(outstanding) - FillCompletions(lib.fill[..steps])
        case RecvRejected => status == ERR_INVALID_PARAM && outstanding == old(outstanding)
      ensures !RecvActionFor(command, testType, caseFlags).SpinMarker? ==> spins == 0
      ensures RecvActionFor(command, testType, caseFlags).WindowedTagRecv? ==> InWindow()
      ensures RecvActionFor(command, testType, caseFlags) != AmStart && old(InWindow()) ==> InWindow()
    {
      spins := 0;
      match RecvActionFor(command, testType, caseFlags) {
        case WindowedTagRecv(probe) =>
          status := RecvTag(length, probe, lib);
        case AmStart =>
          OpStarted();
          status := OK;
        case SpinMarker(waitMem) =>
          spins := SpinUntil(marker, sn);
          status := OK;
        case NoRecv =>
          status := OK;
        case ProgressOnce =>
          ProgressResponder(lib.oneShot);
          status := OK;
        case StreamRecvData =>
          var completed;
          var steps, total;
          status, completed, steps, total := RecvStreamData(length, lib.data);
          DataCompletionsPrefix(lib.data, steps);
          ProgressResponder(completed);
        case StreamRecvFill =>
          var completed;
          var steps, total, issued;
          status, completed, steps, total, issued := RecvStream(length, lib.fill);
          FillCompletionsPrefix(lib.fill, steps);
          ProgressResponder(completed);
        case RecvRejected =>
          status := ERR_INVALID_PARAM;
      }
    }

    // -------------------------------------------------------------------
    // The run loops

    /** run_pingpong: preset the PUT receive buffer's last byte to the
        sentinel, run the role's send/recv order with a wrapping sequence
        number, drain the whole window (the i-th progress call completing
        drain[i] operations) and return UCS_OK. `preset` is the receive
        buffer as the loop finds it; what the receives and the peer's puts
        leave in it belongs to the library. A send that writes a marker
        (PUT on any type but STREAM_BI) writes it into the send buffer's
        last byte, so the last iteration's marker is the one that stays
        there. */
    method RunPingPong(myIndex: nat, iterations: nat, sendBuffer: array<Byte>, recvBuffer: array<Byte>,
                       length: nat, drain: seq<nat>)
      returns (status: Status, trace: seq<Step>, preset: seq<Byte>)
      requires Valid()
      requires command == Put ==> 1 <= length <= recvBuffer.Length
      requires SendActionFor(command, testType, length).PutWithMarker? && myIndex <= 1 && iterations > 0 ==>
        1 <= length <= sendBuffer.Length
      requires WaitTerminates(true, outstanding, 0, drain)
      modifies this, sendBuffer, recvBuffer
      ensures Valid()
      ensures command == Put ==> preset == old(recvBuffer[..])[length - 1 := UNKNOWN_PSN]
      ensures command != Put ==> preset == old(recvBuffer[..])
      ensures SendActionFor(command, testType, length).PutWithMarker? && myIndex <= 1 && iterations > 0 ==>
        sendBuffer[..] == old(sendBuffer[..])[length - 1 :=
                            MarkerValue(SendActionFor(command, testType, length).m, Sn(iterations - 1))]
      ensures !FetchesInto(command)
              && !(SendActionFor(command, testType, length).PutWithMarker? && myIndex <= 1 && iterations > 0)
              && (command != Put || sendBuffer != recvBuffer) ==>
        sendBuffer[..] == old(sendBuffer[..])
      ensures trace == PingPongTrace(myIndex, iterations)
      ensures outstanding == 0
      ensures status == OK
    {
      if command == Put {
        recvBuffer[length - 1] := UNKNOWN_PSN;
      }
      preset := recvBuffer[..];
      trace := PingPongSchedule(myIndex, iterations);
      var action := SendActionFor(command, testType, length);
      if action.PutWithMarker? && myIndex <= 1 && iterations > 0 {
        sendBuffer[length - 1] := MarkerValue(action.m, Sn(iterations - 1));
      }
      WaitWindow(maxOutstanding, true, drain);
      status := OK;
    }

    /** run_stream_uni: index 0 receives, index 1 sends. Every send that
        writes a marker writes it into the send buffer's last byte (0 for
        STREAM_UNI). A PUT STREAM_UNI test ends with the receiver spinning
        until the first byte of its buffer (whose reads are `lastIter`) is
        UCP_PERF_LAST_ITER_SN, `spins` being the number of reads that came
        before, and with the sender writing that byte into the first byte of
        its send buffer and putting it. Then the window is drained and the
        result is UCS_OK. */
    method RunStreamUni(myIndex: nat, iterations: nat, sendBuffer: array<Byte>, length: nat,
                        lastIter: seq<Byte>, drain: seq<nat>)
      returns (status: Status, trace: seq<Step>, spins: nat)
      requires Valid()
      requires command == Put && testType == StreamUni && myIndex == 0 ==>
        exists k :: 0 <= k < |lastIter| && lastIter[k] == LAST_ITER_SN
      requires command == Put && testType == StreamUni && myIndex == 1 ==> 1 <= sendBuffer.Length
      requires SendActionFor(command, testType, length).PutWithMarker? && myIndex == 1 && iterations > 0 ==>
        1 <= length <= sendBuffer.Length
      requires WaitTerminates(true, outstanding, 0, drain)
      modifies this, sendBuffer
      ensures Valid()
      ensures trace == StreamUniTrace(myIndex, iterations, command == Put && testType == StreamUni)
      ensures command == Put && testType == StreamUni && myIndex == 0 ==>
        spins < |lastIter| && lastIter[spins] == LAST_ITER_SN
        && forall j :: 0 <= j < spins ==> lastIter[j] != LAST_ITER_SN
      ensures !(command == Put && testType == StreamUni && myIndex == 0) ==> spins == 0
      ensures command == Put && testType == StreamUni && myIndex == 1 ==>
        sendBuffer[..] == (if iterations > 0 then old(sendBuffer[..])[length - 1 := 0]
                           else old(sendBuffer[..]))[0 := LAST_ITER_SN]
      ensures SendActionFor(command, testType, length).PutWithMarker? && testType != StreamUni
              && myIndex == 1 && iterations > 0 ==>
        sendBuffer[..] == old(sendBuffer[..])[length - 1 :=
                            MarkerValue(SendActionFor(command, testType, length).m, Sn(iterations - 1))]
      ensures !FetchesInto(command)
              && !(SendActionFor(command, testType, length).PutWithMarker? && myIndex == 1 && iterations > 0)
              && !(command == Put && testType == StreamUni && myIndex == 1) ==>
        sendBuffer[..] == old(sendBuffer[..])
      ensures outstanding == 0
      ensures status == OK
    {
      var putTest := command == Put && testType == StreamUni;
      trace := StreamUniSchedule(myIndex, iterations, putTest);
      spins := 0;
      var action := SendActionFor(command, testType, length);
      if putTest && myIndex == 0 {
        spins := SpinUntil(lastIter, LAST_ITER_SN);
      } else if myIndex == 1 {
        if action.PutWithMarker? && iterations > 0 {
          sendBuffer[length - 1] := MarkerValue(action.m, Sn(iterations - 1));
        }
        if putTest {
          sendBuffer[0] := LAST_ITER_SN;
        }
      }
      WaitWindow(maxOutstanding, true, drain);
      status := OK;
    }

    /** run: the loop for the test type, or UCS_ERR_INVALID_PARAM with
        nothing touched. `trace` is the loop's order of operations. */
    method Run(myIndex: nat, iterations: nat, sendBuffer: array<Byte>, recvBuffer: array<Byte>, length: nat,
               lastIter: seq<Byte>, drain: seq<nat>)
      returns (status: Status, trace: seq<Step>)
      requires Valid()
      requires command == Put && LoopFor(testType) == Some(PingPongLoop) ==> 1 <= length <= recvBuffer.Length
      requires command == Put && LoopFor(testType) == Some(PingPongLoop) && myIndex <= 1 && iterations > 0 ==>
        1 <= length <= sendBuffer.Length
      requires command == Put && testType == StreamUni && myIndex == 0 ==>
        exists k :: 0 <= k < |lastIter| && lastIter[k] == LAST_ITER_SN
      requires command == Put && testType == StreamUni && myIndex == 1 ==> 1 <= sendBuffer.Length
      requires command == Put && testType == StreamUni && myIndex == 1 && iterations > 0 ==>
        1 <= length <= sendBuffer.Length
      requires WaitTerminates(true, outstanding, 0, drain)
      modifies this, sendBuffer, recvBuffer
      ensures Valid()
      ensures LoopFor(testType).None? ==>
        status == ERR_INVALID_PARAM && outstanding == old(outstanding) && trace == []
        && sendBuffer[..] == old(sendBuffer[..]) && recvBuffer[..] == old(recvBuffer[..])
      ensures LoopFor(testType).Some? ==> status == OK && outstanding == 0
      ensures LoopFor(testType) == Some(PingPongLoop) ==>
        trace == PingPongTrace(myIndex, iterations)
        && (command == Put && myIndex <= 1 && iterations > 0 ==>
              sendBuffer[..] == old(sendBuffer[..])[length - 1 := Sn(iterations - 1)])
        && (command != Put && !FetchesInto(command) ==> sendBuffer[..] == old(sendBuffer[..]))
      ensures LoopFor(testType) == Some(StreamUniLoop) ==>
        trace == StreamUniTrace(myIndex, iterations, command == Put)
        && (command == Put && myIndex == 1 ==>
              sendBuffer[..] == (if iterations > 0 then old(sendBuffer[..])[length - 1 := 0]
                                 else old(sendBuffer[..]))[0 := LAST_ITER_SN])
        && (!FetchesInto(command) && !(command == Put && myIndex == 1) ==> sendBuffer[..] == old(sendBuffer[..]))
    {
      match LoopFor(testType) {
        case Some(PingPongLoop) =>
          var preset;
          status, trace, preset := RunPingPong(myIndex, iterations, sendBuffer, recvBuffer, length, drain);
        case Some(StreamUniLoop) =>
          var spins;
          status, trace, spins := RunStreamUni(myIndex, iterations, sendBuffer, length, lastIter, drain);
        case None =>
          status, trace := ERR_INVALID_PARAM, [];
      }
    }
  }

  /** recv of AM counts its operation without waiting for a slot, so a rank
      that only receives (index 0 of run_stream_uni) runs past the window:
      two receives on a window of one leave two operations in flight. */
  method AmReceiverOverrunsWindow() returns (r: TestRunner)
    ensures r.command == Am && r.maxOutstanding == 1
    ensures r.outstanding == 2 && !r.InWindow()
  {
    r := new TestRunner(Am, StreamUni, 0, 0, 1);
    var lib := RecvOracle([], [], TagImmediate(OK), 0, [], []);
    var status, spins := r.Recv(0, 0, [], lib);
    status, spins := r.Recv(0, 0, [], lib);
  }

  /** am_data_handler completes an operation whenever a message arrives,
      whether or not a recv has counted it yet. Messages that arrive ahead of
      their receives run the unsigned counter below zero: two counted
      operations and three eager messages leave 2^32 - 1 in flight, and a
      wait_window on that counter finds no room. */
  method AmHandlersAheadOfReceivesWrap() returns (r: TestRunner)
    ensures r.command == Am && r.maxOutstanding == 2
    ensures r.outstanding == U32 - 1 && !r.InWindow()
  {
    r := new TestRunner(Am, PingPong, 0, 0, 2);
    var lib := RecvOracle([], [], TagImmediate(OK), 0, [], []);
    var status, spins := r.Recv(0, 0, [], lib);
    status, spins := r.Recv(0, 0, [], lib);
    status := r.AmDataHandler(false);
    status := r.AmDataHandler(false);
    status := r.AmDataHandler(false);
  }

  /** ucp_perf_test_dispatch: construct the runner of the first matching
      table entry and return what its run returns; without a match, return
      UCS_ERR_INVALID_PARAM and construct nothing. Every dispatched runner
      has a loop, so a dispatched test returns UCS_OK. */
  method UcpPerfTestDispatch(p: TestParams, maxOutstanding: nat, myIndex: nat, iterations: nat,
                             sendBuffer: array<Byte>, recvBuffer: array<Byte>, length: nat, lastIter: seq<Byte>)
    returns (status: Status)
    requires maxOutstanding < U32
    requires Supported(p.command, p.testType) ==> 0 < maxOutstanding
    requires Supported(p.command, p.testType) && p.command == Put && LoopFor(p.testType) == Some(PingPongLoop) ==>
      1 <= length <= recvBuffer.Length
    requires (Supported(p.command, p.testType) && p.command == Put && LoopFor(p.testType) == Some(PingPongLoop)
              && myIndex <= 1 && iterations > 0) ==> 1 <= length <= sendBuffer.Length
    requires Supported(p.command, p.testType) && p.command == Put && p.testType == StreamUni && myIndex == 0 ==>
      exists k :: 0 <= k < |lastIter| && lastIter[k] == LAST_ITER_SN
    requires Supported(p.command, p.testType) && p.command == Put && p.testType == StreamUni && myIndex == 1 ==>
      1 <= sendBuffer.Length
    requires (Supported(p.command, p.testType) && p.command == Put && p.testType == StreamUni && myIndex == 1
              && iterations > 0) ==> 1 <= length <= sendBuffer.Length
    modifies sendBuffer, recvBuffer
    ensures Dispatch(p).None? ==> status == ERR_INVALID_PARAM && sendBuffer[..] == old(sendBuffer[..]) && recvBuffer[..] == old(recvBuffer[..])
    ensures Dispatch(p).Some? ==> status == OK
    ensures status == OK <==> Supported(p.command, p.testType)
  {
    match Dispatch(p) {
      case None =>
        DispatchRejectsExactlyUnsupported(p);
        status := ERR_INVALID_PARAM;
      case Some(e) =>
        DispatchExact(p);
        DispatchedTypeRuns(p);
        var runner := new TestRunner(e.command, e.testType, e.flags, p.flags, maxOutstanding);
        var trace;
        status, trace := runner.Run(myIndex, iterations, sendBuffer, recvBuffer, length, lastIter, []);
    }
  }
}
