# UCP performance-test engine: a verified model

This project models the sequential core of `ucp_tests.cc`. That file is the UCX perf tool's engine for UCP tests.

- **Dispatcher.** `ucp_perf_test_dispatch` picks a runner configuration, a (command, test type, flags) triple. It walks a table of `TEST_CASE` entries, generated by the `TEST_CASE_ALL_*` macros, and takes the first entry that matches. A request that matches nothing gets `UCS_ERR_INVALID_PARAM`.
- **Runner.** `ucp_perf_test_runner` keeps a window of outstanding operations, `m_outstanding` bounded by `m_max_outstanding`:
  - `op_started` and `op_completed` move the counter.
  - The completion callbacks (`send_cb`, `tag_recv_cb`, `am_data_handler`, `am_data_recv_cb`) complete operations.
  - `wait_window` progresses the worker until there is room.
- **send and recv.** Each switches on the command and test type:
  - On send, TAG, TAG_SYNC, STREAM and AM take a slot only for a pending request; so do the tag receives. An AM receive always takes one.
  - PUT writes a marker byte.
  - The atomics check the operand width.
  - STREAM receives with one of two accumulation loops, `recv_stream_data` or `recv_stream`.
- **Run loops.** `run_pingpong` and `run_stream_uni` order the sends and receives by role, with a wrapping 8-bit sequence number, and drain the window at the end.

The UCX library is replaced by oracles, passed in as parameters:

- what a post returns (a status, or a pending request);
- how many operations each progress call completes;
- what each stream-receive iteration delivers;
- what successive reads of a remotely written byte observe.

Modules:

| file | module | contents |
|---|---|---|
| perf_types.dfy | PerfTypes | commands, test types, flag bits, status codes, `Sum` |
| dispatch.dfy | Dispatcher | the TEST_CASE table, first-match selection, closed form of the dispatcher, run()'s loop choice |
| strategy.dfy | Strategy | the send/recv switches as pure decisions: strategy, atomic width check, PUT marker, rejections |
| iov.dfy | Iov | `create_iov_buffer` filling an array in place |
| window.dfy | Window | where `wait_window` stops, as a function of the completions |
| stream_recv.dfy | StreamRecv | the two stream receive loops and `wait_stream_recv` |
| run_loops.dfy | RunLoops | the operation order of the two run loops |
| runner.dfy | Runner | the runner class: counter, callbacks, send, recv, run loops, dispatch entry point |

Constants:

- The flag bits are `UCX_PERF_TEST_FLAG_*`: ONE_SIDED bit 2, TAG_WILDCARD bit 4, TAG_UNEXP_PROBE bit 5, STREAM_RECV_DATA bit 8, FLUSH_EP bit 9.
- The status codes are `UCS_OK = 0`, `UCS_INPROGRESS = 1` and `UCS_ERR_INVALID_PARAM = -5`.
- The flags come from `libperf.h` and the status codes from `ucs/type/status.h`. Neither header is part of this model. Only the bit positions' distinctness and the statuses' signs matter to the proofs.

Where the code does something other than its comments and names suggest, the model follows the code:

- `run_pingpong` and `run_stream_uni` ignore the statuses of `send` and `recv` and always return `UCS_OK` (`ucp_tests.cc:550-572`, `575-635`).
- So a dispatched test returns `UCS_OK` (`UcpPerfTestDispatch`), and errors do not propagate out of the loops.
- `wait_window` (`ucp_tests.cc:273-282`) is meant to keep `0 <= m_outstanding <= m_max_outstanding`. For TAG, TAG_SYNC and STREAM it holds: Send, RecvTag, the probe loop, Progress, and the callbacks on a started operation all keep it (`TestRunner.InWindow`). This rests on the library completing only operations that were counted (see `Progress:` under "## Left out"). It does not hold for AM. `recv` for AM calls `op_started` without `wait_window` (`ucp_tests.cc:416-418`), and index 0 of `run_stream_uni` only receives (`ucp_tests.cc:607-612`), so the counter climbs past the window. `AmReceiverOverrunsWindow` shows two receives on a window of one leaving two operations in flight. The AM handler can also complete an operation before its `recv` counted it (`ucp_tests.cc:258-270` against `416-418`). Then the unsigned counter wraps below zero, and a later `wait_window` finds no room: `AmHandlersAheadOfReceivesWrap` shows two counted operations and three eager messages leaving 2^32 - 1.
- The sentinel 255 is not outside the range of sequence numbers: iteration 255 carries `sn` 255 (`ucp_tests.cc:518`, `554`). What holds is weaker and is what the receive needs. The byte left in place when a receive starts, the sentinel or the previous marker, never equals the marker awaited (`StaleMarkerNeverMatches`).

## Model

| member | source | states |
|---|---|---|
| Dispatcher.Matches | src/tools/perf/lib/ucp_tests.cc:724-727 | the TEST_CASE condition: same command, same type, and the request's flags under the case's mask equal the case's value |
| Dispatcher.Expand | src/tools/perf/lib/ucp_tests.cc:733-762 | the cases of one (command, type) pair for each family: OSD by ONE_SIDED, TAG by TAG_WILDCARD and TAG_UNEXP_PROBE, STREAM by STREAM_RECV_DATA, AM with an empty mask; its selection property is `ExpandSelect` |
| Dispatcher.ExpandSelect | src/tools/perf/lib/ucp_tests.cc:733-762 | one pair's cases select that pair, with the request's flags under the family mask, whatever the flags, and nothing for any other pair |
| Dispatcher.ForEach | src/tools/perf/lib/ucp_tests.cc:764-792 | UCS_PP_FOREACH: the family's cases for each listed pair, in list order; its selection property is `ForEachSelect` |
| Dispatcher.ForEachSelect | src/tools/perf/lib/ucp_tests.cc:764-792 | a family's table part selects exactly the listed pairs, with the request's flags under the family mask |
| Dispatcher.TableFamilies | src/tools/perf/lib/ucp_tests.cc:764-792 | every table entry comes from one of the four family parts, OSD, TAG, STREAM and AM, in that order |
| Dispatcher.FirstMatch | src/tools/perf/lib/ucp_tests.cc:724-731 | the index returned points at a matching entry and no earlier entry matches; None only when no entry matches |
| Dispatcher.Dispatch | src/tools/perf/lib/ucp_tests.cc:764-797 | a returned configuration is an entry of the table that matches the request (same command, same type, `flags & mask == value`); None only when no entry matches |
| Dispatcher.DispatchExact | src/tools/perf/lib/ucp_tests.cc:733-797 | closed form: a request whose (command, type) pair is listed gets exactly that pair with the command's mask and its flags under the mask; every other request is rejected |
| Dispatcher.DispatchRejectsExactlyUnsupported | src/tools/perf/lib/ucp_tests.cc:764-797 | a request is rejected if and only if its (command, type) pair is in none of the four lists; the flags never cause a rejection |
| Dispatcher.DispatchRejectsStreamBi | src/tools/perf/lib/ucp_tests.cc:784-787 | STREAM with STREAM_BI is rejected for any flags |
| Dispatcher.DispatchRejectsGetPingPong | src/tools/perf/lib/ucp_tests.cc:766-775 | GET with PINGPONG is rejected for any flags |
| Dispatcher.TableMasks | src/tools/perf/lib/ucp_tests.cc:733-762 | every table entry carries its command's family mask, a value inside that mask, and a listed pair |
| Dispatcher.MatchIsUnique | src/tools/perf/lib/ucp_tests.cc:724-797 | the entries are mutually exclusive: any matching entry is the one dispatched, so first-match order never decides |
| Dispatcher.LoopFor | src/tools/perf/lib/ucp_tests.cc:637-650 | run() has a loop exactly for the types other than STREAM_BI, and the round-trip loop exactly for PINGPONG and PINGPONG_WAIT_MEM |
| Dispatcher.DispatchedTypeRuns | src/tools/perf/lib/ucp_tests.cc:637-650 | every dispatched configuration has a run loop: run()'s STREAM_BI rejection is unreachable through dispatch |
| Strategy.SendActionFor | src/tools/perf/lib/ucp_tests.cc:292-382 | the switch of `send` over CMD, with the inner switches over TYPE for PUT and over the width for the atomics; its properties are the lemmas below |
| Strategy.RecvActionFor | src/tools/perf/lib/ucp_tests.cc:393-461 | the switch of `recv` over CMD, with the inner switches over TYPE and FLAGS; its properties are the lemmas below |
| Strategy.TagMask | src/tools/perf/lib/ucp_tests.cc:28-29 | the tag mask is zero (match any tag) exactly for the TAG_WILDCARD runners, and all ones (`(ucp_tag_t)-1`, the exact tag) for the others |
| Strategy.AtomicWidthChecked | src/tools/perf/lib/ucp_tests.cc:348-379 | ADD, FADD, SWAP and CSWAP are rejected exactly for widths other than 4 and 8, for every type, and issued directly otherwise |
| Strategy.WindowedSendCommands | src/tools/perf/lib/ucp_tests.cc:293-331 | send waits for a window slot exactly for TAG, TAG_SYNC, STREAM and AM |
| Strategy.SendRejectsExactly | src/tools/perf/lib/ucp_tests.cc:284-383 | send returns INVALID_PARAM exactly for an atomic of the wrong width and for PUT with STREAM_BI |
| Strategy.RecvRejectsExactly | src/tools/perf/lib/ucp_tests.cc:385-462 | recv returns INVALID_PARAM exactly for GET or an atomic outside STREAM_UNI and for PUT with STREAM_BI |
| Strategy.PutMarkerPolicy | src/tools/perf/lib/ucp_tests.cc:332-345 | PUT's marker is the sequence number for the round-trip types, zero for STREAM_UNI, and there is none (INVALID_PARAM) for any other type |
| Strategy.SupportedPairsServed | src/tools/perf/lib/ucp_tests.cc:284-462 | every listed pair has a recv strategy, and its send rejects nothing but an atomic of the wrong width |
| Strategy.DispatchedStrategiesAccept | src/tools/perf/lib/ucp_tests.cc:724-797 | the same for every configuration the dispatcher constructs |
| Strategy.DispatchedFlagsSelectVariant | src/tools/perf/lib/ucp_tests.cc:395-402 | a dispatched STREAM runner uses the release-as-arrives loop iff STREAM_RECV_DATA was requested; a TAG runner probes iff TAG_UNEXP_PROBE was requested, and matches any tag iff TAG_WILDCARD was requested |
| Iov.CreateIovBuffer | src/tools/perf/lib/ucp_tests.cc:75-94 | segment i gets length `msg_size_list[i]` and offset `i * stride` with a stride, or the sum of the earlier lengths without; entries past the count are untouched |
| Iov.ContiguousLayoutTiles | src/tools/perf/lib/ucp_tests.cc:75-94 | without a stride the segments start at the base, each ends where the next begins, and the last ends at the sum of all sizes |
| Iov.StridedLayoutDisjoint | src/tools/perf/lib/ucp_tests.cc:75-94 | with a stride no smaller than any size, earlier segments end before later ones start |
| Window.Drained | src/tools/perf/lib/ucp_tests.cc:273-282 | the counter where the wait stops: never more than it was, at most the limit once enough completions arrive, unchanged when already within the limit, and otherwise short only by the completions delivered |
| Window.DrainToZero | src/tools/perf/lib/ucp_tests.cc:565 | draining the whole window (`n = max_outstanding`) ends with no operation outstanding, after exactly the operations in flight completed |
| Window.DrainedStep | src/tools/perf/lib/ucp_tests.cc:275-281 | one progress call on a full window continues the same wait on the remaining completions |
| StreamRecv.StopIsUnique | src/tools/perf/lib/ucp_tests.cc:653-699 | the stopping iteration, byte count and status of a stream loop are determined by what the library delivers |
| StreamRecv.ExactChunksReceivedInFull | src/tools/perf/lib/ucp_tests.cc:653-670 | chunks that add up to exactly the message length, the last of them non-empty, are all taken, and the loop ends with exactly that length and UCS_OK, whatever the chunk boundaries |
| StreamRecv.RecvStreamData | src/tools/perf/lib/ucp_tests.cc:653-670 | every iteration before the last brought data (or nothing) and left the total short of the length; the last one either brought the total to at least the length (UCS_OK) or failed with the status returned; the completions returned are those of the progress calls made |
| StreamRecv.ThreeChunksReleased | src/tools/perf/lib/ucp_tests.cc:653-670 | 4096 bytes released as 1500, 1500 and 1096 end after three iterations with exactly 4096 bytes and UCS_OK |
| StreamRecv.ThreeChunksDeliver | src/tools/perf/lib/ucp_tests.cc:653-670 | that delivery lets the loop end |
| StreamRecv.WaitStreamRecv | src/tools/perf/lib/ucp_tests.cc:182-196 | a pending stream receive yields its length, or its error (a negative value); the result is negative exactly for an error; every in-progress test was followed by one progress call |
| StreamRecv.PostStreamRecv | src/tools/perf/lib/ucp_tests.cc:681-695 | one iteration of `recv_stream`: the length received at once or after waiting on the request, or the error as a negative value, with the completions of the progress calls made while waiting |
| StreamRecv.RecvStream | src/tools/perf/lib/ucp_tests.cc:672-699 | receive k is posted at offset = bytes received before it, with size = length minus that offset; the loop ends once the total reaches the length (UCS_OK) or returns the first error; earlier receives all succeeded short of the length |
| RunLoops.PingPongSchedule | src/tools/perf/lib/ucp_tests.cc:548-562 | the loop's send/recv order with the uint8 `++sn` equals the specified trace |
| RunLoops.StreamUniSchedule | src/tools/perf/lib/ucp_tests.cc:606-623 | index 0 receives and index 1 sends with sequence numbers 0, 1, ... mod 256, followed in a PUT test by the last-iteration wait or put |
| RunLoops.PingPongShape | src/tools/perf/lib/ucp_tests.cc:548-562 | iteration k of a ping-pong rank is a send and a receive with `sn = k mod 256`, index 0 sending first and index 1 receiving first |
| RunLoops.OtherRanksIdle | src/tools/perf/lib/ucp_tests.cc:548-562 | a rank whose index is neither 0 nor 1 issues nothing |
| RunLoops.StaleMarkerNeverMatches | src/tools/perf/lib/ucp_tests.cc:533-539 | the byte left in place when a receive starts (the 255 sentinel, then the previous marker) never equals the marker awaited, also across the wrap |
| RunLoops.MarkersInOrderBeforeWrap | src/tools/perf/lib/ucp_tests.cc:548-562 | while at most 256 iterations run, iteration k carries marker k: index 0 sends it then receives it, index 1 receives it then sends it |
| Runner.SpinUntil | src/tools/perf/lib/ucp_tests.cc:420-432 | the spin on the marker byte exits at the first read that sees the awaited value and not earlier; under guaranteed delivery this takes a bounded number of waits |
| Runner.MarkerSevenSeenAfterThreeWaits | src/tools/perf/lib/ucp_tests.cc:427-432 | the spin waiting for marker 7 over reads 255, 6, 6, 7 leaves the loop at the fourth read, after three waits |
| Runner.Request.constructor | src/tools/perf/lib/ucp_tests.cc:219-247 | a request handed out by the library has an empty context slot (the slot `send` and `recv` fill and the callbacks read) and is not yet freed |
| Runner.TestRunner.constructor | src/tools/perf/lib/ucp_tests.cc:33-46 | the runner starts with nothing outstanding and requires a positive window |
| Runner.TestRunner.OpStarted | src/tools/perf/lib/ucp_tests.cc:701-704 | the unsigned counter goes up by one, modulo 2^32, and by exactly one below 2^32 - 1 |
| Runner.TestRunner.OpCompleted | src/tools/perf/lib/ucp_tests.cc:706-709 | the unsigned counter goes down by one, modulo 2^32, and by exactly one from a positive value |
| Runner.TestRunner.Progress | src/tools/perf/lib/ucp_tests.cc:162-168 | a progress call that runs k completion callbacks lowers the counter by exactly k, so it keeps the window |
| Runner.TestRunner.ProgressResponder | src/tools/perf/lib/ucp_tests.cc:170-176 | a one-sided test's responder does not progress, so nothing completes |
| Runner.TestRunner.WaitWindow | src/tools/perf/lib/ucp_tests.cc:273-282 | returns only with `outstanding <= max_outstanding - n`, at the value `Drained` gives for the completions delivered |
| Runner.TestRunner.SendCb | src/tools/perf/lib/ucp_tests.cc:217-227 | one completion on the request's runner, context cleared, request freed; on a started operation the window is kept |
| Runner.TestRunner.TagRecvCb | src/tools/perf/lib/ucp_tests.cc:233-249 | with no context it changes nothing; otherwise exactly one completion, context cleared, request freed, so a second call is a no-op; on a started operation the window is kept |
| Runner.TestRunner.AmDataHandler | src/tools/perf/lib/ucp_tests.cc:258-271 | an eager message completes one operation and returns UCS_OK; a rendezvous message completes nothing yet and returns UCS_INPROGRESS; on a started operation the window is kept |
| Runner.TestRunner.AmDataRecvCb | src/tools/perf/lib/ucp_tests.cc:251-256 | the rendezvous pull's completion completes one operation; on a started operation the window is kept |
| Runner.TestRunner.Send | src/tools/perf/lib/ucp_tests.cc:284-383 | windowed commands: after the wait, an immediate status is returned with the counter unchanged, and a pending request gets this runner as context and raises the counter by exactly one; PUT writes `sn` or 0 into byte `length-1` only; GET and valid atomics return the library status, and GET, FADD, SWAP and CSWAP leave the fetched bytes at the start of the buffer, the rest unchanged; every other send leaves the buffer unchanged; the rest return INVALID_PARAM with nothing changed; a windowed send ends inside the window, and no send leaves it |
| Runner.TestRunner.ProbeUntilFound | src/tools/perf/lib/ucp_tests.cc:398-401 | probing until the message is found lowers the counter by exactly the completions of the responder progress calls made meanwhile, so it keeps the window |
| Runner.TestRunner.RecvTag | src/tools/perf/lib/ucp_tests.cc:393-415 | after the wait and the optional probe, an immediate status leaves the counter alone; a request completed inside the call is freed and not counted; a still-pending one gets this runner as context and counts once; the call ends inside the window |
| Runner.TestRunner.Recv | src/tools/perf/lib/ucp_tests.cc:385-462 | per strategy: the tag receive above; AM counts one operation; the PUT spin returns UCS_OK and the number of waits, ending at the first read equal to `sn` and not before; GET and atomics progress once; STREAM ends as its loop specifies, with the loop's completions applied; rejected pairs return INVALID_PARAM; every strategy except AM keeps the window, and the tag receive ends inside it |
| Runner.TestRunner.RunPingPong | src/tools/perf/lib/ucp_tests.cc:509-573 | a PUT test presets the receive buffer's last byte to 255 before the loop; the round-trip order is the trace; a send that writes a marker (PUT, except STREAM_BI, where send rejects it) leaves the last iteration's marker in the send buffer's last byte: its `sn` for the round-trip types, 0 for STREAM_UNI; for any other non-fetching command the send buffer is unchanged; the window ends drained to 0; UCS_OK |
| Runner.TestRunner.RunStreamUni | src/tools/perf/lib/ucp_tests.cc:575-635 | the one-directional order; the sender's marker-writing sends leave the last iteration's marker in byte `length-1` (0 for STREAM_UNI, its `sn` for the round-trip types); in a PUT STREAM_UNI test the sender then writes UCP_PERF_LAST_ITER_SN into byte 0, and the receiver returns the number of reads before the first one equal to it; the window ends drained to 0; UCS_OK |
| Runner.TestRunner.Run | src/tools/perf/lib/ucp_tests.cc:637-650 | STREAM_BI returns INVALID_PARAM with the counter and both buffers unchanged and an empty trace; the round-trip types give the ping-pong trace and, for PUT, the last marker in the send buffer's last byte; STREAM_UNI gives the one-directional trace and, for the PUT sender, 0 in byte `length-1` and LAST_ITER_SN in byte 0 of the send buffer; the send buffer is unchanged for the commands that only read it; every loop returns UCS_OK with the window drained |
| Runner.UcpPerfTestDispatch | src/tools/perf/lib/ucp_tests.cc:764-797 | without a match, INVALID_PARAM, no runner and both buffers untouched, whatever the window size and the length; with a match, the runner's run result, which is UCS_OK; so the status is UCS_OK exactly for the listed pairs |
| Runner.AmReceiverOverrunsWindow | src/tools/perf/lib/ucp_tests.cc:416-418 | AM receives take no slot: two on a window of one leave two operations in flight, outside the window |
| Runner.AmHandlersAheadOfReceivesWrap | src/tools/perf/lib/ucp_tests.cc:258-270 | eager AM messages handled ahead of their receives wrap the unsigned counter: two counted operations and three handlers leave 2^32 - 1, outside the window |

## Left out

- All UCX library calls are oracles passed as parameters. Their effects on remote memory and on message contents are not modelled. This covers tag, stream and AM sends and receives, put, get, the atomics, probe, worker progress, and wait and wait_mem.
- flush and fence: both are no-ops in the model. The choice `flush` (`ucp_tests.cc:495-502`) makes under FLUSH_EP, between `ucp_ep_flush` and `ucp_worker_flush`, is not modelled. Neither is the fence before the last STREAM_UNI put.
- Barriers, the clock, the rank service and `ucx_perf_update` are no-ops. The loops' order of operations does not depend on them.
- The volatile spins on remotely written bytes, in the PUT recv and in `wait_last_iter`, read from an observation sequence. The writer runs concurrently and is not modelled.
- RunPingPong and RunStreamUni give the order of sends and receives as a trace; they do not execute Send and Recv themselves. So the final drain works on the counter the loop starts with. The per-iteration window behaviour is stated by Send and Recv.
- Run: the receive buffer's contents after the loop belong to the library and the peer: receives fill it, and the peer's puts and atomics write it. Only the PUT sentinel preset before the loop is stated (`RunPingPong`'s `preset`). The send buffer is stated: the PUT sends' markers in byte `length-1` (the last iteration's `sn`, or 0 for STREAM_UNI) and LAST_ITER_SN in byte 0, no change for TAG, TAG_SYNC, STREAM, AM and ADD, and nothing for GET, FADD, SWAP and CSWAP. Their sends leave the fetched data there, which Send states per call.
- RunPingPong: when the send and receive buffers are one array, the claim that a non-writing run leaves the send buffer unchanged is not made. The two buffers are separate allocations in the perf framework, but this model does not assume it.
- Recv: in a PUT spin the progress calls complete nothing. A PUT test issues no windowed operation, so no completion exists. Recv also leaves the receive buffer's contents to the library.
- Recv: the completions that the stream loops' progress calls deliver are applied to the counter once the loop ends, and not one by one. The loops never read the counter, so the final state is the same.
- AM handler registration and deregistration (`set_am_handler`) are outside the model, and so is the rendezvous receive-parameter plumbing (`m_am_rx_*`, `am_rndv_recv`'s arguments).
- `ucp_perf_test_get_datatype`, `ucp_perf_test_prepare_iov_buffers` and `ucp_perf_init_common_params` are pointer and datatype bookkeeping. They are left out, and IOV offsets are relative to the buffer base.
- Wait-mode selection (sleep or poll) in `progress` does not change how many operations complete, so it is not captured.
- Progress: a progress call may complete at most the operations counted (`completions <= outstanding`). WaitWindow carries the same assumption through `WaitTerminates` (`Sum(deliveries) <= outstanding`). For TAG, TAG_SYNC and STREAM every completion belongs to a counted request. For AM, messages can arrive before the `recv` that counts them. A progress call that runs more handlers than the counter holds (counter 2, three eager messages in one call inside a send's `wait_window`) wraps the counter, and `wait_window` then never returns. That schedule is excluded from Progress and WaitWindow. The wrap itself is shown on the handlers by `AmHandlersAheadOfReceivesWrap`.
- WaitWindow: the termination it states assumes that the deliveries it is given never exceed the counter (`WaitTerminates`). For AM this does not hold in general: handlers that run ahead of their receives wrap the counter, and the wait then spins for ever. That case is not covered by its contract.
- Send: the data GET, FADD, SWAP and CSWAP fetch into the buffer is an oracle (`fetched`), written when the call returns, since these calls block.
- The oracles must let every wait end (`WaitTerminates`, `Delivers`, a marker that eventually appears). A run on which the library never delivers spins forever in C and is excluded by these requirements rather than modelled.
- UcpPerfTestDispatch: for a listed pair it requires `max_outstanding > 0`. The runner's constructor aborts on 0 (`ucs_assert_always`, `ucp_tests.cc:43`), and that abort is not modelled. An unlisted request is accepted with any window.
- The `ucs_error` message that `ucp_perf_test_dispatch` prints for an unmatched request (`ucp_tests.cc:794-796`) is logging only and is left out.
- `size_t`, `unsigned` lengths and pointer arithmetic are unbounded naturals. Only `m_outstanding` (32-bit) and `sn` (8-bit) wrap explicitly.
